/**
 * The inputs of a test case: the whitespace-separated string forms that
 * test() accepts for offsets, firsts and orders, and the classification
 * runTests makes before deciding which cases to run.
 */
module TestCases {
  import opened Knit

  /** The code points a JavaScript `\s` matches: white space and line terminators. */
  function SpaceCodes(): seq<int>
  {
    [0x09, 0x0A, 0x0B, 0x0C, 0x0D, 0x20, 0xA0, 0x1680,
     0x2000, 0x2001, 0x2002, 0x2003, 0x2004, 0x2005, 0x2006, 0x2007, 0x2008, 0x2009, 0x200A,
     0x2028, 0x2029, 0x202F, 0x205F, 0x3000, 0xFEFF]
  }

  /** Code n is one of the space codes from index i on. */
  predicate SpaceFrom(n: int, i: nat)
    decreases |SpaceCodes()| - i
  {
    i < |SpaceCodes()| && (SpaceCodes()[i] == n || SpaceFrom(n, i + 1))
  }

  /** The characters matched by a JavaScript `\s`. */
  predicate IsSpace(c: char)
  {
    SpaceFrom(c as int, 0)
  }

  /** No printable ASCII character (the signs, digits and marks the tests use) is a space. */
  lemma {:induction false} VisibleNotSpaceFrom(n: int, i: nat)
    requires 0x21 <= n <= 0x7E
    ensures !SpaceFrom(n, i)
    decreases |SpaceCodes()| - i
  {
    if i < |SpaceCodes()| {
      VisibleNotSpaceFrom(n, i + 1);
    }
  }

  lemma VisibleNotSpace(c: char)
    requires 0x21 <= c as int <= 0x7E
    ensures !IsSpace(c)
  {
    VisibleNotSpaceFrom(c as int, 0);
  }

  predicate IsToken(t: string)
  {
    |t| > 0 && forall i :: 0 <= i < |t| ==> !IsSpace(t[i])
  }

  /** Length of the run of non-space characters at the start of s. */
  function WordLength(s: string): (k: nat)
    ensures k <= |s|
  {
    if s == [] || IsSpace(s[0]) then 0 else 1 + WordLength(s[1..])
  }

  /** The run stops at the first space, or at the end. */
  lemma {:induction false} WordLengthStops(s: string)
    ensures WordLength(s) == |s| || IsSpace(s[WordLength(s)])
    ensures forall i :: 0 <= i < WordLength(s) ==> !IsSpace(s[i])
  {
    if s != [] && !IsSpace(s[0]) {
      WordLengthStops(s[1..]);
    }
  }

  /** Length of the run of space characters at the start of s. */
  function SpaceLength(s: string): (k: nat)
    ensures k <= |s|
    ensures |s| > 0 && IsSpace(s[0]) ==> k >= 1
  {
    if s == [] || !IsSpace(s[0]) then 0 else 1 + SpaceLength(s[1..])
  }

  /** The run of spaces stops at the first non-space, or at the end. */
  lemma {:induction false} SpaceLengthStops(s: string)
    ensures forall i :: 0 <= i < SpaceLength(s) ==> IsSpace(s[i])
  {
    if s != [] && IsSpace(s[0]) {
      SpaceLengthStops(s[1..]);
    }
  }

  /**
   * `s.split(/\s+/)`: the pieces between whitespace runs, with an empty
   * piece before leading and after trailing whitespace.
   */
  function Pieces(s: string): (ps: seq<string>)
    ensures |ps| >= 1
    decreases |s|
  {
    var k := WordLength(s);
    if k == |s| then [s]
    else
      var rest := s[k..];
      WordLengthStops(s);
      [s[..k]] + Pieces(rest[SpaceLength(rest)..])
  }

  /** The tokens of s: its maximal runs of non-space characters, in order. */
  function Tokens(s: string): seq<string>
    decreases |s|
  {
    if s == [] then []
    else if IsSpace(s[0]) then Tokens(s[1..])
    else
      var k := WordLength(s);
      [s[..k]] + Tokens(s[k..])
  }

  /** Every token is a non-empty run of non-space characters. */
  lemma {:induction false} TokensAreTokens(s: string)
    ensures forall k :: 0 <= k < |Tokens(s)| ==> IsToken(Tokens(s)[k])
    decreases |s|
  {
    if s != [] {
      if IsSpace(s[0]) {
        TokensAreTokens(s[1..]);
      } else {
        var k := WordLength(s);
        WordLengthStops(s);
        TokensAreTokens(s[k..]);
        assert IsToken(s[..k]);
      }
    }
  }

  function NonEmpty(ps: seq<string>): seq<string>
  {
    if ps == [] then [] else (if ps[0] == "" then [] else [ps[0]]) + NonEmpty(ps[1..])
  }

  lemma NonEmptyAppend(a: seq<string>, b: seq<string>)
    ensures NonEmpty(a + b) == NonEmpty(a) + NonEmpty(b)
  {
    if a == [] {
      assert a + b == b;
    } else {
      assert (a + b)[0] == a[0] && (a + b)[1..] == a[1..] + b;
      NonEmptyAppend(a[1..], b);
    }
  }

  lemma {:induction false} TokensSkipSpaces(s: string, j: nat)
    requires j <= |s| && forall i :: 0 <= i < j ==> IsSpace(s[i])
    ensures Tokens(s) == Tokens(s[j..])
  {
    if j > 0 {
      assert s[1..][j - 1..] == s[j..];
      TokensSkipSpaces(s[1..], j - 1);
    }
  }

  /** Dropping the empty pieces of a split leaves exactly the tokens. */
  lemma {:induction false} PiecesTokens(s: string)
    ensures NonEmpty(Pieces(s)) == Tokens(s)
    decreases |s|
  {
    var k := WordLength(s);
    if k == |s| {
      if s != [] {
        assert s[..k] == s && s[k..] == [];
      }
    } else {
      var rest := s[k..][SpaceLength(s[k..])..];
      PiecesTokens(rest);
      PiecesStep(s, rest);
    }
  }

  /** Splitting at the first whitespace run: the word before it, then the split of what follows. */
  lemma PiecesCons(s: string)
    requires WordLength(s) < |s|
    ensures Pieces(s) == [s[..WordLength(s)]] + Pieces(s[WordLength(s)..][SpaceLength(s[WordLength(s)..])..])
  {
  }

  /** A word and the spaces after it: the split and the tokens both go on with what follows. */
  lemma PiecesStep(s: string, rest: string)
    requires WordLength(s) < |s|
    requires rest == s[WordLength(s)..][SpaceLength(s[WordLength(s)..])..]
    requires NonEmpty(Pieces(rest)) == Tokens(rest)
    ensures NonEmpty(Pieces(s)) == Tokens(s)
  {
    var k := WordLength(s);
    var j := SpaceLength(s[k..]);
    var p := Pieces(rest);
    WordLengthStops(s);
    SpaceLengthStops(s[k..]);
    TokensSkipSpaces(s[k..], j);
    PiecesCons(s);
    NonEmptyAppend([s[..k]], p);
    if k == 0 {
      assert s[k..] == s;
      assert NonEmpty([s[..k]]) == [];
    } else {
      assert NonEmpty([s[..k]]) == [s[..k]];
      assert !IsSpace(s[0]);
      assert Tokens(s) == [s[..k]] + Tokens(s[k..]);
    }
  }

  /** A token followed by nothing or by whitespace is read back as that token. */
  lemma TokensCons(t: string, rest: string)
    requires IsToken(t) && (rest == [] || IsSpace(rest[0]))
    ensures Tokens(t + rest) == [t] + Tokens(rest)
  {
    var s := t + rest;
    WordLengthOf(t, rest);
    assert s[..|t|] == t && s[|t|..] == rest;
  }

  lemma {:induction false} WordLengthOf(t: string, rest: string)
    requires forall i :: 0 <= i < |t| ==> !IsSpace(t[i])
    requires rest == [] || IsSpace(rest[0])
    ensures WordLength(t + rest) == |t|
  {
    if t != [] {
      assert (t + rest)[1..] == t[1..] + rest;
      WordLengthOf(t[1..], rest);
    } else {
      assert t + rest == rest;
    }
  }

  // ----- parseInt -----

  /** The value of a digit character in bases up to 36; 36 for anything else. */
  function DigitValue(c: char): nat
  {
    if '0' <= c <= '9' then c as int - '0' as int
    else if 'a' <= c <= 'z' then c as int - 'a' as int + 10
    else if 'A' <= c <= 'Z' then c as int - 'A' as int + 10
    else 36
  }

  /** Length of the run of base-radix digits at the start of s. */
  function DigitRun(s: string, radix: nat): (k: nat)
    ensures k <= |s|
  {
    if s == [] || DigitValue(s[0]) >= radix then 0 else 1 + DigitRun(s[1..], radix)
  }

  /** The number a string of digits spells, most significant first. */
  function DigitsValue(ds: string, radix: nat): nat
  {
    if ds == [] then 0 else DigitsValue(ds[..|ds| - 1], radix) * radix + DigitValue(ds[|ds| - 1])
  }

  /**
   * JavaScript parseInt on a token: an optional sign, then a "0x" prefix
   * selecting base 16, then the longest run of digits; no digits is NaN (None).
   */
  function ParseInt(t: string): Option<int>
  {
    var negative := |t| > 0 && t[0] == '-';
    var u := if |t| > 0 && (t[0] == '-' || t[0] == '+') then t[1..] else t;
    var hex := |u| >= 2 && u[0] == '0' && (u[1] == 'x' || u[1] == 'X');
    var radix := if hex then 16 else 10;
    var v := if hex then u[2..] else u;
    var k := DigitRun(v, radix);
    var value: int := DigitsValue(v[..k], radix);
    if k == 0 then None else Some(if negative then -value else value)
  }

  /** Decimal digits of n, as Number.prototype.toString writes them. */
  function Decimal(n: nat): (s: string)
    ensures |s| >= 1
  {
    if n < 10 then [('0' as int + n) as char] else Decimal(n / 10) + [('0' as int + n % 10) as char]
  }

  /** Decimal writes nothing but the digits 0 to 9. */
  lemma {:induction false} DecimalDigits(n: nat)
    ensures forall i :: 0 <= i < |Decimal(n)| ==> '0' <= Decimal(n)[i] <= '9'
  {
    if n >= 10 {
      DecimalDigits(n / 10);
    }
  }

  lemma {:induction false} DecimalValue(n: nat)
    ensures DigitRun(Decimal(n), 10) == |Decimal(n)|
    ensures DigitsValue(Decimal(n), 10) == n
    ensures Decimal(n)[0] == '0' ==> n == 0
  {
    DecimalDigits(n);
    AllDigitsRun(Decimal(n));
    if n >= 10 {
      DecimalValue(n / 10);
      assert Decimal(n)[..|Decimal(n)| - 1] == Decimal(n / 10);
    }
  }

  lemma {:induction false} AllDigitsRun(s: string)
    requires forall i :: 0 <= i < |s| ==> '0' <= s[i] <= '9'
    ensures DigitRun(s, 10) == |s|
  {
    if s != [] {
      AllDigitsRun(s[1..]);
    }
  }

  /** How offsetsToString writes one offset: "-3", "+3" and, for zero, " 0". */
  function OffsetText(x: int): string
  {
    if x < 0 then "-" + Decimal(-x) else if x > 0 then "+" + Decimal(x) else " 0"
  }

  /** offsetsToString: the offsets written out, separated by single spaces. */
  function OffsetsText(offsets: seq<int>): string
  {
    if offsets == [] then ""
    else if |offsets| == 1 then OffsetText(offsets[0])
    else OffsetsText(offsets[..|offsets| - 1]) + " " + OffsetText(offsets[|offsets| - 1])
  }

  /** offsetsToString, appending one offset at a time. */
  method OffsetsToString(offsets: seq<int>) returns (info: string)
    ensures info == OffsetsText(offsets)
  {
    info := "";
    var i := 0;
    while i < |offsets|
      invariant 0 <= i <= |offsets|
      invariant info == OffsetsText(offsets[..i])
    {
      if i != 0 {
        info := info + " ";
      }
      ghost var separated := info;
      assert separated == (if i == 0 then "" else OffsetsText(offsets[..i]) + " ");
      if offsets[i] < 0 {
        info := info + ("-" + Decimal(-offsets[i]));
      } else if offsets[i] > 0 {
        info := info + ("+" + Decimal(offsets[i]));
      } else {
        info := info + " 0";
      }
      assert info == separated + OffsetText(offsets[i]);
      OffsetsTextStep(offsets, i);
      i := i + 1;
    }
    assert offsets[..i] == offsets;
  }

  /** The text of one more offset: a space unless it is the first, then the offset. */
  lemma OffsetsTextStep(offsets: seq<int>, i: nat)
    requires i < |offsets|
    ensures OffsetsText(offsets[..i + 1]) == (if i == 0 then "" else OffsetsText(offsets[..i]) + " ") + OffsetText(offsets[i])
  {
    assert offsets[..i + 1][..i] == offsets[..i];
  }

  /** The token an offset is read back from. */
  function OffsetToken(x: int): (t: string)
    ensures |t| >= 1
  {
    if x < 0 then "-" + Decimal(-x) else if x > 0 then "+" + Decimal(x) else "0"
  }

  /** An offset's token is a sign and digits, or a lone zero: never a space. */
  lemma OffsetTokenIsToken(x: int)
    ensures IsToken(OffsetToken(x))
  {
    var t := OffsetToken(x);
    DecimalDigits(Abs(x));
    assert t == "0" || t == (if x < 0 then "-" else "+") + Decimal(Abs(x));
    forall i | 0 <= i < |t|
      ensures !IsSpace(t[i])
    {
      VisibleNotSpace(t[i]);
    }
  }

  /** A numeral with no leading zero, after an optional sign, parses back to its value. */
  lemma ParseNumeral(t: string, u: string, negative: bool)
    requires |u| >= 1 && forall i :: 0 <= i < |u| ==> '0' <= u[i] <= '9'
    requires u[0] == '0' ==> |u| == 1
    requires |t| == |u| + 1 && t[1..] == u && t[0] == (if negative then '-' else '+')
    ensures ParseInt(t) == Some(if negative then -(DigitsValue(u, 10) as int) else DigitsValue(u, 10))
  {
    AllDigitsRun(u);
    assert u[..|u|] == u;
  }

  /** An unsigned numeral with no leading zero parses back to its value. */
  lemma ParseUnsigned(u: string)
    requires |u| >= 1 && forall i :: 0 <= i < |u| ==> '0' <= u[i] <= '9'
    requires u[0] == '0' ==> |u| == 1
    ensures ParseInt(u) == Some(DigitsValue(u, 10) as int)
  {
    AllDigitsRun(u);
    assert u[..|u|] == u;
  }

  lemma ParseOffsetToken(x: int)
    ensures ParseInt(OffsetToken(x)) == Some(x)
  {
    if x != 0 {
      ParseSignedToken(x);
    } else {
      assert OffsetToken(x) == "0";
      ParseUnsigned(OffsetToken(x));
    }
  }

  /** A non-zero offset's token, a sign and its decimal digits, parses back to it. */
  lemma ParseSignedToken(x: int)
    requires x != 0
    ensures ParseInt(OffsetToken(x)) == Some(x)
  {
    var t := OffsetToken(x);
    var u := Decimal(Abs(x));
    DecimalValue(Abs(x));
    DecimalDigits(Abs(x));
    assert t == (if x < 0 then "-" else "+") + u;
    assert t[1..] == u;
    ParseNumeral(t, u, x < 0);
  }

  /** Offset x followed by the rest of the text reads as x's token, then the rest. */
  lemma OffsetTextCons(x: int, rest: string)
    requires rest == [] || IsSpace(rest[0])
    ensures Tokens(OffsetText(x) + rest) == [OffsetToken(x)] + Tokens(rest)
  {
    var t := OffsetToken(x);
    OffsetTokenIsToken(x);
    TokensCons(t, rest);
    if x == 0 {
      BlankSkipped(t + rest);
      assert OffsetText(x) + rest == " " + (t + rest);
    } else {
      assert OffsetText(x) == t;
    }
  }

  /** A leading blank is not part of any token. */
  lemma BlankSkipped(u: string)
    ensures Tokens(" " + u) == Tokens(u)
  {
    TokensSkipSpaces(" " + u, 1);
    assert (" " + u)[1..] == u;
  }

  function OffsetTokens(offsets: seq<int>): (ts: seq<string>)
    ensures |ts| == |offsets|
  {
    seq(|offsets|, k requires 0 <= k < |offsets| => OffsetToken(offsets[k]))
  }

  /** A run of non-space characters cut short by a space is not lengthened by what follows. */
  lemma {:induction false} WordLengthExtend(a: string, c: string)
    requires WordLength(a) < |a|
    ensures WordLength(a + c) == WordLength(a)
  {
    if !IsSpace(a[0]) {
      assert (a + c)[1..] == a[1..] + c;
      WordLengthExtend(a[1..], c);
    }
  }

  /** Text joined by a space tokenises as the tokens of each side. */
  lemma {:induction false} TokensSpaced(a: string, b: string)
    ensures Tokens(a + " " + b) == Tokens(a) + Tokens(b)
    decreases |a|
  {
    var s := a + " " + b;
    if a == [] {
      assert s == " " + b && s[1..] == b;
      TokensSkipSpaces(s, 1);
    } else if IsSpace(a[0]) {
      assert s[0] == a[0] && s[1..] == a[1..] + " " + b;
      TokensSpaced(a[1..], b);
    } else {
      var k := WordLength(a);
      assert s[0] == a[0];
      if k < |a| {
        WordLengthExtend(a, " " + b);
        assert s == a + (" " + b);
        assert s[..k] == a[..k] && s[k..] == a[k..] + " " + b;
        TokensSpaced(a[k..], b);
      } else {
        WordLengthStops(a);
        WordLengthOf(a, " " + b);
        assert s == a + (" " + b);
        assert s[..k] == a && s[k..] == " " + b && (" " + b)[1..] == b;
        TokensSkipSpaces(" " + b, 1);
        assert a[..k] == a && a[k..] == [];
      }
    }
  }

  lemma {:induction false} OffsetsTextTokens(offsets: seq<int>)
    ensures Tokens(OffsetsText(offsets)) == OffsetTokens(offsets)
  {
    if offsets != [] {
      var x := offsets[|offsets| - 1];
      OffsetTextCons(x, "");
      assert OffsetText(x) + "" == OffsetText(x);
      if |offsets| > 1 {
        var front := offsets[..|offsets| - 1];
        TokensSpaced(OffsetsText(front), OffsetText(x));
        OffsetsTextTokens(front);
        OffsetTokensSnoc(offsets);
      } else {
        assert OffsetTokens(offsets) == [OffsetToken(x)];
      }
    }
  }

  /** The tokens of all offsets but the last, then the last one's token. */
  lemma OffsetTokensSnoc(offsets: seq<int>)
    requires |offsets| > 0
    ensures OffsetTokens(offsets) == OffsetTokens(offsets[..|offsets| - 1]) + [OffsetToken(offsets[|offsets| - 1])]
  {
    var front := offsets[..|offsets| - 1];
    var l := OffsetTokens(offsets);
    var r := OffsetTokens(front) + [OffsetToken(offsets[|offsets| - 1])];
    forall k | 0 <= k < |l|
      ensures l[k] == r[k]
    {
      if k < |front| {
        assert front[k] == offsets[k];
      }
    }
  }

  /** Offsets given as a string: split on whitespace, skip empty pieces, parseInt each piece. */
  method ParseOffsets(text: string) returns (parsed: seq<Option<int>>)
    ensures |parsed| == |Tokens(text)|
    ensures forall k :: 0 <= k < |parsed| ==> parsed[k] == ParseInt(Tokens(text)[k])
  {
    var pieces := Pieces(text);
    PiecesTokens(text);
    parsed := [];
    var i := 0;
    while i < |pieces|
      invariant 0 <= i <= |pieces|
      invariant |parsed| == |NonEmpty(pieces[..i])|
      invariant forall k :: 0 <= k < |parsed| ==> parsed[k] == ParseInt(NonEmpty(pieces[..i])[k])
    {
      NonEmptyStep(pieces, i);
      if pieces[i] != "" {
        parsed := parsed + [ParseInt(pieces[i])];
      }
      i := i + 1;
    }
    assert pieces[..i] == pieces;
  }

  /** Writing offsets out and reading them back gives the same offsets. */
  lemma OffsetsRoundTrip(offsets: seq<int>)
    ensures |Tokens(OffsetsText(offsets))| == |offsets|
    ensures forall k :: 0 <= k < |offsets| ==> ParseInt(Tokens(OffsetsText(offsets))[k]) == Some(offsets[k])
  {
    OffsetsTextTokens(offsets);
    forall k | 0 <= k < |offsets| ensures ParseInt(Tokens(OffsetsText(offsets))[k]) == Some(offsets[k]) {
      ParseOffsetToken(offsets[k]);
    }
  }

  // ----- firsts and orders -----

  /** One firsts token: '*' is marked, '.' is not, anything else is reported and skipped. */
  function FirstMark(t: string): seq<bool>
  {
    if t == "*" then [true] else if t == "." then [false] else []
  }

  /** One orders token: '+' is 1, '.' is 0, '-' is -1, anything else is reported and skipped. */
  function OrderMark(t: string): seq<int>
  {
    if t == "+" then [1] else if t == "." then [0] else if t == "-" then [-1] else []
  }

  function FirstsOf(ts: seq<string>): seq<bool>
  {
    if ts == [] then [] else FirstMark(ts[0]) + FirstsOf(ts[1..])
  }

  function OrdersOf(ts: seq<string>): seq<int>
  {
    if ts == [] then [] else OrderMark(ts[0]) + OrdersOf(ts[1..])
  }

  lemma {:induction false} FirstsOfAppend(a: seq<string>, b: seq<string>)
    ensures FirstsOf(a + b) == FirstsOf(a) + FirstsOf(b)
  {
    if a == [] {
      assert a + b == b;
    } else {
      assert (a + b)[0] == a[0] && (a + b)[1..] == a[1..] + b;
      FirstsOfAppend(a[1..], b);
    }
  }

  lemma {:induction false} OrdersOfAppend(a: seq<string>, b: seq<string>)
    ensures OrdersOf(a + b) == OrdersOf(a) + OrdersOf(b)
  {
    if a == [] {
      assert a + b == b;
    } else {
      assert (a + b)[0] == a[0] && (a + b)[1..] == a[1..] + b;
      OrdersOfAppend(a[1..], b);
    }
  }

  /** One more piece of the split adds itself to the non-empty pieces, unless it is empty. */
  lemma NonEmptyStep(pieces: seq<string>, i: nat)
    requires i < |pieces|
    ensures NonEmpty(pieces[..i + 1]) == NonEmpty(pieces[..i]) + (if pieces[i] == "" then [] else [pieces[i]])
  {
    assert pieces[..i + 1] == pieces[..i] + [pieces[i]];
    NonEmptyAppend(pieces[..i], [pieces[i]]);
    assert NonEmpty([pieces[i]]) == (if pieces[i] == "" then [] else [pieces[i]]) + NonEmpty([]);
  }

  /** Reading one more piece of the split adds that piece's marks, an empty piece adding none. */
  lemma PieceStep(pieces: seq<string>, i: nat)
    requires i < |pieces|
    ensures FirstsOf(NonEmpty(pieces[..i + 1])) == FirstsOf(NonEmpty(pieces[..i])) + FirstMark(pieces[i])
    ensures OrdersOf(NonEmpty(pieces[..i + 1])) == OrdersOf(NonEmpty(pieces[..i])) + OrderMark(pieces[i])
  {
    NonEmptyStep(pieces, i);
    var tail: seq<string> := if pieces[i] == "" then [] else [pieces[i]];
    FirstsOfAppend(NonEmpty(pieces[..i]), tail);
    OrdersOfAppend(NonEmpty(pieces[..i]), tail);
    if pieces[i] != "" {
      assert FirstsOf(tail) == FirstMark(pieces[i]) + FirstsOf([]);
      assert OrdersOf(tail) == OrderMark(pieces[i]) + OrdersOf([]);
    }
  }

  method ParseFirsts(text: string) returns (parsed: seq<bool>)
    ensures parsed == FirstsOf(Tokens(text))
  {
    var pieces := Pieces(text);
    PiecesTokens(text);
    parsed := [];
    var i := 0;
    while i < |pieces|
      invariant 0 <= i <= |pieces|
      invariant parsed == FirstsOf(NonEmpty(pieces[..i]))
    {
      PieceStep(pieces, i);
      if pieces[i] == "*" {
        parsed := parsed + [true];
      } else if pieces[i] == "." {
        parsed := parsed + [false];
      }
      i := i + 1;
    }
    assert pieces[..i] == pieces;
  }

  method ParseOrders(text: string) returns (parsed: seq<int>)
    ensures parsed == OrdersOf(Tokens(text))
  {
    var pieces := Pieces(text);
    PiecesTokens(text);
    parsed := [];
    var i := 0;
    while i < |pieces|
      invariant 0 <= i <= |pieces|
      invariant parsed == OrdersOf(NonEmpty(pieces[..i]))
    {
      PieceStep(pieces, i);
      if pieces[i] == "+" {
        parsed := parsed + [1];
      } else if pieces[i] == "." {
        parsed := parsed + [0];
      } else if pieces[i] == "-" {
        parsed := parsed + [-1];
      }
      i := i + 1;
    }
    assert pieces[..i] == pieces;
  }

  /** Tokens written out separated by single spaces. */
  function Join(ts: seq<string>): string
  {
    if ts == [] then "" else if |ts| == 1 then ts[0] else ts[0] + " " + Join(ts[1..])
  }

  lemma {:induction false} TokensJoin(ts: seq<string>)
    requires forall k :: 0 <= k < |ts| ==> IsToken(ts[k])
    ensures Tokens(Join(ts)) == ts
  {
    if |ts| == 1 {
      TokensCons(ts[0], "");
      assert ts[0] + "" == ts[0];
    } else if |ts| > 1 {
      var rest := " " + Join(ts[1..]);
      assert Join(ts) == ts[0] + rest;
      TokensCons(ts[0], rest);
      TokensJoin(ts[1..]);
      TokensSkipSpaces(rest, 1);
      assert rest[1..] == Join(ts[1..]);
    }
  }

  /** One mark per stitch: '*' for a first stitch, '.' otherwise. */
  function FirstSymbols(firsts: seq<bool>): (ts: seq<string>)
    ensures |ts| == |firsts|
  {
    seq(|firsts|, k requires 0 <= k < |firsts| => if firsts[k] then "*" else ".")
  }

  /** One mark per stitch: '+', '.' or '-' for an order of 1, 0 or -1. */
  function OrderSymbols(orders: seq<int>): (ts: seq<string>)
    ensures |ts| == |orders|
  {
    seq(|orders|, k requires 0 <= k < |orders| => if orders[k] > 0 then "+" else if orders[k] == 0 then "." else "-")
  }

  /** The firsts written one mark per stitch, '*' or '.'. */
  function FirstsText(firsts: seq<bool>): string
  {
    Join(FirstSymbols(firsts))
  }

  /** The orders written one mark per stitch, '+', '.' or '-'. */
  function OrdersText(orders: seq<int>): string
    requires forall k :: 0 <= k < |orders| ==> -1 <= orders[k] <= 1
  {
    Join(OrderSymbols(orders))
  }

  lemma FirstSymbolsTail(firsts: seq<bool>)
    requires |firsts| > 0
    ensures FirstSymbols(firsts)[1..] == FirstSymbols(firsts[1..])
  {
  }

  lemma OrderSymbolsTail(orders: seq<int>)
    requires |orders| > 0
    ensures OrderSymbols(orders)[1..] == OrderSymbols(orders[1..])
  {
  }

  /** Every mark is a one-character token. */
  lemma FirstSymbolsAreTokens(firsts: seq<bool>)
    ensures forall k :: 0 <= k < |FirstSymbols(firsts)| ==> IsToken(FirstSymbols(firsts)[k])
  {
    VisibleNotSpace('*');
    VisibleNotSpace('.');
  }

  /** Every mark is a one-character token. */
  lemma OrderSymbolsAreTokens(orders: seq<int>)
    ensures forall k :: 0 <= k < |OrderSymbols(orders)| ==> IsToken(OrderSymbols(orders)[k])
  {
    VisibleNotSpace('+');
    VisibleNotSpace('.');
    VisibleNotSpace('-');
  }

  lemma {:induction false} FirstsOfMarks(firsts: seq<bool>)
    ensures FirstsOf(FirstSymbols(firsts)) == firsts
  {
    if firsts != [] {
      FirstSymbolsTail(firsts);
      FirstsOfMarks(firsts[1..]);
    }
  }

  lemma {:induction false} OrdersOfMarks(orders: seq<int>)
    requires forall k :: 0 <= k < |orders| ==> -1 <= orders[k] <= 1
    ensures OrdersOf(OrderSymbols(orders)) == orders
  {
    if orders != [] {
      OrderSymbolsTail(orders);
      OrdersOfMarks(orders[1..]);
    }
  }

  /** Marks written out and parsed back give the same firsts. */
  lemma FirstsRoundTrip(firsts: seq<bool>)
    ensures FirstsOf(Tokens(FirstsText(firsts))) == firsts
  {
    FirstSymbolsAreTokens(firsts);
    TokensJoin(FirstSymbols(firsts));
    FirstsOfMarks(firsts);
  }

  /** Marks written out and parsed back give the same orders. */
  lemma OrdersRoundTrip(orders: seq<int>)
    requires forall k :: 0 <= k < |orders| ==> -1 <= orders[k] <= 1
    ensures OrdersOf(Tokens(OrdersText(orders))) == orders
  {
    OrderSymbolsAreTokens(orders);
    TokensJoin(OrderSymbols(orders));
    OrdersOfMarks(orders);
  }

  // ----- classification -----

  /**
   * runTests' look at a case before running it: whether some offset is
   * longer than transferMax, whether two neighbours cross, and whether two
   * stitches share a target needle.
   */
  method Classify(offsets: seq<int>, transferMax: int) returns (hasLong: bool, hasCables: bool, hasLace: bool)
    ensures hasLong <==> exists i :: 0 <= i < |offsets| && Abs(offsets[i]) > transferMax
    ensures hasCables <==> !CableFree(offsets)
    ensures hasLace <==> exists i, j :: 0 <= i < j < |offsets| && Target(offsets, i) == Target(offsets, j)
  {
    hasLong, hasCables, hasLace := false, false, false;
    var targets: map<int, seq<nat>> := map[];
    var i := 0;
    while i < |offsets|
      invariant ClassifiedUpTo(offsets, transferMax, i, hasLong, hasCables, hasLace, targets)
    {
      ghost var long0, cables0, lace0, targets0 := hasLong, hasCables, hasLace, targets;
      if Abs(offsets[i]) > transferMax {
        hasLong := true;
      }
      if i > 0 && i - 1 + offsets[i - 1] > i + offsets[i] {
        hasCables := true;
      }
      var t := i + offsets[i];
      if t !in targets {
        targets := targets[t := []];
      }
      targets := targets[t := targets[t] + [i]];
      if |targets[t]| > 1 {
        hasLace := true;
      }
      assert targets == targets0[t := (if t in targets0 then targets0[t] else []) + [i]];
      ClassifyStep(offsets, transferMax, i, long0, cables0, lace0, targets0, hasLong, hasCables, hasLace, targets);
      i := i + 1;
    }
  }

  /** What Classify knows after looking at the first i stitches. */
  ghost predicate ClassifiedUpTo(offsets: seq<int>, transferMax: int, i: nat,
                                 hasLong: bool, hasCables: bool, hasLace: bool, targets: map<int, seq<nat>>)
  {
    i <= |offsets|
    && (hasLong <==> LongBefore(offsets, transferMax, i))
    && (hasCables <==> CrossBefore(offsets, i))
    && (hasLace <==> StackBefore(offsets, i))
    && targets == Groups(offsets, i)
  }

  /** Some stitch before i moves further than transferMax. */
  predicate LongBefore(offsets: seq<int>, transferMax: int, i: nat)
    requires i <= |offsets|
  {
    exists k :: 0 <= k < i && Abs(offsets[k]) > transferMax
  }

  /** Some neighbours before i cross. */
  predicate CrossBefore(offsets: seq<int>, i: nat)
    requires i <= |offsets|
  {
    exists k :: 1 <= k < i && offsets[k - 1] > 1 + offsets[k]
  }

  /** Two stitches before i share a target. */
  predicate StackBefore(offsets: seq<int>, i: nat)
    requires i <= |offsets|
  {
    exists k, j :: 0 <= k < j < i && Target(offsets, k) == Target(offsets, j)
  }

  /** Looking at stitch i: its length, its left neighbour and its target's group. */
  lemma ClassifyStep(offsets: seq<int>, transferMax: int, i: nat,
                     long0: bool, cables0: bool, lace0: bool, targets0: map<int, seq<nat>>,
                     hasLong: bool, hasCables: bool, hasLace: bool, targets: map<int, seq<nat>>)
    requires i < |offsets| && ClassifiedUpTo(offsets, transferMax, i, long0, cables0, lace0, targets0)
    requires hasLong == (long0 || Abs(offsets[i]) > transferMax)
    requires hasCables == (cables0 || (i > 0 && i - 1 + offsets[i - 1] > i + offsets[i]))
    requires var t := i + offsets[i];
      targets == targets0[t := (if t in targets0 then targets0[t] else []) + [i]]
      && hasLace == (lace0 || |targets[t]| > 1)
    ensures ClassifiedUpTo(offsets, transferMax, i + 1, hasLong, hasCables, hasLace, targets)
  {
    LongStep(offsets, transferMax, i);
    CrossStep(offsets, i);
    LaceGroup(offsets, i);
    LaceStep(offsets, i);
  }

  lemma LongStep(offsets: seq<int>, transferMax: int, i: nat)
    requires i < |offsets|
    ensures LongBefore(offsets, transferMax, i + 1) <==> LongBefore(offsets, transferMax, i) || Abs(offsets[i]) > transferMax
  {
    if Abs(offsets[i]) > transferMax {
      assert 0 <= i < i + 1 && Abs(offsets[i]) > transferMax;
    }
  }

  lemma CrossStep(offsets: seq<int>, i: nat)
    requires i < |offsets|
    ensures CrossBefore(offsets, i + 1) <==> CrossBefore(offsets, i) || (i >= 1 && offsets[i - 1] > 1 + offsets[i])
  {
  }

  /** Stitch i's group gets a second member iff an earlier stitch has the same target. */
  lemma LaceGroup(offsets: seq<int>, i: nat)
    requires i < |offsets|
    ensures var t := i + offsets[i];
      var g := Groups(offsets, i);
      |(if t in g then g[t] else []) + [i]| > 1 <==> exists k :: 0 <= k < i && Target(offsets, k) == Target(offsets, i)
  {
    GroupsMembers(offsets, i);
  }

  /** The stitches before i grouped by target needle, each group in order. */
  ghost function Groups(offsets: seq<int>, i: nat): map<int, seq<nat>>
    requires i <= |offsets|
  {
    if i == 0 then map[]
    else
      var g := Groups(offsets, i - 1);
      var t := Target(offsets, i - 1);
      g[t := (if t in g then g[t] else []) + [i - 1]]
  }

  /** A needle has a group iff some earlier stitch targets it, and no group is empty. */
  lemma {:induction false} GroupsMembers(offsets: seq<int>, i: nat)
    requires i <= |offsets|
    ensures forall t :: t in Groups(offsets, i) <==> exists k :: 0 <= k < i && Target(offsets, k) == t
    ensures forall t :: t in Groups(offsets, i) ==> |Groups(offsets, i)[t]| >= 1
  {
    if i > 0 {
      GroupsMembers(offsets, i - 1);
    }
  }

  /** A pair of stitches before i+1 shares a target iff one before i does, or stitch i meets an earlier one. */
  lemma LaceStep(offsets: seq<int>, i: nat)
    requires i < |offsets|
    ensures StackBefore(offsets, i + 1)
       <==> StackBefore(offsets, i) || (exists k :: 0 <= k < i && Target(offsets, k) == Target(offsets, i))
  {
  }
}
