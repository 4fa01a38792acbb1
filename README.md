# Verified model of lace-transfers

lace-transfers plans the transfers a two-bed knitting machine makes to move loops. Stitch `i` starts on front needle `i` and must end on front needle `i + offsets[i]`. Stitches marked in `firsts` must end at the bottom of their stack: they are the first loop to arrive there. A transfer moves the whole stack on one needle to a needle on the other bed. It must use an allowed bed pair (front or front sliders to back, back or back sliders to front). Its racking, the shift between the beds, must lie within the window that the slack between neighbouring stitches allows.

This project models, one Dafny module per source file:

- `Knit` (knit.dfy): beds, needle locations, transfers (`Op`), slack, needle keys, and the `Option`/`Result` types used everywhere.
- `TestDriver` (test_driver.dfy): the `test` simulator. It replays a plan on a needle map, checking the bed pair, the racking window and the stack rules, then runs the final check. Every planner is judged by it. The `Simulator` class keeps the needle map and counters that `test` updates in place.
- `TestCases` (test_cases.dfy): the string form of test cases (offsets, firsts, orders), and how `runTests` classifies a case (long, cable, lace).
- `LayeredDp` (layered_dp.dfy): the layered dynamic program that `split_cables` and `limit_offsets` share. It fills a cost table in place, and the best value and back links are proved optimal.
- `SplitCables` and `LimitOffsets`: the two offset splitters, built on `LayeredDp`.
- `LaceTransfers`, `FlatTransfers` and `CableTransfers`: the three resolvers. These are lace with offsets in {-1,0,1}, the bucketed `sliderySchoolbus` with slider parking and choice of direction, and the L/M/R cable matcher.
- `GeneralTransfers` (general_transfers.dfy): the orchestrator. A `Transfers` class holds the shadow needle map, the plan passed on so far and the current mapping (`setMapped`, `mappedXfer`). The method loops `limit_offsets` with lace or flat until nothing remains, runs the cable phase, and checks the result.
- `SchoolBus` and `KnitpaintEsque`: the two baseline schedules.
- `CseTransfers` (cse_transfers.dfy): the binary-heap `PriorityQueue` class and the slack, penalty and move-legality rules of the best-first search. `SearchRules` holds the notions those rules and the exhaustive search share.
- `ExhaustiveSearch` (exhaustive_search.dfy): pass counting, the slack and move rules, applying a move, `Reached`, the lower bound and the cable sanity check.
- `GenerateStats` (generate_stats.dfy): needle-key parsing and `getOffset`, the pass and stack statistics replay, `computeLowerBound`, and the `Stitch` class.
- `LongerLaces` and `EnumerateLaces`: the two test-corpus enumerators. Each emits its records as a sequence instead of writing files.

Conventions of the model:

- A planner's `xfer` callback becomes a transfer appended to the sequence of `Op`s the planner returns.
- A thrown exception becomes an `Err`.
- A failing `console.assert` also becomes an `Err`, as the header of test-driver.js promises ("throws if not"). Node itself only logs a failing `console.assert`. Each place where this changes behaviour is listed under "## Left out".
- `Infinity` bounds and the typed-array "invalid" markers become `Option` values.
- Integers are unbounded.
- Where the source is a loop that changes variables, the model has a method with a loop. The method is proved equal to a specification function, and the properties are proved about that function.

## Model

`FlatTransfers.Flat`, `GeneralTransfers.GeneralTransfers` and `EnumerateLaces` model the corrected code of the three findings below, not the code as written. The members named in the "as-written member" column of "## Findings" model the code as written.

| member | source | states |
|---|---|---|
| `Knit.AllowedPairCrosses` | test-driver.js:166-168 | each of the six accepted bed pairs (f>b, f>bs, fs>b, b>f, b>fs, bs>f) joins a front-side bed with a back-side bed, so a transfer never stays on its own side |
| `Knit.Slack` | test-driver.js:188 | the slack of neighbours i-1 and i is the distance between their targets, and never less than 1 |
| `Knit.KeyText` | general-transfers.js:39 | the needle key is the bed name followed by the needle number, so its second character is an `s`, a sign or a digit |
| `TestDriver.InitialWellFormed` | test-driver.js:104-107 | before any transfer each stitch 0..n-1 is held exactly once, alone on front needle i |
| `TestDriver.PosOfUnique` | test-driver.js:175-182 | in a well-formed needle map a stitch has exactly one location ("each stitch can only be in one place") |
| `TestDriver.Locate` | test-driver.js:171-182 | scanning the needle map yields, for every stitch, the bed and needle that hold it |
| `TestDriver.WindowEmptiness` | test-driver.js:184-196 | the racking window is empty exactly when both bounds are finite and the lower exceeds the upper |
| `TestDriver.RackingWindow` | test-driver.js:184-195 | a racking lies in the computed window iff every neighbour pair on beds of different sides (f or fs against b or bs) keeps -slack <= back + racking - front <= slack; pairs on one bed constrain nothing |
| `TestDriver.MoveStackEntry` | test-driver.js:202-219 | every loop on any needle after a transfer was on some needle before it, and the source needle is left empty |
| `TestDriver.MoveStackUnique` | test-driver.js:202-219 | moving a whole stack never makes a stitch appear twice |
| `TestDriver.MoveStackBounded` | test-driver.js:202-219 | moving a stack creates no new stitches |
| `TestDriver.MoveStackHolds` | test-driver.js:202-219 | a stitch on the source ends on the destination; every other stitch stays where it was |
| `TestDriver.MoveStackWellFormed` | test-driver.js:202-219 | the needle map stays well formed, and exactly the stitches of the source needle change position, to the destination |
| `TestDriver.Step` | test-driver.js:161-219 | a transfer the simulator accepts keeps every stitch held exactly once |
| `TestDriver.StepMoves` | test-driver.js:166-219 | an accepted transfer has an allowed bed pair and a racking inside the window, respects the stack and empty options, is logged, and moves only the stitches of its source needle |
| `TestDriver.Replay` | test-driver.js:161-222 | replaying a plan transfer by transfer keeps the needle map well formed |
| `TestDriver.ReplayLog` | test-driver.js:156-217 | a successful replay logs the plan in order and leaves the stacked and empty counters at zero unless their options are set |
| `TestDriver.FinalCheckOk` | test-driver.js:253-267 | a passing final check means each stitch i is on front needle i+offsets[i], each first-marked stitch is at the bottom of it unless firsts are ignored, and the count returned is the number of misplaced first stitches |
| `TestDriver.FinalCheckNotReached` | test-driver.js:255-257 | the final check fails exactly at the first stitch missing from its target needle, every earlier stitch having arrived |
| `TestDriver.FinalCheckNoMisplaced` | test-driver.js:259-265 | when firsts are not ignored, a passing final check counts no invalid first |
| `TestDriver.RunOk` | test-driver.js:37-277 | a passing test returns the plan as its log, zero counters for every option not set, and leaves each stitch on its target with marked stitches at the bottom |
| `TestDriver.Pour` | test-driver.js:219 | popping the source onto the destination one loop at a time appends the source stack reversed |
| `TestDriver.Simulator.constructor` | test-driver.js:104-107 | the simulator starts from the initial needle map with an empty log and zero counters |
| `TestDriver.Simulator.Xfer` | test-driver.js:161-222 | the xfer callback accepts exactly the transfers the step function accepts, leaves the needles unchanged on failure, and moves to the step's next state on success |
| `TestDriver.Simulator.Finish` | test-driver.js:253-267 | the stitch-by-stitch final check returns what the specification of the final check returns |
| `TestDriver.Test` | test-driver.js:37-277 | test() validates the arguments, replays the planner's transfers and runs the final check, returning exactly the specified result |
| `TestCases.WordLengthStops` | test-driver.js:43 | a word of the whitespace split runs up to the first whitespace character or the end of the text |
| `TestCases.TokensAreTokens` | test-driver.js:43-44 | every token kept from the split is non-empty and holds no whitespace |
| `TestCases.PiecesTokens` | test-driver.js:43-44 | dropping the empty pieces of `split(/\s+/)` leaves exactly the maximal runs of non-space characters, in order |
| `TestCases.ParseOffsets` | test-driver.js:41-48 | offsets given as text become one parseInt result per non-empty piece of the whitespace split, in order |
| `TestCases.OffsetsToString` | test-driver.js:91-100 | offsetsToString writes each offset as "-k", "+k" or " 0", separated by single spaces |
| `TestCases.ParseOffsetToken` | test-driver.js:45 | parseInt reads the token of any offset back as that offset |
| `TestCases.OffsetsTextTokens` | test-driver.js:43-44 | the text offsetsToString writes splits into exactly one token per offset |
| `TestCases.OffsetsRoundTrip` | test-driver.js:41-100 | offsets written by offsetsToString and parsed back as a string argument are the same offsets |
| `TestCases.ParseFirsts` | test-driver.js:49-58 | firsts given as text map each `*` token to true and each `.` token to false, skipping empty pieces and reporting other tokens |
| `TestCases.ParseOrders` | test-driver.js:59-69 | orders given as text map `+`, `.` and `-` tokens to 1, 0 and -1, skipping empty pieces and reporting other tokens |
| `TestCases.FirstsRoundTrip` | test-driver.js:49-58 | firsts written one mark per stitch parse back to the same firsts |
| `TestCases.OrdersRoundTrip` | test-driver.js:59-69 | orders in {-1, 0, 1} written one mark per stitch parse back to the same orders |
| `TestCases.Classify` | test-driver.js:355-375 | a case has long offsets iff some abs(offset) exceeds transferMax, has cables iff some neighbours cross, and has lace iff two stitches share a target needle |
| `TestCases.GroupsMembers` | test-driver.js:371-374 | the targets table has an entry for a needle iff an earlier stitch targets it, and no entry is empty |
| `TestCases.LaceStep` | test-driver.js:371-374 | a pair sharing a target appears among the first i+1 stitches iff it did among the first i or stitch i meets an earlier stitch's target |
| `SchoolBus.Lifts` | school-bus.js:7-9 | the lifting loop emits f i -> b i for every stitch, in ascending i |
| `SchoolBus.DropsAtWithin` | school-bus.js:13-17 | one racking's drops return only stitches whose offset is that racking, each from a needle already visited |
| `SchoolBus.DropsAtSweep` | school-bus.js:13-17 | one racking's drops come in ascending needle order |
| `SchoolBus.DropsAtReturnsAt` | school-bus.js:13-17 | one racking's drops return stitch i exactly once if its offset is that racking and never otherwise |
| `SchoolBus.DropsAtReturns` | school-bus.js:13-17 | the same count, for every stitch at once |
| `SchoolBus.DropsAtLength` | school-bus.js:13-17 | one racking's drops are as many as the stitches with that offset |
| `SchoolBus.SweepUpOrder` | school-bus.js:11-19 | sweeping the rackings upward emits drops in ascending offset, then ascending needle, all within the range |
| `SchoolBus.SweepUpReturns` | school-bus.js:11-19 | the upward sweep returns each stitch whose offset is in range exactly once and no other stitch |
| `SchoolBus.SweepUpLength` | school-bus.js:11-19 | the upward sweep emits as many drops as there are stitches with an offset in range |
| `SchoolBus.SweepUpFacts` | school-bus.js:11-19 | the upward sweep's order, range, per-stitch return count and length together |
| `SchoolBus.SweepDownOrder` | knitpaint-esque.js:24-38 | the downward sweep used by the negative side emits drops in descending offset, then ascending needle |
| `SchoolBus.SweepDownReturns` | knitpaint-esque.js:24-38 | the downward sweep returns each stitch whose offset is in range exactly once |
| `SchoolBus.SweepDownLength` | knitpaint-esque.js:24-38 | the downward sweep emits one drop per stitch with offset in range |
| `SchoolBus.SweepDownFacts` | knitpaint-esque.js:24-38 | the downward sweep's order, range, per-stitch return count and length together |
| `SchoolBus.SchoolBusFacts` | school-bus.js:6-20 | the plan has n plus the number of in-range stitches transfers; the first n lift f i -> b i in ascending i; the rest sweep the rackings upward and return each in-range stitch exactly once; an out-of-range stitch never returns |
| `SchoolBus.SchoolBusZeroRoundTrip` | school-bus.js:7-19 | a zero-offset stitch goes f i -> b i, and comes back to f i iff 0 lies in [minRacking, maxRacking] |
| `SchoolBus.SweepOffset` | school-bus.js:13-17 | the inner loop appends exactly the drops of one racking to the plan |
| `SchoolBus.SchoolBusBasic` | school-bus.js:6-20 | school_bus_basic emits exactly the school-bus schedule |
| `KnitpaintEsque.LiftsWhereOrder` | knitpaint-esque.js:8-12 | the lifting loop of one side emits only f i -> b i for stitches of that side, in strictly ascending needle order |
| `KnitpaintEsque.LiftsWhereCountAt` | knitpaint-esque.js:8-12 | the lifting loop lifts stitch i exactly once if it is on that side, and never otherwise |
| `KnitpaintEsque.LiftsWhereCount` | knitpaint-esque.js:24-28 | the same count, for every stitch at once |
| `KnitpaintEsque.KnitpaintPhases` | knitpaint-esque.js:7-39 | the plan is positive lifts, an upward sweep of rackings 1..maxRacking, negative lifts, then a downward sweep of rackings -1..minRacking, so every positive-side transfer precedes every negative-side one |
| `KnitpaintEsque.NoLiftsAmongDrops` | knitpaint-esque.js:15-22 | the drop sweeps contain no lift |
| `KnitpaintEsque.NoDropsAmongLifts` | knitpaint-esque.js:8-12 | the lifting loops contain no drop |
| `KnitpaintEsque.KnitpaintLifts` | knitpaint-esque.js:8-28 | every nonzero-offset stitch is lifted f i -> b i exactly once and a zero-offset stitch never |
| `KnitpaintEsque.KnitpaintReturns` | knitpaint-esque.js:14-38 | a stitch is returned b i -> f i+offset exactly once when 0 < offset <= maxRacking or minRacking <= offset < 0, and never otherwise |
| `KnitpaintEsque.KnitpaintSkipsZeros` | knitpaint-esque.js:7-39 | no transfer of the plan touches a zero-offset stitch |
| `KnitpaintEsque.LiftSide` | knitpaint-esque.js:24-28 | a lifting loop appends exactly the lifts of its side to the plan |
| `KnitpaintEsque.Knitpaint` | knitpaint-esque.js:7-39 | knitpaint_esque emits exactly the four-phase schedule |
| `LayeredDp.ChooseSound` | split-cables.js:72-85 | the predecessor scan keeps a best cost exactly when it keeps a back link, and the kept predecessor is allowed by the edge test, reachable, and gives exactly the kept cost |
| `LayeredDp.ChooseMin` | split-cables.js:72-85 | no reachable, allowed predecessor the scan looked at is cheaper than the one it keeps |
| `LayeredDp.ChooseFirst` | split-cables.js:81-84 | on ties the scan keeps the first candidate: every earlier allowed predecessor costs strictly more (`cost < best`) |
| `LayeredDp.PickSound` | split-cables.js:92-101 | the final scan keeps a cost exactly when it keeps a last value, and that cost is the table entry of that value |
| `LayeredDp.PickMin` | split-cables.js:92-101 | no reachable final value is cheaper than the one the final scan keeps |
| `LayeredDp.Trace` | split-cables.js:105-110 | following the back links from layer i gives one value per layer ending at the chosen value |
| `LayeredDp.TraceSound` | split-cables.js:105-110 | the traced path respects every node and edge test and costs exactly its table entry |
| `LayeredDp.PathExtend` | split-cables.js:72-80 | a path extended by an allowed value is a path one layer longer, costing one step more |
| `LayeredDp.CellOptimal` | split-cables.js:66-90 | every path ending at a value has a table entry there, and no path costs less than that entry |
| `LayeredDp.SolutionOptimal` | split-cables.js:92-110 | the answer is a path through every layer that no full path undercuts, and there is no answer exactly when no path reaches the last layer |
| `LayeredDp.BestFrom` | split-cables.js:68-88 | one table entry is computed by the predecessor scan, with its back link |
| `LayeredDp.FillLayer` | split-cables.js:66-90 | filling layer i from layer i-1 keeps the tables equal to their specification on every filled layer |
| `LayeredDp.TraceBack` | split-cables.js:105-110 | reading the back links down from the last layer yields the traced path |
| `LayeredDp.Solve` | split-cables.js:56-110 | the table-filling dynamic program returns exactly the specified optimal path, or none |
| `SplitCables.FlatOf` | split-cables.js:113-115 | the flat part and the cable part add up to the offsets at every stitch |
| `SplitCables.ValidCablesMeaning` | split-cables.js:71-77 | a valid cable part leaves a cable-free flat part that joins two stitches only where the offsets join them, and from stitch 1 on neither part moves a stitch further than its offset |
| `SplitCables.CablePaths` | split-cables.js:60-90 | the paths of the layered problem through every stitch are exactly the valid cable parts (cable offsets in [-8, 8] meeting the node and edge tests) |
| `SplitCables.CablePathCost` | split-cables.js:62-80 | a path's cost is the total abs(cable) movement |
| `SplitCables.ZeroCables` | split-cables.js:33-41 | for a cable-free input the all-zero cable part is valid and costs nothing |
| `SplitCables.HasCables` | split-cables.js:26-32 | the shortcut scan finds a cable iff some stitch's target lies right of its right neighbour's |
| `SplitCables.FlatPart` | split-cables.js:113-120 | the flat part is built as offsets minus cables, and its flatness checks hold |
| `SplitCables.CableSolution` | split-cables.js:56-110 | the dynamic program's answer is a valid cable part of least total movement, and it has no answer only when no valid cable part exists |
| `SplitCables.SplitCables` | split-cables.js:24-126 | split_cables returns a valid, minimal cable part and the flat remainder, fails iff no valid cable part exists, and returns the offsets unchanged with all-zero cables when there is no cable |
| `LimitOffsets.LongOf` | limit-offsets.js:120-122 | the short and long parts add up to the offsets at every stitch |
| `LimitOffsets.ValidShortMeaning` | limit-offsets.js:123-129 | for a valid short part both parts are cable-free, and where the short part joins two stitches the long part moves neither |
| `LimitOffsets.LimitPaths` | limit-offsets.js:52-82 | the paths of the layered problem through every stitch are exactly the valid short parts, within [-limit, limit] |
| `LimitOffsets.LimitPathCost` | limit-offsets.js:53-73 | a path's cost is the total abs(long) movement |
| `LimitOffsets.ZeroShort` | limit-offsets.js:52-82 | for a cable-free input and a non-negative limit the all-zero short part is valid |
| `LimitOffsets.AllShort` | limit-offsets.js:52-82 | a cable-free input inside the limit is its own valid short part and leaves nothing long |
| `LimitOffsets.LimitSolution` | limit-offsets.js:47-117 | the dynamic program's answer is a valid short part of least total long movement, and there is no answer only when no valid short part exists |
| `LimitOffsets.LongPart` | limit-offsets.js:120-131 | the long part is built as offsets minus short parts, and the post-checks hold |
| `LimitOffsets.Limit` | limit-offsets.js:27-137 | limit_offsets returns a valid split of least total long movement; it fails iff the input is empty or no valid short part exists, never fails on a non-empty cable-free input with a non-negative limit, and leaves nothing long when every offset is within the limit |
| `LaceTransfers.ValidFacts` | lace-transfers.js:19-38 | input that passes the checks has equal lengths, offsets in {-1, 0, 1}, no adjacent [1, -1], no leftmost -1 and no rightmost +1 |
| `LaceTransfers.NextZeroInRun` | lace-transfers.js:79 | the scan over +1s stops at the first zero after them |
| `LaceTransfers.PrevZeroInRun` | lace-transfers.js:85 | a -1 belongs to the zero that starts its run of -1s |
| `LaceTransfers.BlockZero` | lace-transfers.js:78-97 | every stitch of a block (+1)* 0 (-1)* has the block's zero as its own |
| `LaceTransfers.BlocksOfValid` | lace-transfers.js:76-97 | a valid input is cut into blocks: each +1 has a zero to its right with only +1s between, each -1 a zero to its left with only -1s between |
| `LaceTransfers.SortedSigns` | lace-transfers.js:119-126 | each list of the groupings holds only stitches of that list's offset |
| `LaceTransfers.AddAgrees` | lace-transfers.js:119-126 | adding a stitch to the list of its own offset keeps every list at its offset |
| `LaceTransfers.ClassifiedCount` | lace-transfers.js:76-127 | among the groupings of stitches 0..k-1, stitch i occurs once in the list of its offset and its block's kind, and nowhere else |
| `LaceTransfers.SortedMembership` | lace-transfers.js:76-127 | every index lands in exactly one of the plus, zero and minus lists of exactly one of the three kinds |
| `LaceTransfers.ToBacksCount` | lace-transfers.js:44-46 | the to-back pass of a list emits f i -> b i once per occurrence of i |
| `LaceTransfers.ReturnsCount` | lace-transfers.js:48-50 | the return pass of a list emits b i -> f i+offsets[i] once per occurrence of i |
| `LaceTransfers.PassCount` | lace-transfers.js:137-143 | a pass sends each of its stitches to the back once and returns it once |
| `LaceTransfers.PassBacksFirst` | lace-transfers.js:137-143 | a pass sends all its stitches to the back before returning any |
| `LaceTransfers.PassShape` | lace-transfers.js:137-143 | every transfer of a pass is one of its stitches going to the back or to its target |
| `LaceTransfers.PassMembers` | lace-transfers.js:137-162 | pass one holds the +1s and zeros of plus-first blocks, pass two every -1 and the zeros of minus-first blocks, pass three the +1s of the other blocks |
| `LaceTransfers.LaceMoves` | lace-transfers.js:137-162 | each moved stitch goes f i -> b i exactly once and b i -> f i+offsets[i] exactly once; zeros of zero-first blocks get no transfer |
| `LaceTransfers.PlanCount` | lace-transfers.js:137-162 | how often the plan moves stitch i to the back and to its target is its number of places in the three passes |
| `LaceTransfers.LaceShape` | lace-transfers.js:44-50 | every transfer of the plan is f i -> b i or b i -> f i+offsets[i] for some stitch i |
| `LaceTransfers.LaceOrder` | lace-transfers.js:137-162 | the emission order is fixed whatever the blocks: pass one, then pass two, then pass three |
| `LaceTransfers.LaceErrors` | lace-transfers.js:19-117 | lace_transfers fails iff the lengths differ, an offset is outside {-1, 0, 1}, some [1, -1] pair, the leftmost is -1, the rightmost is +1, or some block has two of its three candidates marked first |
| `LaceTransfers.CheckInputs` | lace-transfers.js:19-38 | the input check loops report the first failing check, in the source's order, or nothing |
| `LaceTransfers.PushRun` | lace-transfers.js:120-125 | pushing a run of one offset and one kind extends the groupings to the end of the run |
| `LaceTransfers.SortBlocks` | lace-transfers.js:76-127 | the block loop fails with "Only one stitch may be marked first" iff some block has a conflict, and otherwise yields the specified groupings |
| `LaceTransfers.ScanBlock` | lace-transfers.js:78-86 | the two inner loops find a block (+1)* 0 (-1)* that starts where the scan was and ends where the next block can begin |
| `LaceTransfers.ClassifyBlock` | lace-transfers.js:99-117 | the block's kind is plus-first if its rightmost +1 is marked, minus-first if its leftmost -1 is, zero-first otherwise, and there is none exactly when two candidates are marked |
| `LaceTransfers.PushBlock` | lace-transfers.js:119-126 | adding a block's +1s, zero and -1s at its kind extends the groupings to the block's end |
| `LaceTransfers.SendBack` | lace-transfers.js:138-139 | forEach(xferToBack) appends one f i -> b i per listed stitch, in order |
| `LaceTransfers.Return` | lace-transfers.js:141-143 | forEach(xferToFront) appends one b i -> f i+ofs per listed stitch, in order |
| `LaceTransfers.EmitOne` | lace-transfers.js:137-143 | the first two to-back and two return passes emit pass one |
| `LaceTransfers.EmitTwo` | lace-transfers.js:145-155 | the -1/0 passes emit pass two after what came before |
| `LaceTransfers.SendBackTwo` | lace-transfers.js:145-149 | the four to-back loops of pass two send its stitches back, in order |
| `LaceTransfers.ReturnTwo` | lace-transfers.js:150-155 | the four return loops of pass two return its stitches, in order |
| `LaceTransfers.EmitThree` | lace-transfers.js:157-162 | the last +1 passes emit pass three after what came before |
| `LaceTransfers.Emit` | lace-transfers.js:137-162 | the eight passes emit exactly the specified plan |
| `LaceTransfers.Lace` | lace-transfers.js:18-164 | lace_transfers returns exactly the specified plan or error |
| `LongerLaces.StackedFromRun` | longer-laces.js:38-41 | the counting loop, continued from any point inside the trailing run, ends with that run's length |
| `LongerLaces.StackedMeaning` | longer-laces.js:38-41 | the stacked count is the length of the trailing run of equal targets, a run that never reaches back to stitch 0 |
| `LongerLaces.StackCount` | longer-laces.js:38-41 | the counting loop computes the stacked count |
| `LongerLaces.AllowedMeaning` | longer-laces.js:28-47 | an offset may follow a prefix iff its target stays on needles 0..n-1, it is within the limit, it is at least the previous offset minus 1, and at least the previous offset once three stitches are counted as stacked |
| `LongerLaces.UpToNext` | longer-laces.js:43-47 | one more round of the offset loop records exactly the patterns that continue with that offset |
| `LongerLaces.PatternsSound` | longer-laces.js:27-53 | every pattern recorded from a prefix has length n, starts with the prefix and takes allowed offsets after it |
| `LongerLaces.UpToSound` | longer-laces.js:31-47 | every pattern the offset loop records below o continues the prefix with an allowed offset smaller than o |
| `LongerLaces.PatternsComplete` | longer-laces.js:27-53 | every allowed completion of a prefix is recorded |
| `LongerLaces.UpToComplete` | longer-laces.js:31-47 | every allowed completion whose next offset is below o is recorded by the loop up to o |
| `LongerLaces.PatternsAscending` | longer-laces.js:27-53 | the patterns are recorded in strictly ascending lexicographic order |
| `LongerLaces.UpToAscending` | longer-laces.js:31-47 | the loop over offsets records in strictly ascending lexicographic order |
| `LongerLaces.PatternsEnumerated` | longer-laces.js:20-54 | the search lists exactly the cable-free in-range patterns, each once, in ascending lexicographic depth-first order |
| `LongerLaces.PatternShape` | longer-laces.js:23-47 | every pattern keeps its targets on needles 0..n-1 and its offsets within the limit, and has no cable |
| `LongerLaces.StacksAtMostThree` | longer-laces.js:37-42 | away from the left edge, three stitches sharing a target are never followed by a fourth on the same needle |
| `LongerLaces.AllowedAt` | longer-laces.js:43-45 | each offset of a pattern is allowed after the offsets before it |
| `LongerLaces.NoDropAfterThree` | longer-laces.js:42 | after three equal targets that do not reach back to stitch 0, the next offset does not drop |
| `LongerLaces.EdgeStackOfFour` | longer-laces.js:39 | the count never looks at stitch 0, so [3, 2, 1, 0] with all four stitches on needle 3 is a pattern |
| `LongerLaces.RunEndFrom` | longer-laces.js:66 | the run end lies at or after the start of the scan |
| `LongerLaces.RunEndMaximal` | longer-laces.js:66 | the run scan ends at the last stitch sharing the run's target, before a stitch with another target |
| `LongerLaces.FindRunEnd` | longer-laces.js:64-66 | the run scan finds the end of the maximal run of equal targets starting at stitch a |
| `LongerLaces.Marks` | longer-laces.js:67-75 | a block of flags with only the one at the given index set |
| `LongerLaces.CountMarked` | longer-laces.js:71-76 | a run with exactly one flag set counts one set flag |
| `LongerLaces.CountOne` | longer-laces.js:71-76 | a run counting one set flag has exactly one flag set |
| `LongerLaces.CountNone` | longer-laces.js:77-79 | a run counting no set flag has none |
| `LongerLaces.FillsSound` | longer-laces.js:62-87 | every flag array fill writes extends the flags so far and marks one stitch of every run of two or more equal targets and none of a run of one |
| `LongerLaces.MarkedUpToSound` | longer-laces.js:71-76 | every flag array the marking loop writes sets exactly one flag of the current run |
| `LongerLaces.FillsComplete` | longer-laces.js:62-87 | every flag array that marks one stitch of each multi-stitch run and nothing else is written |
| `LongerLaces.MarkedUpToComplete` | longer-laces.js:71-76 | every such array whose mark in the current run comes before i is written by the loop up to i |
| `LongerLaces.FillsDistinct` | longer-laces.js:62-87 | fill writes no flag array twice |
| `LongerLaces.MarkedUpToDistinct` | longer-laces.js:71-76 | the marking loop writes no flag array twice |
| `LongerLaces.FillsEnumerated` | longer-laces.js:58-89 | the firsts search lists exactly the flag arrays marking one stitch of every stack and nothing else, each once |
| `LongerLaces.Zeros` | longer-laces.js:10 | the orders field is n zeros |
| `LongerLaces.RecordsFromAppend` | longer-laces.js:85 | records of two batches of flag arrays are the first batch's, then the second's numbered on from there |
| `LongerLaces.AllRecordsSound` | longer-laces.js:12-17 | every record holds a listed pattern, one of its flag arrays, zero orders and transferMax equal to the limit |
| `LongerLaces.AllRecordsComplete` | longer-laces.js:58-89 | every pairing of a listed pattern with one of its flag arrays is written |
| `LongerLaces.EmittedPrefix` | longer-laces.js:85 | a record once written stays written as more follow |
| `LongerLaces.EmittedBlock` | longer-laces.js:85 | every flag array of a batch is written with the batch's pattern |
| `LongerLaces.AllRecordsKeysAscend` | longer-laces.js:15 | the (pattern index, firsts index) pairs naming the files strictly ascend, so no two records share a file name |
| `LongerLaces.CorpusSound` | longer-laces.js:9-90 | every record of the corpus pairs a pattern with flags marking one stitch of each stack, with zero orders and the limit |
| `LongerLaces.CorpusComplete` | longer-laces.js:9-90 | every pattern with every fitting flag array is in the corpus |
| `LongerLaces.LaceEnumerator.constructor` | longer-laces.js:20-26 | the enumerator starts with an empty prefix, no patterns, no flags and nothing written |
| `LongerLaces.LaceEnumerator.Rec` | longer-laces.js:27-53 | rec appends exactly the patterns that extend the current prefix and restores the prefix |
| `LongerLaces.LaceEnumerator.Fill` | longer-laces.js:62-87 | fill writes exactly the records for the flag arrays that extend the current flags, numbering them on, and restores the flags |
| `LongerLaces.LaceEnumerator.MarkEach` | longer-laces.js:71-76 | the marking loop writes the records for each flag of the run in turn |
| `LongerLaces.LaceEnumerator.PushFalses` | longer-laces.js:67-69 | the first loop of fill pushes unset flags |
| `LongerLaces.LaceEnumerator.PopAll` | longer-laces.js:80-82 | the last loop of fill pops the flags it pushed |
| `LongerLaces.LaceEnumerator.EnumerateLaces` | longer-laces.js:9-90 | enumerate_laces lists exactly the patterns and writes exactly the corpus of records for them |
| `EnumerateLaces.Digits` | enumerate-laces.js:12-15 | the digit loop yields n digits, each below the base |
| `EnumerateLaces.ValueOfDigits` | enumerate-laces.js:9-15 | for i below b^n the n digits read back as i, so no index is lost |
| `EnumerateLaces.DigitsOfValue` | enumerate-laces.js:9-15 | every digit sequence is the digits of exactly one index below b^n |
| `EnumerateLaces.Table` | enumerate-laces.js:13 | each digit picks its entry of the base table |
| `EnumerateLaces.AllOf` | enumerate-laces.js:9-17 | the listing has base^n entries |
| `EnumerateLaces.Decode` | enumerate-laces.js:10-15 | the loop taking `j % len` and dividing j by len decodes index i |
| `EnumerateLaces.ListAll` | enumerate-laces.js:9-17 | the outer loop lists the arrays of every index below len^n, in order |
| `EnumerateLaces.AllOfEnumerated` | enumerate-laces.js:9-17 | the listing holds every array of n table entries, each exactly once: all 3^n offset arrays and all 2^n flag arrays |
| `EnumerateLaces.ComputeTargets` | enumerate-laces.js:21-24 | the target loop computes i + offset[i] for every stitch |
| `EnumerateLaces.NeighboursRising` | enumerate-laces.js:26-27 | checking each target against the one before it is the same as checking every pair, both upward and downward |
| `EnumerateLaces.FilterOutCables` | enumerate-laces.js:20-30 | filter_out_cables keeps an array iff its targets are monotone nondecreasing or monotone nonincreasing, so every cable-free array is kept |
| `EnumerateLaces.KeptMembers` | enumerate-laces.js:31 | the filter keeps exactly the listed arrays without cables |
| `EnumerateLaces.KeptDistinct` | enumerate-laces.js:31 | filtering a list with no duplicates leaves none |
| `EnumerateLaces.FilterCables` | enumerate-laces.js:31 | the filter loop keeps the uncabled arrays, in order |
| `EnumerateLaces.StitchCheck` | enumerate-laces.js:51-62 | the two scans for a marked stitch refuse iff a scanned marked stitch shares its target or no scanned stitch does |
| `EnumerateLaces.CheckAll` | enumerate-laces.js:46-65 | the loop over marked stitches accepts iff every marked stitch passes its two scans |
| `EnumerateLaces.AsWrittenFirstIsValid` | enumerate-laces.js:46-65 | first_is_valid as written, with the left scan stopping before stitch i-1, accepts iff every marked stitch passes those shortened scans |
| `EnumerateLaces.FirstIsValid` | enumerate-laces.js:46-65 | first_is_valid with the left scan reaching stitch i-1 accepts iff every marked stitch shares its target with another stitch and no two marked stitches share a target |
| `EnumerateLaces.CorrectedScanMeaning` | enumerate-laces.js:51-62 | scans that look at every other stitch accept exactly the intended rule |
| `EnumerateLaces.AsWrittenStricter` | enumerate-laces.js:54 | the check as written accepts nothing the intended rule refuses |
| `EnumerateLaces.AsWrittenRefusesLeftPartner` | enumerate-laces.js:54 | for offsets [0, -1] and firsts [false, true] the intended rule accepts but the check as written refuses |
| `EnumerateLaces.AcceptedMembers` | enumerate-laces.js:72-83 | the flag arrays kept for an offset array are exactly the listed ones the rule accepts |
| `EnumerateLaces.PairsFor` | enumerate-laces.js:70-83 | the inner loop writes the accepted flag arrays of one offset array, numbering them from 0 |
| `EnumerateLaces.PairsStep` | enumerate-laces.js:73-82 | one flag array of the inner loop is written with the next file index iff it is accepted |
| `EnumerateLaces.EnumerateLaces` | enumerate-laces.js:2-87 | the enumerator writes exactly the corpus: every kept offset array with each accepted flag array |
| `EnumerateLaces.PairsSound` | enumerate-laces.js:69-84 | every written record holds a kept offset array, an accepted flag array, zero orders and transferMax 8 |
| `EnumerateLaces.PairsComplete` | enumerate-laces.js:69-84 | every kept array is written with every flag array accepted for it |
| `EnumerateLaces.PairsKeysAscend` | enumerate-laces.js:78 | records come out in ascending (offset index, file index) order |
| `EnumerateLaces.CorpusSound` | enumerate-laces.js:2-87 | every record of the corpus is a cable-free array over {-1, 0, 1} with an accepted flag array, zero orders and limit 8 |
| `EnumerateLaces.CorpusComplete` | enumerate-laces.js:2-87 | every cable-free array over {-1, 0, 1} is written with every flag array the rule accepts |
| `EnumerateLaces.CorpusKeysAscend` | enumerate-laces.js:78 | the file names o_fileIndex ascend, so no two records share a file |
| `CseTransfers.Parent` | cse-transfers.js:40 | the root has no parent and every other slot's parent lies before it |
| `CseTransfers.Left` | cse-transfers.js:41 | left(i) = 2i+1 lies after i and has i as its parent |
| `CseTransfers.Right` | cse-transfers.js:42 | right(i) = 2i+2 sits next to left(i) and has i as its parent |
| `CseTransfers.ChildOfParent` | cse-transfers.js:40-42 | every slot but the root is the left or the right child of its parent |
| `CseTransfers.TopIsGreatest` | cse-transfers.js:56-58 | in a heap no element is comparator-greater than the top |
| `CseTransfers.Swap` | cse-transfers.js:85-87 | swapping two slots exchanges them, leaves the rest and keeps the multiset |
| `CseTransfers.PriorityQueue.constructor` | cse-transfers.js:46-49 | a new queue is empty and keeps the comparator |
| `CseTransfers.PriorityQueue.Size` | cse-transfers.js:50-52 | size is the number of queued elements |
| `CseTransfers.PriorityQueue.IsEmpty` | cse-transfers.js:53-55 | isEmpty holds iff nothing is queued |
| `CseTransfers.PriorityQueue.Peek` | cse-transfers.js:56-58 | peek returns the top, which no queued element is greater than, and nothing on an empty queue |
| `CseTransfers.PriorityQueue.Push` | cse-transfers.js:59-65 | pushing one value adds it to the queued multiset, keeps the heap invariant and returns the old size plus one |
| `CseTransfers.PriorityQueue.PushAll` | cse-transfers.js:59-65 | push(...values) adds every value, keeps the heap invariant and returns the new size |
| `CseTransfers.PriorityQueue.Pop` | cse-transfers.js:66-75 | pop returns the previous top, which no element was greater than, removes exactly it, shrinks the queue by one and keeps the heap invariant; on an empty queue it returns nothing |
| `CseTransfers.PriorityQueue.Replace` | cse-transfers.js:76-81 | replace returns the old top, puts the value in its place, keeps the size and the heap invariant |
| `CseTransfers.PriorityQueue.SiftUp` | cse-transfers.js:88-94 | sifting up restores the heap invariant without changing the multiset |
| `CseTransfers.PriorityQueue.SiftDown` | cse-transfers.js:95-105 | sifting down restores the heap invariant without changing the multiset |
| `CseTransfers.DropTopKeeps` | cse-transfers.js:66-73 | moving the last element to the top and dropping the old top removes exactly the top and leaves only the top to sift down |
| `CseTransfers.SwapUpKeeps` | cse-transfers.js:90-93 | one swap with a smaller parent keeps the sift-up invariant one slot higher |
| `CseTransfers.SwapDownKeeps` | cse-transfers.js:97-104 | one swap with the greater child keeps the sift-down invariant one slot lower |
| `CseTransfers.SwapDownEdges` | cse-transfers.js:101-102 | after swapping with the greater child every parent edge holds except those into that child |
| `CseTransfers.BetterIsStrictOrder` | cse-transfers.js:445 | the search's comparator (lower penalty, then shorter path, then wider block) is asymmetric with a transitive negation, so the heap lemmas apply to it |
| `CseTransfers.BlockBeds` | cse-transfers.js:175-189 | stitches l..r are on the back bed and every other stitch on the front |
| `CseTransfers.RespectsSlack` | cse-transfers.js:171-211 | state_respects_slack holds iff every same-bed pair is within its slack and every cross-bed pair has abs(back + rack - front) within it |
| `CseTransfers.OkayToMove` | cse-transfers.js:338-434 | okay_to_move_index_by_offset accepts iff the stretch at racking ofs to each back-bed neighbour is within the slack of the original offsets, and no front stitch left of l or right of r sits on the landing needle with a different remaining offset or lies beyond it |
| `CseTransfers.MoveKeepsCrossSlack` | cse-transfers.js:362-377 | an accepted move leaves the yarn from the moved stitch to each neighbour still on the back bed within the shared slack rule |
| `SearchRules.Places` | test-driver.js:171-182 | the location list puts every stitch i on its own bed and needle |
| `SearchRules.SlackIsDriverWindow` | test-driver.js:184-198 | on the two main beds, respecting the slack at a racking is the same as the test driver's racking window admitting it plus same-bed neighbours within their slack |
| `SearchRules.Penalty` | cse-transfers.js:241-245 | penalty is the sum of abs(offset) over the remaining offsets (strict order being off) |
| `ExhaustiveSearch.NeedsRack` | exhaustive-search.cpp:165-176 | a transfer between the two main beds needs the racking front - back of that transfer |
| `ExhaustiveSearch.Opposite` | exhaustive-search.cpp:178-183 | a stitch on a main bed goes to the other main bed |
| `ExhaustiveSearch.PassesCoverRackings` | exhaustive-search.cpp:251-297 | every distinct racking a transfer list needs costs at least one pass of its own |
| `ExhaustiveSearch.Passes` | exhaustive-search.cpp:251-297 | Passes is an error exactly when some transfer stays on one bed; otherwise 0 for no transfers and one more than the number of racking or source-bed changes |
| `ExhaustiveSearch.RespectsSlack` | exhaustive-search.cpp:383-399 | state_respects_slack holds iff every same-bed neighbour pair is within its slack and every cross-bed pair has abs(back + rack - front) within it |
| `ExhaustiveSearch.Flip` | exhaustive-search.cpp:413-427 | crossing stitch idx at racking ofs keeps its target needle (current + offset), sets the racking and changes no other stitch |
| `ExhaustiveSearch.PrevSame` | exhaustive-search.cpp:436-439 | the backward scan stops at the nearest stitch on the bed of idx, or at -1 when there is none |
| `ExhaustiveSearch.NextSame` | exhaustive-search.cpp:440-443 | the forward scan stops at the nearest stitch on the bed of idx, or at the end when there is none |
| `ExhaustiveSearch.OkayToMove` | exhaustive-search.cpp:400-467 | okay_to_move_index_by_offset accepts iff the state can be racked to ofs, the crossed-over state still respects the slack, idx does not tangle with its nearest same-bed neighbours and every stitch on its landing needle has its offset |
| `ExhaustiveSearch.BedNeighbours` | exhaustive-search.cpp:434-443 | the two scans find the nearest same-bed stitches left and right of idx |
| `ExhaustiveSearch.StackCheck` | exhaustive-search.cpp:456-463 | the stacking scan accepts iff every stitch on the needle of idx has the offset of idx |
| `ExhaustiveSearch.Applied` | exhaustive-search.cpp:654-692 | applying a move keeps the state's vectors the same length |
| `ExhaustiveSearch.FollowStep` | exhaustive-search.cpp:675-687 | each loop of the source stack that follows idx takes idx's bed, needle and offset |
| `ExhaustiveSearch.ApplyMove` | exhaustive-search.cpp:654-692 | the move-application block computes the state Applied describes: the source stack lands reversed on the destination, every loop of it takes the new bed, needle and offset, the source is cleared and the transfer logged |
| `ExhaustiveSearch.Targets` | exhaustive-search.cpp:44-47 | targets[i] is i + offsets[i] |
| `ExhaustiveSearch.Start` | exhaustive-search.cpp:550-560 | the first state has every stitch on the front bed with its whole offset to go |
| `ExhaustiveSearch.StartCoherent` | exhaustive-search.cpp:550-560 | the first state agrees with its machine: each stitch alone on its own front needle, bound for its target |
| `ExhaustiveSearch.InStackIffAt` | exhaustive-search.cpp:674-683 | in a coherent state a stitch is in a needle's stack exactly when its bed and current name that needle |
| `ExhaustiveSearch.AppliedCoherent` | exhaustive-search.cpp:652-692 | an allowed move keeps the state coherent with its machine: every stitch still on the needle the state names, still bound for its target |
| `ExhaustiveSearch.AppliedOffsetsAgree` | exhaustive-search.cpp:680-686 | after a move, stitches that share a needle still share an offset |
| `ExhaustiveSearch.Reached` | exhaustive-search.cpp:519-542 | Reached holds iff nothing is left to travel, every stitch is on the front bed and every first stitch is at the bottom of its needle |
| `ExhaustiveSearch.ArrivedDelivers` | exhaustive-search.cpp:519-542 | a coherent state that has arrived holds every stitch on its target front needle with first stitches at the bottom |
| `ExhaustiveSearch.LowerBoundZero` | exhaustive-search.cpp:214-249 | the estimate is zero exactly when no offset is left and every stitch is on the front bed |
| `ExhaustiveSearch.LowerBoundFromHere` | exhaustive-search.cpp:214-249 | the estimate counts the pending (bed, offset) groups plus one when a travelling first stitch is bound for a needle held by a settled front stitch |
| `ExhaustiveSearch.MonotoneSnoc` | exhaustive-search.cpp:98-108 | one more target keeps a run monotone exactly when it continues its direction |
| `ExhaustiveSearch.CablesAbsent` | exhaustive-search.cpp:92-116 | the cable check passes iff the targets are nondecreasing or nonincreasing, and always passes for cable-free offsets |
| `ExhaustiveSearch.MonotoneScan` | exhaustive-search.cpp:94-111 | up_okay and dn_okay are exactly "nondecreasing" and "nonincreasing" |
| `FlatTransfers.CorrectedShiftMakesRoom` | flat-transfers.js:120-124 | with the corrected shift a blocked stitch moves less far than its offset and lands just right of prevNeedle, which is what the two assertions after the shift demand |
| `FlatTransfers.AsWrittenShiftFailsAssertion` | flat-transfers.js:122-123 | the shift as written breaks the first of those assertions for a stitch at needle 3 with offset -1 when needle 3 is in use |
| `FlatTransfers.Block` | flat-transfers.js:100-247 | the block at stitch i covers three stitches for a 3-1 decrease, two for a 2-1 decrease and one otherwise |
| `FlatTransfers.PlanFrom` | flat-transfers.js:99-248 | a successful planning loop assigns exactly one pass to every stitch from i on |
| `FlatTransfers.ShiftedSound` | flat-transfers.js:120-130 | a shifted block, when it is planned, files every stitch into an existing pass |
| `FlatTransfers.TripleSound` | flat-transfers.js:100-180 | every assignment of a planned 3-1 decrease names an existing pass, and its slider stitches return exactly the rest of their offsets, by 1 or 2 |
| `FlatTransfers.PairSound` | flat-transfers.js:182-228 | the same for a planned 2-1 decrease |
| `FlatTransfers.SingleSound` | flat-transfers.js:230-247 | the same for a stitch that is no decrease |
| `FlatTransfers.BlockSound` | flat-transfers.js:100-247 | every planned block is sound |
| `FlatTransfers.PlanSound` | flat-transfers.js:99-248 | every assignment of a successful plan is sound |
| `FlatTransfers.PlanStepSound` | flat-transfers.js:99-248 | a sound plan after the block at i makes the plan from i sound |
| `FlatTransfers.SoundPrepend` | flat-transfers.js:99-248 | a sound block in front of a sound rest of the plan is sound |
| `FlatTransfers.BlockKeepsSliderLeft` | flat-transfers.js:143-176 | with the corrected shift every block keeps the rightmost slider in use strictly left of the rightmost destination needle |
| `FlatTransfers.Members` | flat-transfers.js:79-92 | a bucket only lists stitches of the plan |
| `FlatTransfers.MembersIncreasing` | flat-transfers.js:99-248 | every bucket lists its stitches strictly left to right, each once, as the loop pushes them |
| `FlatTransfers.MembersSnoc` | flat-transfers.js:99-248 | filing one more assignment appends its stitch to exactly the bucket it picks |
| `FlatTransfers.MembersIn` | flat-transfers.js:79-92 | a stitch is in a bucket exactly when its assignment picks that bucket |
| `FlatTransfers.Pass` | flat-transfers.js:256-258 | a pass has one transfer per listed stitch |
| `FlatTransfers.PickedPassMembers` | flat-transfers.js:250-301 | a pass over a bucket is the pass over the stitches whose assignments pick it |
| `FlatTransfers.PickedPassAllowed` | flat-transfers.js:250-301 | a pass between beds a transfer may join consists of allowed transfers only |
| `FlatTransfers.Dropped` | flat-transfers.js:265-283 | the drops move every stitch once |
| `FlatTransfers.NextAt` | flat-transfers.js:266-301 | the next round's needles are one per stitch |
| `FlatTransfers.NextOffsets` | flat-transfers.js:266-301 | the next round's offsets are one per stitch |
| `FlatTransfers.RoundKeepsTargets` | flat-transfers.js:266-301 | a round moves each stitch towards its target without changing the target |
| `FlatTransfers.SlidersFinish` | flat-transfers.js:294-300 | a stitch parked on a slider is on its final stack once returned, as the source asserts |
| `FlatTransfers.BlockSliders` | flat-transfers.js:143-176 | in every block the sliders are free (right of prevSlider), lie left to right, and the new prevSlider covers them |
| `FlatTransfers.RegularsOk` | flat-transfers.js:138-142 | a block of regular assignments only leaves the sliders alone |
| `FlatTransfers.ShiftedSliders` | flat-transfers.js:120-130 | a shifted block uses no slider |
| `FlatTransfers.SingleSliders` | flat-transfers.js:230-247 | a stitch that is no decrease uses no slider |
| `FlatTransfers.TripleSliders` | flat-transfers.js:143-176 | a 3-1 decrease parks its sliders to the right of prevSlider, left to right |
| `FlatTransfers.TripleSliderParks` | flat-transfers.js:143-176 | the two slider layouts of a 3-1 decrease (centre first, right first) are free and ordered |
| `FlatTransfers.PairSliders` | flat-transfers.js:215-224 | a 2-1 decrease parks its slider to the right of prevSlider |
| `FlatTransfers.SlidersConcat` | flat-transfers.js:99-248 | free sliders of a block followed by free sliders of the rest are free together |
| `FlatTransfers.PlanSliders` | flat-transfers.js:99-248 | no two stitches of a successful plan share a slider and every slider lies right of the previous one |
| `FlatTransfers.MinOf` | flat-transfers.js:72-77 | the minimum offset is one of the offsets and no larger than any |
| `FlatTransfers.MaxOf` | flat-transfers.js:72-77 | the maximum offset is one of the offsets and no smaller than any |
| `FlatTransfers.Targets` | flat-transfers.js:100 | the targets at[i] + offsets[i] are one per stitch |
| `FlatTransfers.RoundStep` | flat-transfers.js:66-301 | a round keeps every target and emits only allowed transfers |
| `FlatTransfers.RoundFacts` | flat-transfers.js:250-301 | a round keeps every target and emits only allowed transfers |
| `FlatTransfers.SlideryMinus` | flat-transfers.js:66-304 | the '-' schoolbus, when it finishes, leaves every stitch on its target and emits only allowed transfers |
| `FlatTransfers.MinusRound` | flat-transfers.js:66-304 | one round plus the recursion leaves every stitch on its target and emits only allowed transfers |
| `FlatTransfers.Mirror` | flat-transfers.js:47-57 | mirroring keeps the length |
| `FlatTransfers.MirrorOps` | flat-transfers.js:58-60 | mirroring the transfers keeps their number |
| `FlatTransfers.MirrorTargets` | flat-transfers.js:47-57 | mirroring the needles and the offsets mirrors the targets |
| `FlatTransfers.MirrorAllowed` | flat-transfers.js:58-60 | negated needles keep a transfer allowed |
| `FlatTransfers.Slidery` | flat-transfers.js:45-304 | sliderySchoolbus in either direction, when it finishes, leaves every stitch on its target and emits only allowed transfers |
| `FlatTransfers.Identity` | flat-transfers.js:307-310 | the starting needles are 0..n-1 |
| `FlatTransfers.MirrorTwice` | flat-transfers.js:47-57 | mirroring twice is the identity |
| `FlatTransfers.MirrorOpsTwice` | flat-transfers.js:58-60 | mirroring the transfers twice is the identity |
| `FlatTransfers.MinusIsMirroredPlus` | flat-transfers.js:46-63 | the '-' direction succeeds exactly when the '+' direction does on the mirrored bed, with mirrored transfers and needles and the same error |
| `FlatTransfers.PlusOfMirrored` | flat-transfers.js:46-63 | the '+' direction is the '-' direction on the mirrored bed, mirrored back |
| `FlatTransfers.PassesMirror` | flat-transfers.js:328-334 | mirroring does not change the pass count |
| `FlatTransfers.PassesBounds` | flat-transfers.js:328-334 | countPasses counts at most one pass per transfer and none only for no transfers |
| `FlatTransfers.PassesSamePair` | flat-transfers.js:328-334 | transfers all between the same pair of beds make one pass |
| `FlatTransfers.LiftsAllowed` | flat-transfers.js:250-263 | the lifts to the back bed are allowed transfers |
| `FlatTransfers.DropsAllowed` | flat-transfers.js:265-283 | the drops to sliders and needles are allowed transfers |
| `FlatTransfers.RoundAllowed` | flat-transfers.js:250-301 | all transfers of a round are allowed |
| `FlatTransfers.FlatLands` | flat-transfers.js:17-351 | a successful flat_transfers has equal-length inputs, emits only allowed transfers, and is the output of a direction of sliderySchoolbus whose needle array reaches the targets |
| `FlatTransfers.FlatChoice` | flat-transfers.js:319-349 | offsets with minimum 0 take '+', with maximum 0 take '-', and mixed signs succeed iff both directions do, taking the one with fewer passes and '+' on ties |
| `FlatTransfers.NothingToMove` | flat-transfers.js:66-67 | all-zero offsets need no transfers |
| `FlatTransfers.SliderScenario` | flat-transfers.js:143-153 | offsets [0,-1] with the right stitch first park stitch 0 on a slider and stack it on top of stitch 1 |
| `FlatTransfers.SliderScenarioRound` | flat-transfers.js:250-301 | the one round of that scenario emits the six transfers and leaves both stitches at needle 0 with nothing left |
| `FlatTransfers.SliderScenarioPasses` | flat-transfers.js:250-301 | the passes of that round, in order |
| `FlatTransfers.SliderScenarioDropped` | flat-transfers.js:265-283 | the drops leave stitch 0 on slider -1 and stitch 1 on needle 0 |
| `FlatTransfers.SliderScenarioLifts` | flat-transfers.js:250-263 | the lifts of that scenario |
| `FlatTransfers.SliderScenarioDrops` | flat-transfers.js:265-283 | the drops of that scenario |
| `FlatTransfers.SliderScenarioReturns` | flat-transfers.js:285-301 | the slider returns of that scenario |
| `FlatTransfers.SliderScenarioBuckets` | flat-transfers.js:215-224 | the buckets of that scenario |
| `FlatTransfers.AsWrittenShiftNoSuchPass` | flat-transfers.js:236-240 | with the shift as written, offsets [-1,-2,-2,-3,-4,-4] with firsts at 1 and 4 push into a pass that does not exist |
| `FlatTransfers.CorrectedShiftPlans` | flat-transfers.js:236-240 | with the corrected shift the same input plans a full round |
| `FlatTransfers.ShiftExample` | flat-transfers.js:230-247 | on that input both rules agree up to the last stitch, where only the shift differs |
| `FlatTransfers.Extremes` | flat-transfers.js:72-77 | the min/max scan gives the least and the greatest offset, and nothing for no offsets |
| `FlatTransfers.Finished` | flat-transfers.js:66-67 | done holds iff every offset is zero |
| `FlatTransfers.CountPasses` | flat-transfers.js:326-335 | the counting callback counts the passes of the transfers it sees |
| `FlatTransfers.EmptyFiled` | flat-transfers.js:79-92 | the fresh buckets file an empty plan |
| `FlatTransfers.File` | flat-transfers.js:107-245 | one push files one assignment into its bucket |
| `FlatTransfers.FileBlock` | flat-transfers.js:107-245 | the pushes of one block file all its assignments |
| `FlatTransfers.PlanStep` | flat-transfers.js:100-247 | one pass of the planning loop body advances past the block and keeps the buckets filed for the plan so far |
| `FlatTransfers.PlanFromBlock` | flat-transfers.js:99-248 | the plan from i is the block at i followed by the plan after it |
| `FlatTransfers.PlanRound` | flat-transfers.js:79-248 | the planning loop succeeds iff the plan does, with its error, and its buckets file the plan |
| `FlatTransfers.Bumped` | flat-transfers.js:265-283 | bumping listed stitches keeps the length |
| `FlatTransfers.EmitPass` | flat-transfers.js:256-262 | a lift loop emits the pass over its bucket |
| `FlatTransfers.MovePass` | flat-transfers.js:268-283 | a drop loop emits the pass over its bucket and moves each listed stitch ofs needles, taking ofs off its offset |
| `FlatTransfers.LiftPhase` | flat-transfers.js:250-263 | the lift loop emits the lifts from the largest offset down |
| `FlatTransfers.LiftPass` | flat-transfers.js:250-263 | one iteration of the lift loop emits the lifts at one offset |
| `FlatTransfers.DroppedAbove` | flat-transfers.js:265-283 | the needles after the drops above an offset, one per stitch |
| `FlatTransfers.LeftAbove` | flat-transfers.js:265-283 | the offsets left after the drops above an offset, one per stitch |
| `FlatTransfers.DropsSplit` | flat-transfers.js:265-283 | the drops above an offset followed by those from it down are all the drops |
| `FlatTransfers.DropStep` | flat-transfers.js:265-283 | one iteration of the drop loop emits the drops at one offset and moves those stitches |
| `FlatTransfers.DropLands` | flat-transfers.js:265-283 | the drops at one offset move exactly the stitches assigned there |
| `FlatTransfers.DropPhase` | flat-transfers.js:265-283 | the drop loop emits all drops and leaves the stitches where Dropped says, with the offsets still to go |
| `FlatTransfers.DropLoop` | flat-transfers.js:265-283 | the drop loop runs every offset from the largest to the smallest |
| `FlatTransfers.DropEnds` | flat-transfers.js:265-283 | before the drops nothing has moved, after them every stitch is where Dropped says |
| `FlatTransfers.ReturnPhase` | flat-transfers.js:285-301 | the return loops emit the slider returns and leave the needles and offsets of the next round |
| `FlatTransfers.ReturnLands` | flat-transfers.js:294-300 | returning by 1 and by 2 leaves every stitch on its next-round needle with its next-round offset |
| `FlatTransfers.EmitRound` | flat-transfers.js:66-301 | one round of the imperative schoolbus computes RoundStep |
| `FlatTransfers.SchoolbusMinus` | flat-transfers.js:66-304 | the '-' recursion computes SlideryMinus |
| `FlatTransfers.MirrorBed` | flat-transfers.js:51-56 | the negation loop mirrors the needles |
| `FlatTransfers.ReverseCopy` | flat-transfers.js:47-53 | slice and reverse give the reversed copy |
| `FlatTransfers.FlipAll` | flat-transfers.js:58-60 | flipXfer negates both needles of every transfer |
| `FlatTransfers.Schoolbus` | flat-transfers.js:45-304 | sliderySchoolbus computes Slidery in both directions |
| `FlatTransfers.Flat` | flat-transfers.js:17-351 | flat_transfers computes FlatResult: the input errors, the direction choice and the chosen schoolbus |
| `CableTransfers.FirstR` | cable-transfers.js:44-53 | the r loop's cable, if any, has the given l0, l and m, at least r right stitches, and fits in the offsets |
| `CableTransfers.FirstM` | cable-transfers.js:41-53 | the m loop's cable has the given l0 and l, at least m middle stitches and a right group |
| `CableTransfers.FirstL` | cable-transfers.js:37-53 | the l loop's cable has the given l0, at least l left stitches and a right group |
| `CableTransfers.FirstMatch` | cable-transfers.js:34-111 | the cable found at l0 starts at l0 with non-empty left and right groups and fits in the offsets |
| `CableTransfers.FirstRFound` | cable-transfers.js:44-53 | what the r loop finds has a right group that is a run and whose shifts fit |
| `CableTransfers.FirstRLeast` | cable-transfers.js:44-53 | the r loop finds a right group no longer than any fitting one at or after r |
| `CableTransfers.FirstMFound` | cable-transfers.js:41-53 | what the m loop finds has a middle run and a fitting right group |
| `CableTransfers.FirstMLeast` | cable-transfers.js:41-53 | the m loop finds a cable no later in the search order than any cable with at least m middle stitches |
| `CableTransfers.FirstLFound` | cable-transfers.js:37-53 | what the l loop finds is a cable: three runs with L = m+r, M = r-l (when m > 0) and R = -(l+m) |
| `CableTransfers.FirstLLeast` | cable-transfers.js:37-53 | the l loop finds a cable no later in the search order than any cable with at least l left stitches |
| `CableTransfers.FirstMatchLeast` | cable-transfers.js:32-53 | the cable found at l0 is a cable and none at l0 comes earlier in the (l, m, r) search order; when none is found there is no cable at l0 |
| `CableTransfers.Scan` | cable-transfers.js:32-113 | every cable the scan finds fits in the offsets |
| `CableTransfers.ScanShape` | cable-transfers.js:32-113 | the scan's cables are each what the search finds at its start, come left to right without overlapping, and no stitch outside them starts a cable |
| `CableTransfers.ScanStarts` | cable-transfers.js:105-107 | after a cable the scan resumes just past it, so the cables are found in order and disjoint |
| `CableTransfers.CoveredCons` | cable-transfers.js:62-76 | a stitch is covered by c and the rest exactly when c covers it or the rest does |
| `CableTransfers.GapsCons` | cable-transfers.js:32-113 | a cable found at l0 followed by a gap-free rest leaves no gap from l0 |
| `CableTransfers.ScanGaps` | cable-transfers.js:32-113 | no stitch outside the scan's cables starts a cable |
| `CableTransfers.Lifts` | cable-transfers.js:62-76 | a lifting loop emits one transfer per stitch |
| `CableTransfers.Drops` | cable-transfers.js:78-80 | a dropping loop emits one transfer per stitch |
| `CableTransfers.DropOrderSorted` | cable-transfers.js:82-103 | the if/else chain drops the three groups in descending crossing order, an empty middle group counting as minus infinity, ties going left, then right, then middle |
| `CableTransfers.DropOrderPermutes` | cable-transfers.js:82-103 | every group is dropped exactly once |
| `CableTransfers.GroupsPermute` | cable-transfers.js:82-103 | each of the six orders of the chain holds each group once |
| `CableTransfers.CableLands` | cable-transfers.js:26-30 | a cable's stitches land on its own needles, no two on one |
| `CableTransfers.LiftsCount` | cable-transfers.js:62-76 | a lifting loop sends each of its stitches to the back once and nothing to the front |
| `CableTransfers.DropsCount` | cable-transfers.js:78-80 | a dropping loop returns each of its stitches once, shifted by its offset, and lifts nothing |
| `CableTransfers.GroupShift` | cable-transfers.js:47-53 | in a cable a stitch's offset is its group's shift |
| `CableTransfers.DropOrderDistinct` | cable-transfers.js:82-103 | the drop order names three different groups |
| `CableTransfers.CableOrderDistinct` | cable-transfers.js:57-103 | the order chosen from a cable's crossing orders names three different groups |
| `CableTransfers.DropOrderCases` | cable-transfers.js:82-103 | the chain yields one of the six orders of the groups |
| `CableTransfers.GroupDropsCount` | cable-transfers.js:78-80 | a group's drops return exactly its own stitches, each to its target |
| `CableTransfers.OrderedGroupsCount` | cable-transfers.js:82-103 | counting over the groups in drop order counts over each group once |
| `CableTransfers.CableOpsSplit` | cable-transfers.js:62-103 | a cable's transfers are its lifts and the drops of its three groups |
| `CableTransfers.LiftsNoFront` | cable-transfers.js:62-76 | lifts send nothing to the front |
| `CableTransfers.GroupsCount` | cable-transfers.js:78-103 | the three groups together drop each of the cable's stitches once and lift none |
| `CableTransfers.CableBackCount` | cable-transfers.js:62-76 | a cable sends each of its stitches to the back once and nothing else |
| `CableTransfers.CableFrontCount` | cable-transfers.js:78-103 | a cable returns each of its stitches to its target once and nothing else |
| `CableTransfers.CableOpsCount` | cable-transfers.js:62-103 | a cable sends each of its stitches to the back once and returns it to its target once |
| `CableTransfers.CablesPrefix` | cable-transfers.js:32-113 | dropping the last cable keeps the rest cables and disjoint, the last past the others |
| `CableTransfers.PlanCountStep` | cable-transfers.js:32-113 | one more cable adds its counts to the plan's |
| `CableTransfers.CoveredBefore` | cable-transfers.js:105-107 | a stitch inside an earlier cable is not inside a later one |
| `CableTransfers.CountsJoin` | cable-transfers.js:32-113 | the per-stitch counts over a plan with one more cable |
| `CableTransfers.PlanCount` | cable-transfers.js:32-113 | over found cables each stitch goes to the back once and to its target once exactly when a cable covers it |
| `CableTransfers.CableMoves` | cable-transfers.js:15-121 | a successful cable_transfers sends every cable stitch to the back once and returns it to its target once; every other stitch gets no transfer and has offset zero |
| `CableTransfers.ScanNothing` | cable-transfers.js:32-113 | offsets that are all zero hold no cable |
| `CableTransfers.NothingToMove` | cable-transfers.js:15-121 | all-zero offsets give an empty plan |
| `CableTransfers.SearchR` | cable-transfers.js:44-53 | the r loop computes FirstR: a shift that does not fit moves on, a broken run ends the loop |
| `CableTransfers.SearchM` | cable-transfers.js:41-53 | the m loop computes FirstM |
| `CableTransfers.MatchAt` | cable-transfers.js:34-53 | the search at l0 computes FirstMatch |
| `CableTransfers.LiftGroup` | cable-transfers.js:62-66 | one lifting loop emits the group's lifts and marks exactly its stitches done |
| `CableTransfers.DropGroup` | cable-transfers.js:78-80 | do_l, do_m and do_r emit their group's drops |
| `CableTransfers.LiftCable` | cable-transfers.js:62-76 | the three lifting loops lift the whole cable and mark exactly its stitches done, none of which was done before |
| `CableTransfers.DoCable` | cable-transfers.js:57-103 | the transfers of a found cable are CableOps, and exactly its stitches become done |
| `CableTransfers.LiftsSplit` | cable-transfers.js:62-76 | lifting a + b stitches is lifting a, then b |
| `CableTransfers.CoveredSnoc` | cable-transfers.js:62-76 | one more cable covers its own stitches besides the others' |
| `CableTransfers.PlanSnoc` | cable-transfers.js:32-113 | one more cable appends its transfers to the plan |
| `CableTransfers.NotDoneFrom` | cable-transfers.js:63-73 | no stitch at or after the scan position is done yet, so the "never do a cable twice" assertions hold |
| `CableTransfers.ScanFound` | cable-transfers.js:105-107 | after a found cable the scan moves past it with the cable's transfers appended |
| `CableTransfers.ScanSkip` | cable-transfers.js:32 | nothing found at l0 moves the scan on by one |
| `CableTransfers.ScanStep` | cable-transfers.js:32-113 | one pass of the l0 loop keeps the scan state and advances |
| `CableTransfers.TransferCables` | cable-transfers.js:21-113 | the l0 loop emits the transfers of every cable Scan finds and marks exactly their stitches done |
| `CableTransfers.CheckCovered` | cable-transfers.js:115-119 | the closing check passes iff every stitch with a non-zero offset lies in a cable |
| `CableTransfers.Cables` | cable-transfers.js:15-121 | cable_transfers computes CableResult: the length error, the cables' transfers, and the coverage error |
| `GeneralTransfers.Shadow` | general-transfers.js:42-56 | the checking xfer succeeds iff the source needle is known and differs from the destination; a missing source is the "must be xferring from something" error |
| `GeneralTransfers.ShadowMoves` | general-transfers.js:44-53 | a checking xfer forgets the source needle, puts its stack reversed on top of the destination's, and changes no other needle |
| `GeneralTransfers.ShadowRunSnoc` | general-transfers.js:42-56 | the checking xfers of a plan with one more transfer are those of the plan followed by that transfer |
| `GeneralTransfers.DropEmptyWellFormed` | general-transfers.js:53 | forgetting an empty needle keeps every stitch where it was |
| `GeneralTransfers.ShadowWellFormed` | general-transfers.js:44-53 | a checking xfer neither loses nor duplicates a stitch |
| `GeneralTransfers.ShadowRunWellFormed` | general-transfers.js:38-56 | any plan the checking map accepts from the start keeps stitches 0..n-1 each on exactly one needle |
| `GeneralTransfers.FlatScenarioDelivers` | flat-transfers.js:9-11 | for offsets [0, -1] with stitch 1 first, the plan flat_transfers emits, replayed from the start, leaves both stitches on front needle 0 with stitch 1 at the bottom |
| `GeneralTransfers.DeliversExactly` | general-transfers.js:223-231 | a plan that passes the final check puts each stitch on its target front needle and nowhere else |
| `GeneralTransfers.Homes` | general-transfers.js:111-114 | the needle of stitch i is i + atOffsets[i] |
| `GeneralTransfers.HomeSpan` | general-transfers.js:69-96 | every stitch's needle lies in [minNeedle, maxNeedle] and both ends are some stitch's needle |
| `GeneralTransfers.PlaceCell` | general-transfers.js:98-107 | an empty cell takes the stitch's offset, mark and order; an occupied one accepts it only with the same offset, which must be 0, and then keeps the first mark of either |
| `GeneralTransfers.Placed` | general-transfers.js:75-114 | the placed cells span minNeedle..maxNeedle |
| `GeneralTransfers.OccupiedStep` | general-transfers.js:98-101 | placing stitch j occupies exactly its own needle in addition |
| `GeneralTransfers.CarryStep` | general-transfers.js:98-107 | the new cell carries stitch j's offset and mark and keeps those of stitches already there |
| `GeneralTransfers.FromStep` | general-transfers.js:98-107 | a cell's order and mark come from one of its stitches |
| `GeneralTransfers.FreshStackable` | general-transfers.js:98-101 | a stitch on an empty needle keeps the stacks valid |
| `GeneralTransfers.OntoStackable` | general-transfers.js:102-107 | a zero-offset stitch onto a zero-offset stack keeps the stacks valid |
| `GeneralTransfers.PlaceClash` | general-transfers.js:103-104 | a stitch landing on an occupied needle with a different or non-zero offset violates the stacking rule |
| `GeneralTransfers.PlacedUnfold` | general-transfers.js:111-114 | one more placement step is PlaceCell on that stitch's needle |
| `GeneralTransfers.PlaceStep` | general-transfers.js:111-114 | one placement step keeps the meaning of the cells and fails exactly on a stacking clash |
| `GeneralTransfers.PlacedMeaning` | general-transfers.js:75-114 | placement succeeds exactly when stitches that share a needle all have offset 0; then each needle holds its stitches' offset, is marked first iff one of them is, and is empty iff no stitch is on it |
| `GeneralTransfers.PlacedMeans` | general-transfers.js:75-114 | the same facts, packaged for the induction |
| `GeneralTransfers.PlacedInduct` | general-transfers.js:111-114 | the induction step of those facts |
| `GeneralTransfers.GapValue` | general-transfers.js:120-126 | an empty needle gets 0 or one of its neighbours' offsets |
| `GeneralTransfers.GapBetween` | general-transfers.js:120-126 | between a left-mover and a right-mover a gap stays at 0, otherwise it follows the neighbour of smaller magnitude, the right one on a tie |
| `GeneralTransfers.Filled` | general-transfers.js:117-131 | filling the first k needles leaves the rest as they were |
| `GeneralTransfers.FilledMeaning` | general-transfers.js:117-131 | filling keeps occupied needles' offsets and gives each empty needle, never an end one, GapValue of its filled left and unfilled right neighbour |
| `GeneralTransfers.IsolatedGapsFill` | general-transfers.js:117-131 | with no two empty needles side by side every needle gets an offset |
| `GeneralTransfers.DoubleGapStaysOpen` | general-transfers.js:120-126 | two empty needles side by side can stay without an offset, because the right neighbour read is still null |
| `GeneralTransfers.OffsetsOf` | general-transfers.js:71 | mappedOffsets, null for empty needles |
| `GeneralTransfers.FirstsOf` | general-transfers.js:72 | mappedFirsts, false for empty needles |
| `GeneralTransfers.OrdersOf` | general-transfers.js:73 | mappedOrders, 0 for empty needles |
| `GeneralTransfers.IgnoreOf` | general-transfers.js:116-131 | ignoreNeedles has exactly the front needles of the span, each marked iff no stitch started there |
| `GeneralTransfers.MappedEnds` | general-transfers.js:119 | both end needles of the span are occupied, so filling never reads outside it |
| `GeneralTransfers.EndsOccupied` | general-transfers.js:69-96 | when every stitch's needle holds a cell so do the span's end needles |
| `GeneralTransfers.OccupiedAt` | general-transfers.js:111-114 | once every stitch is placed its needle holds a cell |
| `GeneralTransfers.AssembleCarries` | general-transfers.js:110-131 | the mapping starts at minNeedle, and each stitch's needle carries its offset and first mark and is not ignored |
| `GeneralTransfers.AssembleIgnores` | general-transfers.js:116-131 | exactly the needles of the span that no stitch occupies are ignored |
| `GeneralTransfers.MappedMeaning` | general-transfers.js:68-157 | setMapped fails when stacked stitches do not all stay put; on success the mapping spans minNeedle..maxNeedle, each stitch's needle carries its offset and mark and is not ignored, and exactly the empty needles of the span are ignored |
| `GeneralTransfers.MappedStep` | general-transfers.js:138-155 | mappedXfer from a needle not in ignoreNeedles is the "should only xfer from a known needle" error |
| `GeneralTransfers.MappedStepEmits` | general-transfers.js:138-155 | mappedXfer passes a transfer from a kept needle on, un-mapped by minNeedle, drops one from an ignored needle, and forgets the source |
| `GeneralTransfers.MappedRunReplays` | general-transfers.js:138-155 | replaying a plan through mappedXfer keeps the checking map well formed |
| `GeneralTransfers.EndsAreSpan` | general-transfers.js:76-96 | the window's ends after i stitches are the least and the greatest needle among them |
| `GeneralTransfers.GrowLeft` | general-transfers.js:85-90 | the unshift loop extends the window left to the needle |
| `GeneralTransfers.GrowRight` | general-transfers.js:91-96 | the push loop extends the window right to the needle |
| `GeneralTransfers.WindowPlaced` | general-transfers.js:97-107 | placing a stitch into the window covering its needle leaves the window of i+1 stitches |
| `GeneralTransfers.EndsStep` | general-transfers.js:76-96 | the window's ends after one more stitch are min and max with its needle |
| `GeneralTransfers.SetOffset` | general-transfers.js:75-108 | setOffset extends the window to the needle and places the stitch; it fails exactly when placement does, with its error |
| `GeneralTransfers.PlaceInWindow` | general-transfers.js:97-107 | the write into the window fails exactly when placement does and otherwise leaves the window of i+1 stitches |
| `GeneralTransfers.Cover` | general-transfers.js:76-96 | the first-needle case and the two grow loops make the window cover the needle |
| `GeneralTransfers.PlaceAll` | general-transfers.js:111-114 | the placement loop fails exactly when Placed does, and otherwise yields minNeedle and the placed cells |
| `GeneralTransfers.WindowWhole` | general-transfers.js:111-114 | the window after every stitch is the whole placed span |
| `GeneralTransfers.PlacedStopsAt` | general-transfers.js:103-104 | a failing placement stays failed with the same error |
| `GeneralTransfers.FillGaps` | general-transfers.js:116-131 | the gap loop computes the filled offsets and the ignore map |
| `GeneralTransfers.SmallOffsets` | general-transfers.js:189 | useLace holds iff every mapped offset has magnitude at most 1 |
| `GeneralTransfers.IndexOf` | general-transfers.js:227-229 | indexOf gives -1 iff the stitch is absent, else its first position |
| `GeneralTransfers.CheckArrival` | general-transfers.js:223-231 | the final check passes iff every stitch is on front needle i + offsets[i], at the bottom when marked first |
| `GeneralTransfers.Transfers.constructor` | general-transfers.js:38-41 | the checking map starts with stitch i alone on front needle i and nothing passed on |
| `GeneralTransfers.Transfers.Xfer` | general-transfers.js:42-56 | xfer applies the checking step to the map and passes the transfer on; on error nothing changes |
| `GeneralTransfers.Transfers.MappedXfer` | general-transfers.js:138-155 | mappedXfer moves the shared state exactly as MappedStep says |
| `GeneralTransfers.Transfers.Replay` | general-transfers.js:192-198 | a planner's transfers replayed one by one through mappedXfer move the shared state as MappedRun says |
| `GeneralTransfers.Transfers.SetMapped` | general-transfers.js:68-157 | setMapped computes MappedResult and installs its minNeedle and ignore map without touching the checking map |
| `GeneralTransfers.MapLayer` | general-transfers.js:68-131 | the placement, filling and ignore loops compute MappedResult |
| `GeneralTransfers.MappedRunStops` | general-transfers.js:138-155 | a failing replay stays failed with the same error |
| `GeneralTransfers.ClampValid` | general-transfers.js:178 | offsets clamped to [-1, 1] are a valid short step for limit_offsets for any limit of at least 1 |
| `GeneralTransfers.SumAbsShrinks` | general-transfers.js:166-203 | elementwise smaller magnitudes give a smaller total distance, strictly when one is strictly smaller |
| `GeneralTransfers.Progress` | general-transfers.js:166-203 | with a limit of at least 1 limit_offsets' optimal long part is strictly closer to done than the remaining offsets, so the flat loop terminates |
| `GeneralTransfers.AtOffsets` | general-transfers.js:180-183 | atOffsets[i] is flatOffsets[i] - remaining[i] |
| `GeneralTransfers.GeneralTransfers` | general-transfers.js:30-235 | the length error comes first; a returned plan passes the final check (every stitch on its target, first-marked stitches at the bottom); a non-negative limit never fails in limit_offsets and a limit of at least 1 always makes progress |
| `GeneralTransfers.AsWrittenLaceKey` | general-transfers.js:192-195 | with the callbacks as written the key looked up for a lace transfer is 'f' followed by a bed name, not a needle number |
| `GeneralTransfers.AsWrittenLaceKeyUnknown` | general-transfers.js:192-195 | that key never names a needle |
| `GeneralTransfers.AsWrittenLaceDrops` | general-transfers.js:192-195 | with the callbacks as written every lace transfer is dropped and the state does not change |
| `GeneralTransfers.AsWrittenLaceStalls` | general-transfers.js:192-195 | so for offsets [0,-1] the lace round moves nothing and the stitches never arrive |
| `GenerateStats.ParseBed` | generate-stats.js:3-6 | a parsed bed prefix is exactly the name of that bed |
| `GenerateStats.DigitsRoundTrip` | generate-stats.js:8 | parseInt of the decimal digits of n gives n |
| `GenerateStats.BedRoundTrip` | generate-stats.js:3-6 | parsing a bed's name gives that bed |
| `GenerateStats.NumberRoundTrip` | generate-stats.js:8 | parsing the text of any integer gives it back |
| `GenerateStats.NaturalRoundTrip` | generate-stats.js:8 | parsing the digits of a natural number gives it back |
| `GenerateStats.NegativeRoundTrip` | generate-stats.js:8 | parsing a minus sign and digits gives the negative number |
| `GenerateStats.KeyRoundTrip` | generate-stats.js:3-8 | parsing the key the planners write for a needle gives that needle back |
| `GenerateStats.KeysDistinct` | generate-stats.js:3-8 | different needles have different keys |
| `GenerateStats.GetOffset` | generate-stats.js:2-11 | getOffset succeeds iff both keys parse |
| `GenerateStats.OffsetOfKeys` | generate-stats.js:2-11 | between the keys of a transfer's needles getOffset is the racking the transfer needs: from - to leaving a front bed, to - from otherwise |
| `GenerateStats.RunErrPersists` | generate-stats.js:167-191 | once the replay fails it stays failed |
| `GenerateStats.ReplayOne` | generate-stats.js:168-190 | one pass of the simulation loop moves the stack, counts a stacked transfer for a stack of more than one, and counts a pass when the racking or the source bed changes |
| `GenerateStats.RunSnoc` | generate-stats.js:167-191 | replaying one more transfer is one more simulation step |
| `GenerateStats.PlaceStitches` | generate-stats.js:157-160 | the simulation starts with stitch i alone on front needle i |
| `GenerateStats.Simulate` | generate-stats.js:150-192 | the simulation loop computes the replay: passes starting at 1, the stacked-transfer count and the final needles |
| `GenerateStats.KeysOf` | generate-stats.js:137-141 | one key pair per transfer |
| `GenerateStats.KeyOfTransfer` | generate-stats.js:183-185 | the statistics pass key of a main-bed transfer is its racking and source bed |
| `GenerateStats.KeysChangeTogether` | generate-stats.js:185 | the search's pass key changes exactly when the statistics key does |
| `GenerateStats.KeysOfPrefix` | generate-stats.js:137-141 | the keys of a prefix are the prefix of the keys |
| `GenerateStats.MainBedsPrefix` | generate-stats.js:167-191 | a prefix of a main-bed plan is a main-bed plan |
| `GenerateStats.RunLast` | generate-stats.js:167-191 | a successful replay is the replay of all but the last transfer followed by its step |
| `GenerateStats.EmptySelfTransfer` | generate-stats.js:167-190 | a transfer from an empty needle onto itself leaves the stacks and the stacked count alone, sets racking 0 on that bed as the current key and counts a pass when the key changes |
| `GenerateStats.SimStepPasses` | generate-stats.js:183-190 | one replayed main-bed transfer sets the last key and counts a pass when the key changes |
| `GenerateStats.PassCountSnoc` | exhaustive-search.cpp:251-297 | the search's pass count grows by one exactly when the pass key changes |
| `GenerateStats.PassesAgree` | generate-stats.js:153-191 | on a main-bed plan the statistics pass counts the same passes as the exhaustive search's Passes, except that an empty plan counts as one pass here |
| `GenerateStats.StackCounts` | generate-stats.js:206-216 | of the first i front needles, correct stacks are at most total stacks, which are at most i |
| `GenerateStats.StackStats` | generate-stats.js:206-216 | the stack loop counts the front needles holding more than one stitch, and those whose bottom stitch is marked first |
| `GenerateStats.RunKeepsFrontKeys` | generate-stats.js:167-191 | every front needle the replay started with still has an entry afterwards, so the stack loop can read it |
| `GenerateStats.InitialKeys` | generate-stats.js:157-160 | every starting front needle has an entry |
| `GenerateStats.ComputeLowerBound` | generate-stats.js:18-53 | computeLowerBound computes LowerBound: the distinct nonzero offsets plus one for the trip to the back bed, or 0 |
| `GenerateStats.LowerBoundZero` | generate-stats.js:52 | the bound is zero exactly when no stitch moves |
| `GenerateStats.FrontTaggedSize` | exhaustive-search.cpp:214-249 | tagging offsets with the front bed keeps their number |
| `GenerateStats.LowerBoundMatchesSearch` | generate-stats.js:18-53 | whenever some stitch moves the statistics bound is one more than the exhaustive search's estimate at its first state |
| `GenerateStats.Stitch.constructor` | generate-stats.js:77-80 | a new stitch has its id and no transfers |
| `GenerateStats.Stitch.Transfer` | generate-stats.js:82-84 | transfer counts one more transfer |

## Left out

Failing `console.assert`s that the model makes fatal (Node only logs them and carries on):

- `FlatTransfers.Block`: the 3-1 decrease assertions at flat-transfers.js:102-116 each stop the plan with an `Err`. They check for no 4-1 decrease (`Unsupported41`, line 102), fully stacked (`NotStacked`, line 105), stacked at zero, placed after the previous needle, and neighbours. Node would log the message and keep planning with the inconsistent block.
- `FlatTransfers.Block`: the 2-1 decrease assertions at flat-transfers.js:186-194 (stacked at zero, ordering, neighbours) also return an `Err`.
- `FlatTransfers.Block`: for a single stitch, the assertion at flat-transfers.js:234 (`ShovesDone`) returns an `Err`.
- `FlatTransfers.Block` does not check the other assertions of sliderySchoolbus. These are the offset steps at flat-transfers.js:117-118 and 195, the shift checks `ofs > offsets[i]`, the slider ordering at flat-transfers.js:145, 166 and 218, the first markers at 155 and 216, and the slider return at 299. The model carries on as Node does.
- `GeneralTransfers.PlaceCell`: two stitches on one needle with different offsets (`DifferentDestination`, general-transfers.js:103), or with a nonzero offset (`StackedMoved`, general-transfers.js:104), stop the mapping with an `Err`. The source logs these and keeps the offset of the stitch placed first.
- `GeneralTransfers.MappedStep`: a transfer from a needle missing from the ignore map returns `Err(UnknownNeedle)`. general-transfers.js:142-153 logs that case, drops the transfer and marks the destination ignored. `GeneralTransfers.Transfers.MappedXfer` does the same.
- `GeneralTransfers.CheckArrival`: the final check at general-transfers.js:223-231 returns `Err(CheckFailed)` where the source logs a stitch that missed its target or its first place.
- `TestDriver.Test`: the argument checks at test-driver.js:73-77 (a positive integer limit) are console.asserts. The model returns `Err(BadLimit)`, as the file header promises. The length checks at test-driver.js:82-83 (`offsets` against `firsts` and against `orders`) are console.asserts too, which Node only logs before carrying on. The model returns `Err(FirstsLengthMismatch)` and `Err(OrdersLengthMismatch)` for them. The other arguments are typed, so the function, array and object checks at test-driver.js:73-76 and 80 have no counterpart.
- `TestDriver.Step`: the per-transfer console.asserts return an `Err`. These are the bed pair at test-driver.js:166-168 (`BadBedPair`), the racking window at 196 and 198 (`NoValidRacking`, `RackingOutOfRange`), and the empty and stacked sources at 209 and 215 unless their option is set (`EmptySource`, `StackedSource`). Node logs each of them and performs the transfer anyway. `TestDriver.Simulator.Xfer` does the same as `Step`.

Non-termination that the model turns into an error:

- `FlatTransfers.SlideryMinus`: the recursion of sliderySchoolbus has no bound in the source. The model takes a `fuel` parameter and returns `Err(OutOfRounds)` when it runs out. A plan needing more rounds than the fuel is not modelled.
- `GeneralTransfers.Shadow`: a transfer onto its own needle returns `Err(SelfTransfer)`. The pop/push loop at general-transfers.js:50-52 never ends when the stack is not empty. From an empty needle the source instead deletes that needle's entry at line 53 and carries on, and the model returns the same `Err` there too.
- `GeneralTransfers.GeneralTransfers`: a round in which `limit_offsets` leaves every offset long returns `Err(NoProgress)`. This can only happen with a limit below 1, where the `while (true)` loop at general-transfers.js:165-203 never ends. The contract proves that `NoProgress` cannot happen for limit ≥ 1.

Other departures:

- `GeneralTransfers.MappedMeaning`: a gap needle left without an offset makes setMapped return `Err(OpenGap)`. The gap filling at general-transfers.js:116-131 copies a neighbour, and that neighbour can itself be an empty needle further right. The source then leaves `null` in `mappedOffsets` and hands it to the planner; it only logs, at line 119, for the left end.
- `GeneralTransfers.GeneralTransfers`: `requires |orders| == |offsets|`. The source checks only offsets against firsts (general-transfers.js:32-34), and a shorter orders array gives undefined orders, which the model has no value for.
- `GeneralTransfers.GeneralTransfers`: `r.Ok? ==> Delivers(...)` rests on the closing `CheckArrival`, the model of the final check at general-transfers.js:223-231. No lemma shows that valid flat input within the limit yields `Ok`, that is, that the planners never make `PlannerFailed`, `TransferFailed` or `CheckFailed` happen. The contract says what a successful run delivers, not when the run succeeds.
- `LaceTransfers.Lace`: the contract says which transfers the plan holds and in what order (`LaceMoves`, `LaceShape`, `LaceOrder`). No lemma replays the plan from the start and shows that each stitch i reaches front needle i + offsets[i], with the stitch marked in `firsts` at the bottom of its stack. That is the promise of lace-transfers.js:9-11, and it is not proved here.
- `LaceTransfers.Lace`: the check that `xfer` is a function (lace-transfers.js:40-42) has no counterpart. The planner returns its transfers instead of calling a callback.
- `SplitCables.SplitCables` and `LimitOffsets.Limit` (through `LayeredDp`): costs and back links live in `Uint32Array`/`Int8Array` tables. The model uses unbounded integers and `Option` for the `0xffffffff`/`127` invalid markers, so it does not model saturation or overflow of those widths. A negative limit, where `new Uint32Array` would throw a RangeError, gives an empty range and then `Err`.
- `GenerateStats.SimStep`: a transfer of a non-empty stack onto its own needle returns an `Err`. In the source the pop-and-push loop at generate-stats.js:175-180 then pops and pushes the same stitch forever, so the source never finishes.
- `GenerateStats.Simulate`: inherits that `Err` from `SimStep`, where the source does not terminate. A self-transfer from an empty needle is modelled as the source runs it.
- `FlatTransfers.FlatLands`: the needle array the passes maintain reaches the targets, but no general lemma shows that replaying the emitted transfers stitch by stitch delivers every stitch, with the stitches marked first at the bottom of their stacks (flat-transfers.js:9-11, 788-794). `GeneralTransfers.FlatScenarioDelivers` proves this for one input only.
- `FlatTransfers.Flat`: as for `FlatTransfers.FlatLands`, its result is tied to the schoolbus passes and not to a stitch-by-stitch replay of the emitted transfers.
- `GenerateStats.GetOffset`: a key that does not parse returns an `Err`. The source logs the failed match and then throws a TypeError on the null match.
- `Infinity` in the racking window of test-driver.js is modelled as an absent bound (`Option`).
- The best-first search loops are left out because they are heuristic, unbounded and keyed on `JSON.stringify`/`std::map` signatures. These are `cse_transfers`' main loop (cse-transfers.js:455-677) and the `exhaustive` priority-queue loop (exhaustive-search.cpp:579-713). Their building blocks are modelled: the heap, the slack, penalty and move rules, applying a move, `Reached` and the lower bound. The dead `strict_order` and `if (0)` branches of cse-transfers.js are not modelled.
- The first part of `exhaustive` (exhaustive-search.cpp:29-87) is not modelled. That part computes `lower_bound_passes` for logging, runs the two-firsts sanity assert and clears firsts that stack on nothing. Neither is the all-zero early return (exhaustive-search.cpp:118-129), which writes an empty file. The cable sanity check (exhaustive-search.cpp:92-116) is modelled.
- The unused `schoolbus` lambda (exhaustive-search.cpp:299-349) and `computeDecreaseDistrib` (generate-stats.js:55-74) are not modelled. The latter computes a value it never returns.
- Floating-point statistics are not modelled: the average transfers per needle (test-driver.js:269), and `xfer_per_needle` and `stack_fraction` (generate-stats.js:204, 220).
- I/O is not modelled. This covers `runTests` directory walking and result files, the `dumpNeedles` needle dumps (test-driver.js:109, flat-transfers.js:654, cable-transfers.js:136), `print_chain` and `print_state` in cse-transfers.js, the log-only `offsetToString` of the split-cables.js and limit-offsets.js demo blocks, the duplicate debug `offsetsToString` at general-transfers.js:242, the statistics file reading and CSV writing, and the enumerators' `writeFileSync`, whose records become returned sequences. It also covers `main`'s argv and `ofstream` output in exhaustive-search.cpp and `process.stdout.write` in cse-transfers.js.
- `flat_transfers_old` (flat-transfers.js:353-639) is a superseded revision and is not modelled.
- school-bus-bridge.js is not part of this model. It is an unfinished prototype: it references undefined names and contains a loop that does not advance.
- exhaustive-wrapper.js (spawning a process) and the Python plotting scripts are not part of this model.
- The `require.main === module` demo blocks are not modelled.

## Findings

| source | as written | input that shows it | evidently intended | confidence | as-written member | corrected member |
|---|---|---|---|---|---|---|
| flat-transfers.js:236 | when a stitch cannot reach its target because `prevNeedle` is in the way, the shift is `ofs = at[i] - (prevNeedle+1)` (also at lines 122 and 199); the assertions right after it demand `ofs > offsets[i]` and `at[i]+ofs > prevNeedle` | offsets [-1,-2,-2,-3,-4,-4] with stitches 1 and 4 first: stitch 5 must be shifted, the shift as written is +2, and `regularPasses[ofs-minOffset]` does not exist among passes -4..-1, so the push throws a TypeError | `ofs = prevNeedle + 1 - at[i]`: shift just far enough to land right of `prevNeedle` | not executed | `FlatTransfers.AsWrittenShiftNoSuchPass`, `FlatTransfers.AsWrittenShiftFailsAssertion` | `FlatTransfers.CorrectedShiftPlans`, `FlatTransfers.CorrectedShiftMakesRoom` |
| general-transfers.js:192-195 | lace_transfers is handed two callbacks `(i)` and `(i, ofs)`, but lace-transfers.js:44-50 calls one four-argument `xfer(fromBed, i, toBed, i+ofs)`; the first callback receives the bed name as its needle index, so every lookup misses, and the transfer is logged and dropped | offsets [0,-1], firsts [false,false]: the lace round moves nothing, stitch 1 never reaches needle 0, and the final check reports it | pass `mappedXfer` itself, as the flat branch does (general-transfers.js:197) | not executed | `GeneralTransfers.AsWrittenLaceStalls` | `GeneralTransfers.GeneralTransfers` |
| enumerate-laces.js:54 | the backward scan of `first_is_valid` runs `j < i-1`, so stitch i-1 is never examined from stitch i | offsets [0,-1], firsts [false,true]: stitch 1 stacks with stitch 0 on needle 0 and is the only first, but the check refuses it because it finds no partner | scan `j < i`, so every other stitch is examined | not executed | `EnumerateLaces.AsWrittenFirstIsValid`, `EnumerateLaces.AsWrittenRefusesLeftPartner` | `EnumerateLaces.FirstIsValid`, `EnumerateLaces.CorrectedScanMeaning` |
