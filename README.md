# Advent of Code 2024 solvers, modelled in Dafny

This project models the puzzle solvers of an Advent of Code 2024 repository
written in Rust, one Dafny module per day, and proves properties of them.
Each solver reads its puzzle text, parses it into the day's entities and
computes the one or two answers its `main` prints. Where the Rust code changes state step by step
(a queue, a cache, a `HashMap` it fills, a loop over variables) the model
is an imperative `method` or a `class`, proved against a specification
function. Where the Rust code only computes a value, the model is a
function with lemmas about it.

The centrepiece is day 16, the reindeer maze. `ReindeerMaze` models the map,
the directions, the corridor walk between forks and the deduplicated fork
list. `ReindeerRoutes` models the weighted search over (point, facing)
states with its tie-aware predecessor sets: tying weights are recorded and
not re-expanded. It also models the backtrack that collects every tile on
some cheapest route. `CheapestPath` is proved to report no route exactly
when no chain of corridors reaches the end, and otherwise the least chain
cost to the end cell. Its tiles hold every cell of the cheapest chains to
the chosen end state, and only those when the start is the closed `S` tile.

| day | module | day | module |
|---|---|---|---|
| 1 | `HistorianLists` | 14 | `TeleportingRobots` |
| 2 | `RedNosedReports` | 15 | `WarehouseBoxes` |
| 4 | `CeresSearch` | 16 | `ReindeerMaze`, `ReindeerRoutes` |
| 5 | `SafetyManual` | 17 | `ThreeBitComputer` |
| 6 | `GuardPatrol` | 18 | `Falling` |
| 7 | `BridgeCalibration` | 19 | `LinenLayout` |
| 8 | `Antennas` | 20 | `RaceCondition` |
| 9 | `DiskFragmenter` | 21 | `Keypads` |
| 10 | `HoofIt`, `HoofItExample` | 22 | `MonkeyMarket` |
| 11 | `Pebbles` | 23 | `LanParty` |
| 12 | `Gardens` | 24 | `Wires` |

The shared modules are:

- `Text`: splitting, lines, trimming, words and number parsing.
- `Grid`: the bounds-checked character map of the repository's shared
  `aoc::Map`, and its neighbour enumerations.
- `Names`: sorting of computer and wire names.
- `Seqs`: the keys of a map, in order.
- `Arith`: powers of two.
- `Wrappers`: `Option`.

Input reading (the puzzle file) and printing are modelled as parameters and
results. Most days have entry points (`Part1`, `Part2`, `Step1`, `Part`,
`Total`, `Solve` or `Run`) that take the puzzle text and return what `main`
prints, with None where the source panics. Days 15, 16 and 17 model the
parse and the solving steps as separate members instead.

## Model

| member | source | states |
|---|---|---|
| HistorianLists.ParseLine | day01-lists/src/main.rs:10-14 | a line parses only if it contains the three-space separator; None where an `unwrap` panics |
| HistorianLists.Unzip | day01-lists/src/main.rs:15 | both columns have one entry per pair, and pair i is (list1[i], list2[i]) |
| HistorianLists.ParseLists | day01-lists/src/main.rs:6-19 | parsing succeeds exactly when every line parses, and then column i of line k is entry k of column i |
| HistorianLists.Sort | day01-lists/src/main.rs:25-26 | the array comes out sorted ascending and is a permutation of its old contents |
| HistorianLists.Insert | day01-lists/src/main.rs:25-26 | one insertion step: the prefix up to i is sorted afterwards and the array is a permutation of before |
| HistorianLists.SortedOfKeeps | day01-lists/src/main.rs:25-26 | the reference sort is sorted and a permutation of its input |
| HistorianLists.SortedLeast | day01-lists/src/main.rs:25-26 | the first element of a sorted list is its least element |
| HistorianLists.SortedUnique | day01-lists/src/main.rs:25-26 | two sorted permutations of one list are equal, so the sorted order is unique |
| HistorianLists.SortedOfRearranged | day01-lists/src/main.rs:25-26 | sorting depends only on the multiset of the list |
| HistorianLists.SortedLists | day01-lists/src/main.rs:22-29 | `sorted` returns the reference sort of each list |
| HistorianLists.SortedCopy | day01-lists/src/main.rs:23-26 | sorting a clone in place gives the reference sort of the input |
| HistorianLists.GapsSymmetric | day01-lists/src/main.rs:34-36 | the sum of absolute gaps is the same with the two lists swapped |
| HistorianLists.GapsPrefix | day01-lists/src/main.rs:34-36 | the fold reads the second list only at the indices of the first |
| HistorianLists.ComputeDistance | day01-lists/src/main.rs:31-37 | the loop computes the distance: the sum of the gaps of the two sorted lists |
| HistorianLists.DistanceInvariant | day01-lists/src/main.rs:31-37 | the distance is unchanged when either list is reordered and when the two lists are swapped |
| HistorianLists.CountIsMultiplicity | day01-lists/src/main.rs:41 | the filter-count of x equals the multiplicity of x in the list |
| HistorianLists.SimilarityAppendRight | day01-lists/src/main.rs:39-43 | appending y to the right list adds y times its count in the left list |
| HistorianLists.SimilarityOfNone | day01-lists/src/main.rs:39-43 | against an empty right list the score is 0 |
| HistorianLists.SimilaritySymmetric | day01-lists/src/main.rs:39-43 | the similarity score is the same when the two lists are swapped |
| HistorianLists.SimilarityRearranged | day01-lists/src/main.rs:39-43 | the score depends only on the multiset of the right list |
| HistorianLists.Part1 | day01-lists/src/main.rs:63-65 | None exactly when parsing fails; otherwise the distance of the parsed lists |
| HistorianLists.Part2 | day01-lists/src/main.rs:67-69 | a result exactly when parsing succeeds (its value is the similarity score, whose properties are proved above) |
| HistorianLists.ExampleSortedLeft | day01-lists/src/main.rs:74-79 | the example's left column sorts to 1, 2, 3, 3, 3, 4 |
| HistorianLists.ExampleSortedRight | day01-lists/src/main.rs:74-79 | the example's right column sorts to 3, 3, 3, 4, 5, 9 |
| HistorianLists.ExampleDistance | day01-lists/src/main.rs:81-84 | the example's total distance is 11, as the test expects |
| HistorianLists.ExampleCounts | day01-lists/src/main.rs:74-79 | counts of 1, 2, 3 and 4 in the example's right column are 0, 0, 3 and 1 |
| HistorianLists.ExampleSimilarity | day01-lists/src/main.rs:86-89 | the example's similarity score is 31, as the test expects |
| RedNosedReports.Parsed | day02-reports/src/main.rs:7-10 | `filter_map(parse().ok())` keeps at most one level per word |
| RedNosedReports.ParseExample | day02-reports/src/main.rs:9 | a word that does not parse is skipped and the others keep their order |
| RedNosedReports.Differences | day02-reports/src/main.rs:18-21 | one difference per adjacent pair of levels, entry i being levels[i+1] - levels[i] |
| RedNosedReports.WithinMeans | day02-reports/src/main.rs:18-24 | every difference lies in a range exactly when every step between neighbouring levels does |
| RedNosedReports.IsSafeMeans | day02-reports/src/main.rs:17-25 | a report is safe exactly when every step rises by 1 to 3, or every step falls by 1 to 3 |
| RedNosedReports.ShortIsSafe | day02-reports/src/main.rs:17-25 | a report with fewer than two levels is safe, because both `all`s are vacuous |
| RedNosedReports.Reversed | day02-reports/src/main.rs:17-25 | the reversed report has the same length and entry i is entry len-1-i of the original |
| RedNosedReports.StepsReversed | day02-reports/src/main.rs:17-25 | read backwards, each step changes sign: steps in [lo, hi] become steps in [-hi, -lo] |
| RedNosedReports.ReversedTwice | day02-reports/src/main.rs:17-25 | reversing twice gives the report back |
| RedNosedReports.ReversedSafe | day02-reports/src/main.rs:17-25 | a report is safe exactly when its reverse is |
| RedNosedReports.SafeCount | day02-reports/src/main.rs:35-37 | the number of safe reports is at most the number of reports |
| RedNosedReports.SafeCountAppend | day02-reports/src/main.rs:35-37 | the count over a concatenation is the sum of the counts |
| RedNosedReports.SafeCountAll | day02-reports/src/main.rs:35-37 | the count equals the number of reports exactly when every report is safe |
| RedNosedReports.Reports | day02-reports/src/main.rs:35-36 | one report per line, report k being the levels of line k |
| RedNosedReports.Step1 | day02-reports/src/main.rs:34-39 | the answer is the safe count over the lines, at most the number of lines |
| RedNosedReports.ExampleRising | day02-reports/src/main.rs:61 | `1 2 3 4 5` is safe |
| RedNosedReports.ExampleFalling | day02-reports/src/main.rs:62 | `7 6 4 2 1` is safe |
| RedNosedReports.ExampleJump | day02-reports/src/main.rs:63 | `1 2 7 8 9` is not safe |
| RedNosedReports.ExampleTurn | day02-reports/src/main.rs:64 | `1 3 2 4 5` is not safe |
| RedNosedReports.ExampleDrop | day02-reports/src/main.rs:48 | `9 7 6 2 1` is not safe |
| RedNosedReports.ExampleStill | day02-reports/src/main.rs:50 | `8 6 4 4 1` is not safe |
| RedNosedReports.ExampleClimb | day02-reports/src/main.rs:51 | `1 3 6 7 9` is safe |
| RedNosedReports.ExampleCount | day02-reports/src/main.rs:45-56 | two of the six example reports are safe, as the test expects |
| CeresSearch.CharAt | day04-wordsearch/src/main.rs:61-68 | a letter exactly when both coordinates are within the size, and then it is the grid's letter at that cell |
| CeresSearch.RayShape | day04-wordsearch/src/main.rs:44-58 | a ray has at most `len` letters, letter i is the one i steps away, and it is cut short only where the next step leaves the grid |
| CeresSearch.RayStops | day04-wordsearch/src/main.rs:50-54 | after the `break` at the edge, asking for more letters adds none |
| CeresSearch.RaySpells | day04-wordsearch/src/main.rs:31-32 | a ray equals the word exactly when every letter of the word lies on the grid at its step from the start |
| CeresSearch.RayStart | day04-wordsearch/src/main.rs:30-32 | a ray that spells the word starts on a cell holding its first letter |
| CeresSearch.WordsFrom | day04-wordsearch/src/main.rs:43-59 | one string per direction, in the order of `DIRECTIONS`, each the ray of up to `len` letters |
| CeresSearch.MatchesUpTo | day04-wordsearch/src/main.rs:31-35 | among the first k directions, at most k rays match |
| CeresSearch.NoMatchesElsewhere | day04-wordsearch/src/main.rs:30 | a cell not holding the first letter starts no occurrence, so the `start` filter loses none |
| CeresSearch.CountAt | day04-wordsearch/src/main.rs:30-36 | the inner loop adds the number of directions whose ray spells the word |
| CeresSearch.WordCount | day04-wordsearch/src/main.rs:24-41 | the count equals the number of (cell, direction) pairs whose ray spells the word |
| CeresSearch.ParsePuzzle | day04-wordsearch/src/main.rs:14-21 | a puzzle exactly when there is a line and no line is shorter than the first (otherwise an index panics); its grid is the lines |
| CeresSearch.Step1 | day04-wordsearch/src/main.rs:77-79 | a result exactly when the input parses, and then it is the number of occurrences of `XMAS` |
| CeresSearch.ExampleValid | day04-wordsearch/src/main.rs:83-93 | the test grid is a well-formed 10 by 10 puzzle |
| CeresSearch.ExampleForwards | day04-wordsearch/src/main.rs:84 | the first test line spells `XMAS` forwards from its sixth cell |
| CeresSearch.ExampleBackwards | day04-wordsearch/src/main.rs:8-12 | in direction (0, -1) the line `SAMX` spells `XMAS` from its last cell |
| CeresSearch.ExampleEdge | day04-wordsearch/src/main.rs:50-54 | on the test grid, a ray from the last cell of the first line is cut after one letter |
| SafetyManual.ParseRule | day05-safety-manual/src/main.rs:17-18 | a rule only for a line `l|r` whose two halves both parse as numbers; None otherwise |
| SafetyManual.ParseRules | day05-safety-manual/src/main.rs:14-20 | the `filter_map` keeps every well-formed rule line's rule and nothing that does not come from one |
| SafetyManual.ParseUpdate | day05-safety-manual/src/main.rs:24 | an update has one page per comma-separated piece, page k being the number piece k parses to; None where `unwrap` panics |
| SafetyManual.ParseAll | day05-safety-manual/src/main.rs:24 | every piece parsed in order, or None exactly when some piece does not parse |
| SafetyManual.ParseUpdates | day05-safety-manual/src/main.rs:22-25 | one update per line, update i being line i parsed |
| SafetyManual.ParsePuzzle | day05-safety-manual/src/main.rs:11-29 | every parsed update has at least one page (`split` always yields a piece); None where the source panics |
| SafetyManual.ParseRuleExample | day05-safety-manual/src/main.rs:116 | the test's rule lines `0|1` and `2|3` parse to (0, 1) and (2, 3) |
| SafetyManual.ParseThree | day05-safety-manual/src/main.rs:24 | three pieces that each parse give their three pages |
| SafetyManual.ParseUpdateExample | day05-safety-manual/src/main.rs:117 | the pieces of the test's update lines parse to 1, 2, 3 and 4, 5, 6 |
| SafetyManual.ExampleHalves | day05-safety-manual/src/main.rs:13 | the test input splits at its blank line into the rule half and the update half |
| SafetyManual.ExampleRuleLines | day05-safety-manual/src/main.rs:14-15 | the rule half of the test input has the two lines `0|1` and `2|3` |
| SafetyManual.ExampleUpdateLines | day05-safety-manual/src/main.rs:22-23 | the update half of the test input has the two lines `1,2,3` and `4,5,6` |
| SafetyManual.ExampleUpdateLine | day05-safety-manual/src/main.rs:24 | a line `a,b,c` of three non-comma characters splits into the three one-character pieces |
| SafetyManual.ParseOneRule | day05-safety-manual/src/main.rs:14-20 | a single well-formed rule line gives its rule |
| SafetyManual.ParseTwoRules | day05-safety-manual/src/main.rs:14-20 | two well-formed rule lines give their two rules, in order |
| SafetyManual.ExampleRules | day05-safety-manual/src/main.rs:116 | the test's rules are (0, 1) and (2, 3) |
| SafetyManual.ParseTwoUpdates | day05-safety-manual/src/main.rs:22-25 | two update lines that each parse give their two updates, in order |
| SafetyManual.ExampleUpdates | day05-safety-manual/src/main.rs:117 | the test's updates are [1, 2, 3] and [4, 5, 6] |
| SafetyManual.ExampleParse | day05-safety-manual/src/main.rs:111-118 | the whole parsing test: the input gives exactly the rules (0, 1), (2, 3) and the updates [1, 2, 3], [4, 5, 6] |
| SafetyManual.Relevant | day05-safety-manual/src/main.rs:38-42 | exactly the rules whose two pages both occur in the update, in their original order |
| SafetyManual.AllRespectedMeans | day05-safety-manual/src/main.rs:44-48 | the `all` holds exactly when each relevant rule is respected |
| SafetyManual.IsValidMeans | day05-safety-manual/src/main.rs:32-49 | valid exactly when every rule whose pages the update holds puts the last index of its left page before the last index of its right page (the `collect` into a map keeps the last index of a repeated page) |
| SafetyManual.ValidityExample | day05-safety-manual/src/main.rs:32-49 | 75,47,61,53,29 is valid under 47\|53 and 97\|75; 75,97,47,61,53 is not valid under 97\|75 |
| SafetyManual.VacuouslyValid | day05-safety-manual/src/main.rs:44-48 | the empty update is valid, and so is every update under no rules |
| SafetyManual.Checked | day05-safety-manual/src/main.rs:51-56 | every kept update has the requested validity |
| SafetyManual.CheckedPartition | day05-safety-manual/src/main.rs:51-56 | the valid and the invalid updates together are exactly the updates, as a multiset |
| SafetyManual.PartitionStep | day05-safety-manual/src/main.rs:51-56 | adding an element to either side of a split extends the split |
| SafetyManual.CheckedInOrder | day05-safety-manual/src/main.rs:51-56 | the kept updates are a subsequence of the updates, in the original order |
| SafetyManual.SortBy | day05-safety-manual/src/main.rs:70-77 | the sort rearranges the pages and nothing else (the comparator is not a total order, so no order is promised) |
| SafetyManual.CorrectUpdate | day05-safety-manual/src/main.rs:58-79 | the corrected update is a rearrangement of the update's pages |
| SafetyManual.Middle | day05-safety-manual/src/main.rs:93 | a middle page exactly when the update is nonempty, and it is one of its pages |
| SafetyManual.MiddleSum | day05-safety-manual/src/main.rs:92-94 | a sum exactly when every update is nonempty |
| SafetyManual.MiddleSumAppend | day05-safety-manual/src/main.rs:92-94 | appending an update adds its middle page to the sum |
| SafetyManual.Part1 | day05-safety-manual/src/main.rs:89-95 | a result exactly when the puzzle parses |
| SafetyManual.CheckedNonEmpty | day05-safety-manual/src/main.rs:89-105 | every checked update of a parsed puzzle has a middle page, so neither sum can panic |
| SafetyManual.Part2 | day05-safety-manual/src/main.rs:97-105 | a result exactly when the puzzle parses; then the corrected updates rearrange the invalid updates one for one and the result is their middle-page sum |
| SafetyManual.CorrectedSum | day05-safety-manual/src/main.rs:100-104 | the loop over the invalid updates yields one rearrangement per update and sums their middle pages |
| GuardPatrol.TurnRight | day06-guardsguardsguards/src/main.rs:44-52 | a right turn always changes the direction |
| GuardPatrol.TurnAround | day06-guardsguardsguards/src/main.rs:44-52 | four right turns restore the direction, and two or three do not |
| GuardPatrol.Ahead | day06-guardsguardsguards/src/main.rs:54-60 | the cell ahead is exactly one orthogonal step from the guard (north is the previous row) |
| GuardPatrol.StepCases | day06-guardsguardsguards/src/main.rs:53-73 | off the map the step fails; an obstruction turns the guard right on the spot; an open cell moves it one cell ahead, facing the same way |
| GuardPatrol.StepStaysOpen | day06-guardsguardsguards/src/main.rs:62-69 | a guard on an open cell is on an open cell after every step |
| GuardPatrol.PatrolStaysOpen | day06-guardsguardsguards/src/main.rs:87-93 | the recorded cells start with the guard's cell and are all open cells of the map |
| GuardPatrol.PatrolMoreFuel | day06-guardsguardsguards/src/main.rs:91-93 | once the guard has left the map, more fuel changes nothing |
| GuardPatrol.PatrolStep | day06-guardsguardsguards/src/main.rs:90-93 | the visited set is the start cell plus the cells visited from the next position, and just the start cell when the first step leaves the map |
| GuardPatrol.VisitedBounds | day06-guardsguardsguards/src/main.rs:87-95 | the visited set holds the start and at most as many cells as a rectangular map has |
| GuardPatrol.PatrolMap.constructor | day06-guardsguardsguards/src/main.rs:11-15 | the `Map` object holds the map and the guard's position |
| GuardPatrol.PatrolMap.Step | day06-guardsguardsguards/src/main.rs:53-73 | returns true exactly when the step stays on the map, updates the position to the stepped guard, and never changes the map |
| GuardPatrol.CellFromChar | day06-guardsguardsguards/src/main.rs:26-34 | a cell exactly for `#`, `.` and `^`, and it is an obstruction exactly for `#`; anything else panics |
| GuardPatrol.LastCaret | day06-guardsguardsguards/src/main.rs:19-29 | the `^` last in reading order, which is the one the repeated assignment keeps |
| GuardPatrol.ParseMap | day06-guardsguardsguards/src/main.rs:17-41 | the map has one row per line; the guard faces north on the last `^`, or stands at (0, 0) when there is none |
| GuardPatrol.Part1 | day06-guardsguardsguards/src/main.rs:86-96 | None on a map that does not parse; otherwise the number of distinct cells of the patrol, or None when the guard is still on the map after `fuel` steps |
| GuardPatrol.CountBounds | day06-guardsguardsguards/src/main.rs:86-96 | on a rectangular map with a guard, the answer is at least 1 and at most the number of cells |
| GuardPatrol.CountVisited | day06-guardsguardsguards/src/main.rs:87-95 | the loop stepping the `Map` object computes the size of the visited set of the patrol |
| GuardPatrol.TurnExample | day06-guardsguardsguards/src/main.rs:53-73 | on `.#.` / `...` / `.^.` the guard walks up, turns east under the `#`, steps right and leaves, visiting exactly three cells |
| BridgeCalibration.TryAll | day07-calibration/src/main.rs:23-34 | there are 2^n results for n remaining numbers, one per choice of operators |
| BridgeCalibration.OpsAt | day07-calibration/src/main.rs:28-29 | the operators read off a result's index have one entry per number |
| BridgeCalibration.EvaluateFirst | day07-calibration/src/main.rs:24-29 | evaluation left to right applies the first operator to the running total and then the rest |
| BridgeCalibration.TryAllAt | day07-calibration/src/main.rs:23-34 | result i evaluates the operators spelt by i in binary, `+` before `*` at each level |
| BridgeCalibration.TryAllHas | day07-calibration/src/main.rs:23-34 | every choice of operators is evaluated among the results |
| BridgeCalibration.TryAllMeans | day07-calibration/src/main.rs:23-34 | a value is a result exactly when some choice of operators evaluates to it |
| BridgeCalibration.IsSolvableMeans | day07-calibration/src/main.rs:36-38 | solvable exactly when some operators between the numbers, evaluated left to right, give the test value |
| BridgeCalibration.ParseCalibration | day07-calibration/src/main.rs:6-20 | a calibration only when the line has `: ` and every piece parses, and then it has at least one number |
| BridgeCalibration.SolvableTotalBounds | day07-calibration/src/main.rs:44-49 | the test value of each solvable calibration is included in the total |
| BridgeCalibration.Total | day07-calibration/src/main.rs:44-49 | a total exactly when every line parses (otherwise the source panics) |
| BridgeCalibration.Example190 | day07-calibration/src/main.rs:60 | `190: 10 19` is solvable |
| BridgeCalibration.Example3267 | day07-calibration/src/main.rs:61 | `3267: 81 40 27` is solvable |
| BridgeCalibration.Example161011 | day07-calibration/src/main.rs:62 | `161011: 16 10 13` is not solvable |
| BridgeCalibration.SplitExample | day07-calibration/src/main.rs:8-9 | `190: 10 19` splits at `: ` into `190` and `10 19` |
| BridgeCalibration.SplitNumbersExample | day07-calibration/src/main.rs:13 | `10 19` splits at the space into `10` and `19` |
| BridgeCalibration.ParseNumbersExample | day07-calibration/src/main.rs:12-13 | `190` parses to 190 and the pieces `10`, `19` to 10 and 19 |
| BridgeCalibration.ParseExample | day07-calibration/src/main.rs:60 | the first test line parses to the calibration 190 with numbers 10 and 19 |
| Antennas.CellFromChar | day08-antennas/src/main.rs:28-34 | a cell is empty exactly for `.`; any other character is an antenna of that frequency |
| Antennas.Rows | day08-antennas/src/main.rs:21-38 | one row per line and one cell per character, each decoded |
| Antennas.RowEntries | day08-antennas/src/main.rs:24-27 | the cells of one row with their locations (x, y), left to right |
| Antennas.ReadingOrderMeans | day08-antennas/src/main.rs:21-38 | the enumerated cells are exactly the (location, character) pairs of the input, each location once and on the grid |
| Antennas.IndexDomain | day08-antennas/src/main.rs:31 | a frequency has an entry in `antennas` exactly when some non-`.` cell has it |
| Antennas.IndexContents | day08-antennas/src/main.rs:31 | a frequency's list holds exactly the locations of its antennas |
| Antennas.IndexDistinct | day08-antennas/src/main.rs:31 | every list is nonempty and holds each location once |
| Antennas.ParseMap | day08-antennas/src/main.rs:17-44 | a map exactly when the input has a line (`points[0]` panics otherwise) |
| Antennas.ParseMapAntennas | day08-antennas/src/main.rs:17-44 | the parsed map records every antenna under its frequency and nothing else, each location once |
| Antennas.CollectAntennas | day08-antennas/src/main.rs:19-38 | the loops pushing into the `antennas` map compute the index of the cells in reading order |
| Antennas.FromInput | day08-antennas/src/main.rs:17-44 | `Map::from` with its in-place loop gives the map the functional parse describes |
| Antennas.Partners | day08-antennas/src/main.rs:53-56 | the inner iterator pairs `a` with exactly the other locations |
| Antennas.CombinationsFromMeans | day08-antennas/src/main.rs:51-58 | the pairs are exactly (a, b) with a from the front, b from the list and a != b |
| Antennas.CombinationsFromCount | day08-antennas/src/main.rs:51-58 | on a list without repeats there are |front| * (n - 1) pairs |
| Antennas.PartnersCount | day08-antennas/src/main.rs:53-56 | in a list without repeats a location has one partner per other location |
| Antennas.PartnersLength | day08-antennas/src/main.rs:55 | `a` is paired with every entry but its own copies |
| Antennas.CombinationsMeans | day08-antennas/src/main.rs:51-58 | the pairs are exactly the ordered pairs of different locations, n * (n - 1) of them for n distinct locations |
| Antennas.MirrorsOf | day08-antennas/src/main.rs:61-66 | exactly the reflections 2a - b of the pairs whose coordinates are both nonnegative (the failed `try_into`s are dropped) |
| Antennas.AntinodesForMeans | day08-antennas/src/main.rs:60-67 | part 1's antinode candidates are exactly the nonnegative reflections of one antenna across another of the frequency |
| Antennas.StepsNext | day08-antennas/src/main.rs:74-75 | n + 1 steps from p are n steps from the point after p |
| Antennas.LineOnly | day08-antennas/src/main.rs:73-83 | every point the loop pushes is inside the bounds and a whole number of steps from the antenna |
| Antennas.LineIncludes | day08-antennas/src/main.rs:73-83 | every inside point a whole number of steps from an inside start is pushed |
| Antennas.LineMeans | day08-antennas/src/main.rs:73-83 | the loop pushes exactly the inside points a whole number of steps from the antenna (when the antenna is inside) |
| Antennas.CombinationsDifferent | day08-antennas/src/main.rs:55 | every pair consists of two different locations, so the step away is never zero and the loop ends |
| Antennas.LineUnfold | day08-antennas/src/main.rs:73-83 | one iteration: the point is pushed when inside and the walk goes on from the next point; outside the loop breaks |
| Antennas.RepeatedAntinodesFor | day08-antennas/src/main.rs:69-87 | the nested loop computes all the lines of all the pairs, concatenated |
| Antennas.WalkLine | day08-antennas/src/main.rs:72-83 | the inner loop appends the line from the antenna away from the other one |
| Antennas.LinesOfOnly | day08-antennas/src/main.rs:69-87 | every part 2 candidate is inside the bounds and on the line of some pair |
| Antennas.LinesOfIncludes | day08-antennas/src/main.rs:69-87 | every inside point n steps along a pair's line is a part 2 candidate |
| Antennas.LinesOfMeans | day08-antennas/src/main.rs:69-87 | the part 2 candidates are exactly the inside points on the line of some pair |
| Antennas.Placeable | day08-antennas/src/main.rs:99-103 | every placeable antinode is a cell of the map |
| Antennas.PlaceableMeans | day08-antennas/src/main.rs:89-103 | part 1's placeable antinodes are exactly the on-map reflections of one antenna across another of the same frequency |
| Antennas.AntennasAreAntinodes | day08-antennas/src/main.rs:72-81 | in part 2 every antenna that shares its frequency is itself an antinode (step n = 0) |
| Antennas.AntennaOnItsLine | day08-antennas/src/main.rs:72-81 | the step n = 0 puts the antenna itself on its line |
| Antennas.Part | day08-antennas/src/main.rs:106-115 | an answer exactly when the map parses |
| Antennas.PartBounds | day08-antennas/src/main.rs:110-113 | a rectangular map holds at most as many distinct antinodes as it has cells |
| DiskFragmenter.ParseDiskmap | day09-disk-fragmenter/src/main.rs:13-26 | one block per character: at an even index a file of that length with id i / 2, at an odd one a free run; None exactly when some character is not a digit |
| DiskFragmenter.Repeat | day09-disk-fragmenter/src/main.rs:38-40 | n copies of the id |
| DiskFragmenter.Refill | day09-disk-fragmenter/src/main.rs:47-58 | taking blocks from the back never grows the queue |
| DiskFragmenter.FillFree | day09-disk-fragmenter/src/main.rs:43-63 | filling a free run never grows the queue |
| DiskFragmenter.FileLengthIsSize | day09-disk-fragmenter/src/main.rs:29-73 | the number of file blocks is the sum of the file lengths |
| DiskFragmenter.FileBlocksFront | day09-disk-fragmenter/src/main.rs:35-41 | the file blocks of the queue are those of its tail plus the first block's own |
| DiskFragmenter.RefillKeeps | day09-disk-fragmenter/src/main.rs:47-58 | a refill moves the blocks of the back-most file into `remains` and loses none |
| DiskFragmenter.FillFreeKeeps | day09-disk-fragmenter/src/main.rs:43-63 | filling a free run loses no block: what leaves the queue and `remains` lands in `result`, which only grows at its end |
| DiskFragmenter.TakeTop | day09-disk-fragmenter/src/main.rs:44-45 | one free cell takes the top of a nonempty `remains` |
| DiskFragmenter.ReformatKeeps | day09-disk-fragmenter/src/main.rs:35-72 | compaction keeps every block: the output holds the file blocks plus what was already output and held back, and extends the output so far |
| DiskFragmenter.ReformattedBlocks | day09-disk-fragmenter/src/main.rs:29-73 | the compacted disk holds each id as often as its file is long, so it is exactly as long as all files together, and it starts with the first file's blocks |
| DiskFragmenter.FirstFileFirst | day09-disk-fragmenter/src/main.rs:37-40 | the first file's blocks come first, in place |
| DiskFragmenter.ReformatExample | day09-disk-fragmenter/src/main.rs:92-97 | `12345` parses to its five blocks and compacts to 0, 2, 2, 1, 1, 1, 2, 2, 2, as the test expects |
| DiskFragmenter.FirstFreeExample | day09-disk-fragmenter/src/main.rs:43-63 | in the example, the first free run takes two blocks of file 2 from the back |
| DiskFragmenter.LastFreeExample | day09-disk-fragmenter/src/main.rs:43-63 | in the example, the second free run takes the last three blocks of file 2 and then finds no more files |
| DiskFragmenter.ParseExample | day09-disk-fragmenter/src/main.rs:94 | `12345` parses to File(1, 0), Free(2), File(3, 1), Free(4), File(5, 2) |
| DiskFragmenter.Reformat | day09-disk-fragmenter/src/main.rs:29-73 | the method with its deque, output and held-back stack computes the compacted disk |
| DiskFragmenter.ChecksumFromSnoc | day09-disk-fragmenter/src/main.rs:80-82 | the fold from any starting position adds one block at a time, left to right: a block appended after s adds its position times its id |
| DiskFragmenter.ChecksumSnoc | day09-disk-fragmenter/src/main.rs:80-82 | the checksum of s followed by v is that of s plus |s| times v, as the enumerated fold accumulates it |
| DiskFragmenter.ChecksumExample | day09-disk-fragmenter/src/main.rs:92-97 | the test's `12345` compacts to a disk whose checksum is 60 |
| DiskFragmenter.Part1 | day09-disk-fragmenter/src/main.rs:75-82 | None exactly when the trimmed input has a non-digit (where `Diskmap::from` panics); otherwise the checksum of the compacted disk it describes |
| HoofIt.HeightOf | day10-hoof-it/src/main.rs:19 | a height exactly for a decimal digit, with the digit's value |
| HoofIt.ParseTrails | day10-hoof-it/src/main.rs:11-25 | parsing fails exactly when some character is not a digit; the trailheads are `Starts` of the grid |
| HoofIt.RowStartsMeans | day10-hoof-it/src/main.rs:15-18 | a row contributes exactly its cells of height 0 |
| HoofIt.RowStartsOrdered | day10-hoof-it/src/main.rs:15-18 | a row's trailheads come left to right |
| HoofIt.StartsMeans | day10-hoof-it/src/main.rs:13-21 | the trailheads are exactly the cells of height 0 |
| HoofIt.StartsAbove | day10-hoof-it/src/main.rs:14 | every trailhead lies on a row of the grid |
| HoofIt.StartsOrdered | day10-hoof-it/src/main.rs:13-21 | the trailheads come in reading order, so none is listed twice |
| HoofIt.Moved | day10-hoof-it/src/main.rs:28-33 | a neighbour exactly when the step stays on the grid on every side, with its height and position |
| HoofIt.ReachableEndsAreTops | day10-hoof-it/src/main.rs:35-52 | every reachable end is a 9 at the top of a hiking trail from the start |
| HoofIt.ClimbOf | day10-hoof-it/src/main.rs:39-51 | every reachable end comes from one of the four directions |
| HoofIt.TrailCons | day10-hoof-it/src/main.rs:41-45 | stepping up by one onto the start of a trail gives a longer trail |
| HoofIt.TrailTail | day10-hoof-it/src/main.rs:41-45 | the rest of a trail is a trail |
| HoofIt.TrailHeight | day10-hoof-it/src/main.rs:41 | along a trail the height rises by one per step |
| HoofIt.TopsAreReachableEnds | day10-hoof-it/src/main.rs:35-52 | the top of every hiking trail that ends on a 9 is a reachable end of its start |
| HoofIt.ReachableEndsMeans | day10-hoof-it/src/main.rs:35-52 | a point is a reachable end exactly when a hiking trail climbs from the start to a 9 there |
| HoofIt.ScoreAtMostRating | day10-hoof-it/src/main.rs:54-56 | a trailhead's score, its distinct ends, never exceeds its rating |
| HoofIt.TotalScoreAtMostRating | day10-hoof-it/src/main.rs:58-64 | the map's score never exceeds its rating |
| HoofIt.Part | day10-hoof-it/src/main.rs:67-73 | an answer exactly when the input parses |
| HoofItExample.ExampleStarts | day10-hoof-it/src/main.rs:90-96 | the example map's trailheads are the nine cells of height 0 in reading order |
| HoofItExample.ScoreOf | day10-hoof-it/src/main.rs:54-56 | a trailhead's score is the number of the map's 9s among its reachable ends |
| HoofItExample.MapScore | day10-hoof-it/src/main.rs:106-111 | the example map's score is 36 |
| HoofItExample.MapRating | day10-hoof-it/src/main.rs:113-118 | the example map's rating is 81 |
| HoofItExample.ParseExample | day10-hoof-it/src/main.rs:80-88 | the example's text parses to the example grid with its trailheads |
| HoofItExample.TrailsFromExample | day10-hoof-it/src/main.rs:90-96 | the parsed example has nine trailheads and the first is at height 0 |
| HoofItExample.TrailScoreExample | day10-hoof-it/src/main.rs:98-104 | the first trailhead of the parsed example scores 5 |
| HoofItExample.ScoreExample | day10-hoof-it/src/main.rs:106-111 | part 1 on the example is 36 |
| HoofItExample.RatingExample | day10-hoof-it/src/main.rs:113-118 | part 2 on the example is 81 |
| Pebbles.Pow10 | day11-pebbles/src/main.rs:45-46 | `10u64.pow(k)` is at least 1 |
| Pebbles.Pow10Add | day11-pebbles/src/main.rs:45-46 | powers of ten multiply by adding exponents |
| Pebbles.NumDigits | day11-pebbles/src/main.rs:43 | the digit count d of a positive stone: 10^(d-1) <= stone < 10^d |
| Pebbles.BlinkStone | day11-pebbles/src/main.rs:38-52 | a stone becomes one or two stones |
| Pebbles.HalfBounds | day11-pebbles/src/main.rs:45 | the left half of a stone of 2h digits has h digits |
| Pebbles.SplitKeepsDigits | day11-pebbles/src/main.rs:44-49 | a split halves the digits: the left half has half of them, the right is below 10^half, and left * 10^half + right is the stone |
| Pebbles.DigitsBetween | day11-pebbles/src/main.rs:43 | a number between 10^(h-1) and 10^h has h digits |
| Pebbles.BlinkAppend | day11-pebbles/src/main.rs:20-35 | one blink of a concatenated row is the concatenation of the blinks |
| Pebbles.BlinksAppend | day11-pebbles/src/main.rs:17-36 | stones never interact: n blinks of two rows side by side are the two results side by side |
| Pebbles.TotalCountOne | day11-pebbles/src/main.rs:20-35 | the total for a single stone is its count |
| Pebbles.CountIsLength | day11-pebbles/src/main.rs:17-36 | the recursive count of one stone after n blinks is the length of the row the rules produce |
| Pebbles.TotalCountIsLength | day11-pebbles/src/main.rs:17-36 | the summed counts of a row are the length of the row after n blinks |
| Pebbles.BlinksEmpty | day11-pebbles/src/main.rs:20-35 | no stones stay no stones |
| Pebbles.TotalCountSnoc | day11-pebbles/src/main.rs:20-35 | the total of a row is the sum over its stones |
| Pebbles.Stones.constructor | day11-pebbles/src/main.rs:8-14 | the stones as given and an empty cache |
| Pebbles.Stones.Blink | day11-pebbles/src/main.rs:17-36 | the returned total is the number of stones after n blinks of the queue or of the input; the cache stays correct and the stones unchanged |
| Pebbles.Stones.CountNew | day11-pebbles/src/main.rs:25-34 | for an uncached stone, the count after n blinks, with the cache kept correct |
| Pebbles.ParseStones | day11-pebbles/src/main.rs:10 | stones exactly when every whitespace-separated word is a number |
| Pebbles.Run | day11-pebbles/src/main.rs:55-62 | the lengths of the rows after 25 and after 75 blinks, or None exactly when parsing fails |
| Pebbles.ExampleStones | day11-pebbles/src/main.rs:38-52 | 125 becomes 253000, 17 splits into 1 and 7, 253000 into 253 and 0, 1 becomes 2024 and 7 becomes 14168 |
| Pebbles.ExampleOneBlink | day11-pebbles/src/main.rs:70-74 | `125 17` gives three stones after one blink |
| Pebbles.ExampleTwoBlinks | day11-pebbles/src/main.rs:76-80 | and four after two |
| Gardens.CountsBounded | day12-gardens/src/main.rs:62-92 | the first n sides give at most n fences and at most n corners |
| Gardens.PushedMeans | day12-gardens/src/main.rs:67-70 | what the inner loop pushes is exactly the sides of the point that hold its letter |
| Gardens.TotalsBounded | day12-gardens/src/main.rs:56-94 | a plot's perimeter and its corners are each at most four times its area |
| Gardens.AllCellsMeans | day12-gardens/src/main.rs:35 | the scan visits exactly the cells of the map |
| Gardens.UnexploredShrinks | day12-gardens/src/main.rs:51-56 | exploring a new cell leaves fewer cells unseen, so the search ends |
| Gardens.SideBack | day12-gardens/src/main.rs:61-66 | stepping to side k and then to the opposite side returns to the point |
| Gardens.ExploreStart | day12-gardens/src/main.rs:45-49 | the search starts from the start alone, with nothing explored and the counters at 0 |
| Gardens.ExploreDone | day12-gardens/src/main.rs:51-103 | an empty worklist leaves a plot that starts at the start, has no repeated point, only cells of the letter that were unseen, and is closed under same-letter sides |
| Gardens.SkipKeeps | day12-gardens/src/main.rs:52-54 | popping an already seen point changes nothing else |
| Gardens.VisitKeeps | day12-gardens/src/main.rs:56-94 | popping an unseen point adds it to the plot, adds its fences and corners to the counters and pushes its same-letter sides to the front of the worklist |
| Gardens.VisitTotals | day12-gardens/src/main.rs:78-94 | the counters grow by exactly the new point's fences and corners |
| Gardens.VisitPoints | day12-gardens/src/main.rs:52-56 | the explored point joins the plot once |
| Gardens.VisitTodo | day12-gardens/src/main.rs:67-70 | the worklist holds cells of the letter, each the start or beside an explored point |
| Gardens.VisitClosed | day12-gardens/src/main.rs:67-70 | every same-letter side of an explored point is on the worklist or seen |
| Gardens.ExtendChain | day12-gardens/src/main.rs:56 | each explored point after the first is beside an earlier one, so the plot is connected |
| Gardens.NewPlotMaximal | day12-gardens/src/main.rs:33-42 | a new plot is closed within itself: no same-letter side of it lies in an earlier plot |
| Gardens.Garden.constructor | day12-gardens/src/main.rs:21-30 | the map is the lines of the trimmed input and there are no plots yet |
| Gardens.Garden.Surroundings | day12-gardens/src/main.rs:59-92 | the loop over the four sides counts the fences and corners and collects the same-letter sides |
| Gardens.Garden.ExplorePlot | day12-gardens/src/main.rs:44-104 | a plot of the start's letter whose area is its number of points, starting at the start, with no repeated point, made of unseen cells of the letter, connected and closed under same-letter sides; `seen` grows by exactly its points |
| Gardens.Garden.Drain | day12-gardens/src/main.rs:51-95 | the worklist loop keeps the exploration invariant to the end |
| Gardens.Garden.FindPlots | day12-gardens/src/main.rs:33-42 | the plots found partition the map into maximal same-letter regions, appended after the earlier plots |
| Gardens.Garden.Visit | day12-gardens/src/main.rs:35-41 | a seen cell is skipped; an unseen one starts a new plot that is explored whole and pushed |
| Gardens.Garden.CoverAll | day12-gardens/src/main.rs:33-42 | once every cell is seen, the plots partition the map |
| Gardens.SurroundingsStep | day12-gardens/src/main.rs:63-91 | side i adds a fence exactly when it is off the map or of another letter, and a corner by the source's three cases |
| Gardens.Neighbourhood | day12-gardens/src/main.rs:61-65 | the inner loop reads side i, the diagonal after it and the next side |
| Gardens.NeighbourIndices | day12-gardens/src/main.rs:63-65 | the indices 2i, 2i + 1 and 2i + 2 modulo 8 are side i, its diagonal and side i + 1 |
| Gardens.PriceBounded | day12-gardens/src/main.rs:115-123 | a plot costs at most four times the square of its area, with or without the discount |
| Gardens.Solve | day12-gardens/src/main.rs:125-133 | the plots partition the map and the two prices are their summed area times perimeter and area times corners |
| TeleportingRobots.PositionAfter | day14-teleporting-robots/src/main.rs:25-30 | the wrapped position lies on the grid |
| TeleportingRobots.PositionAfterZero | day14-teleporting-robots/src/main.rs:25-30 | after no time a robot on the grid is where it started |
| TeleportingRobots.PositionAfterCompose | day14-teleporting-robots/src/main.rs:25-30 | moving a seconds and then b more is moving a + b seconds |
| TeleportingRobots.Quadrant | day14-teleporting-robots/src/main.rs:42-50 | a quadrant index below 4, or none |
| TeleportingRobots.QuadrantMeans | day14-teleporting-robots/src/main.rs:42-50 | no quadrant exactly on the middle row or column; otherwise the quadrant tells the side of each |
| TeleportingRobots.CountIn | day14-teleporting-robots/src/main.rs:41-51 | a quadrant holds at most all the robots |
| TeleportingRobots.CountMiddle | day14-teleporting-robots/src/main.rs:41-51 | the middle lines hold at most all the robots |
| TeleportingRobots.CountsCover | day14-teleporting-robots/src/main.rs:41-51 | every robot is counted once: in one quadrant or on a middle line |
| TeleportingRobots.ProductZero | day14-teleporting-robots/src/main.rs:53 | a product is zero exactly when a factor is |
| TeleportingRobots.Counts | day14-teleporting-robots/src/main.rs:40-51 | the four entries of `ranges` are the four quadrant counts |
| TeleportingRobots.Bump | day14-teleporting-robots/src/main.rs:42-50 | one robot raises at most one entry |
| TeleportingRobots.CountsSnoc | day14-teleporting-robots/src/main.rs:41-51 | one more robot adds one to its own quadrant's entry only |
| TeleportingRobots.SafetyFactor | day14-teleporting-robots/src/main.rs:40-53 | the loop over the positions and the product give the product of the four quadrant counts |
| TeleportingRobots.FactorZero | day14-teleporting-robots/src/main.rs:53 | the safety factor is zero exactly when a quadrant is empty |
| TeleportingRobots.SplitFields | day14-teleporting-robots/src/main.rs:11-15 | the five splits give pieces the line is made of, each split at the first separator of its kind |
| TeleportingRobots.Assemble | day14-teleporting-robots/src/main.rs:11-15 | the five splits put together make up the line |
| TeleportingRobots.NoneBefore | day14-teleporting-robots/src/main.rs:11-15 | the text before the first separator does not hold it |
| TeleportingRobots.FieldsUnique | day14-teleporting-robots/src/main.rs:11-15 | a line made of such pieces splits into exactly them, so the pieces are unique |
| TeleportingRobots.NoFields | day14-teleporting-robots/src/main.rs:11-15 | when a split fails, the line is made of no such pieces |
| TeleportingRobots.FieldsRead | day14-teleporting-robots/src/main.rs:11-20 | the numbers read are those of the line's unique pieces; when one does not parse, no pieces of the line read as a robot |
| TeleportingRobots.ParseRobot | day14-teleporting-robots/src/main.rs:10-21 | a robot exactly when the line is `label=x,y label=dx,dy` with the four numbers parsing, x and y unsigned, and then the robot at (x, y) moving by (dx, dy); none exactly when an `unwrap` panics |
| TeleportingRobots.ShowRobot | day14-teleporting-robots/src/main.rs:62-67 | a robot printed as a line of those pieces reading back as the robot |
| TeleportingRobots.ParseShowRobot | day14-teleporting-robots/src/main.rs:10-21 | parsing a robot's line gives the robot back |
| TeleportingRobots.PositionsAfter | day14-teleporting-robots/src/main.rs:38 | every robot's position after the given time, in order |
| TeleportingRobots.Part1 | day14-teleporting-robots/src/main.rs:33-56 | the safety factor of the positions after 100 seconds on the 101 by 103 grid, None exactly when a line does not parse |
| TeleportingRobots.ExamplePositions | day14-teleporting-robots/src/main.rs:69-82 | the robot at (2, 4) moving by (2, -3) on the 11 by 7 grid is at (4, 1), (6, 5), (8, 2), (10, 6) and (1, 3) after one to five seconds |
| TeleportingRobots.ExampleHalves | day14-teleporting-robots/src/main.rs:11 | the test's line splits at its space |
| TeleportingRobots.ExampleSplit | day14-teleporting-robots/src/main.rs:12-13 | each half splits at its `=` |
| TeleportingRobots.ExampleNumbers | day14-teleporting-robots/src/main.rs:18-19 | the four numbers parse to 7, 6, -1 and -3 |
| TeleportingRobots.ExampleCoordinates | day14-teleporting-robots/src/main.rs:14-15 | the coordinates split at their commas |
| TeleportingRobots.ExampleRobot | day14-teleporting-robots/src/main.rs:17-20 | those numbers make the robot at (7, 6) moving by (-1, -3) |
| TeleportingRobots.ExampleParse | day14-teleporting-robots/src/main.rs:62-67 | `p=7,6 v=-1,-3` parses to the robot at (7, 6) moving by (-1, -3) |
| WarehouseBoxes.TileFromChar | day15-boxes/src/main.rs:11-21 | a tile exactly for `.`, `#`, `O` and `@`, and printing it gives back the character |
| WarehouseBoxes.TileRoundTrip | day15-boxes/src/main.rs:11-33 | reading back a printed tile gives the same tile |
| WarehouseBoxes.DirectionFromChar | day15-boxes/src/main.rs:43-55 | a direction exactly for `^`, `v`, `<` and `>`, an error on anything else |
| WarehouseBoxes.Movement | day15-boxes/src/main.rs:57-66 | every move is one step along exactly one axis |
| WarehouseBoxes.Directions | day15-boxes/src/main.rs:79-82 | the move list holds only directions read from characters of the text, no more than there are characters |
| WarehouseBoxes.DirectionsArrows | day15-boxes/src/main.rs:79-82 | a text of arrows only gives one move per character, each the character's, in order |
| WarehouseBoxes.DirectionsNone | day15-boxes/src/main.rs:79-82 | a text without arrows gives no moves |
| WarehouseBoxes.DirectionsAppend | day15-boxes/src/main.rs:79-82 | the moves of two texts in a row are those of the first, then those of the second |
| WarehouseBoxes.Scan | day15-boxes/src/main.rs:109-126 | a found cell is empty and lies on the ray ahead of the first box; a wall or the edge gives none |
| WarehouseBoxes.CountSetAt | day15-boxes/src/main.rs:105-118 | writing one cell changes the count of a tile by the tile removed and the tile written |
| WarehouseBoxes.RowSetCount | day15-boxes/src/main.rs:105-118 | setting one cell of a row changes its count of a tile by that cell's old and new tile |
| WarehouseBoxes.RowScoreSet | day15-boxes/src/main.rs:137-143 | writing one cell changes a row's score by the box removed and the box written |
| WarehouseBoxes.ScoreSetAt | day15-boxes/src/main.rs:137-143 | writing one cell changes the score by the box removed and the box written there |
| WarehouseBoxes.PushCellsDistinct | day15-boxes/src/main.rs:109-119 | the robot's cell, the cell it walks to and the free cell of a push are three different cells |
| WarehouseBoxes.PutAt | day15-boxes/src/main.rs:105-118 | writing a cell changes that cell and no other |
| WarehouseBoxes.StepPreserves | day15-boxes/src/main.rs:98-129 | a step keeps every tile count and the robot on its tile, moves it at most one cell, and changes the score only by a push |
| WarehouseBoxes.WalkPreserves | day15-boxes/src/main.rs:103-108 | a walk onto an empty cell keeps every tile count and the score |
| WarehouseBoxes.PushPreserves | day15-boxes/src/main.rs:109-120 | a push keeps every tile count and moves one box's weight from the first box's cell to the free cell |
| WarehouseBoxes.ResolvePreserves | day15-boxes/src/main.rs:131-135 | the whole move list keeps every tile count and the robot on its tile |
| WarehouseBoxes.FindTile | day15-boxes/src/main.rs:84-87 | a found position holds the tile; none exactly when the map has no such tile |
| WarehouseBoxes.IndexOf | day15-boxes/src/main.rs:84-87 | the first index in the row holding the tile |
| WarehouseBoxes.ParsePuzzle | day15-boxes/src/main.rs:75-95 | none exactly when there is no blank line or the map above it does not decode; otherwise that map, the moves of the text below it, and the robot on a robot tile, or (0, 0) when the map has none |
| WarehouseBoxes.Puzzle.constructor | day15-boxes/src/main.rs:68-95 | the puzzle holds the map, the robot and the moves given |
| WarehouseBoxes.ScanPast | day15-boxes/src/main.rs:111-125 | the scan loop finds the cell the scan function finds: the first non-box cell ahead when it is empty, none at a wall or the edge |
| WarehouseBoxes.Puzzle.Step | day15-boxes/src/main.rs:98-129 | the new map and robot are those of the step function, the moves unchanged |
| WarehouseBoxes.Puzzle.Resolve | day15-boxes/src/main.rs:131-135 | the final map and robot are those of applying every move in order |
| ReindeerMaze.ToDelta | day16-reindeer-maze/src/main.rs:32-39 | every direction steps one cell along exactly one axis |
| ReindeerMaze.IsOpposite | day16-reindeer-maze/src/main.rs:22-30 | two directions are opposite exactly when their steps cancel |
| ReindeerMaze.OppositeProperties | day16-reindeer-maze/src/main.rs:22-30 | opposition is symmetric and irreflexive, and each direction has one opposite |
| ReindeerMaze.DeltaInjective | day16-reindeer-maze/src/main.rs:32-39 | different directions step differently |
| ReindeerMaze.TileFromChar | day16-reindeer-maze/src/main.rs:47-57 | a tile exactly for `#`, `.`, `S` and `E`, and printing it gives back the character |
| ReindeerMaze.TileCharRoundTrip | day16-reindeer-maze/src/main.rs:47-69 | reading back a printed tile gives the same tile |
| ReindeerMaze.MazeFrom | day16-reindeer-maze/src/main.rs:77-86 | the parsed map, the start at (height - 2, 1) facing right and the end at (1, height - 2); none exactly when a character is no tile or the map has fewer than two rows |
| ReindeerMaze.CorridorsAt | day16-reindeer-maze/src/main.rs:187-207 | at most three moves; every move is to an open neighbour not behind the reindeer, and every such neighbour is offered |
| ReindeerMaze.CandidatesOffered | day16-reindeer-maze/src/main.rs:187-207 | the four per-direction candidates hold at most three moves, each offered, and every offered move among them |
| ReindeerMaze.FourInOrder | day16-reindeer-maze/src/main.rs:188-193 | the moves come in the order up, down, left, right |
| ReindeerMaze.Branches | day16-reindeer-maze/src/main.rs:176-178 | one split per way out of a fork, 1000 dearer where it turns |
| ReindeerMaze.SplitsShape | day16-reindeer-maze/src/main.rs:147-185 | every split's path starts at the state, ends on an open cell and weighs at least one per step |
| ReindeerMaze.DeadEnd | day16-reindeer-maze/src/main.rs:173-174 | a dead end yields no split |
| ReindeerMaze.FollowUnsettled | day16-reindeer-maze/src/main.rs:161-181 | a walk that has not come to rest when the bound runs out yields nothing |
| ReindeerMaze.SettlesMore | day16-reindeer-maze/src/main.rs:161-181 | more iterations never stop a walk from coming to rest |
| ReindeerMaze.FollowEnough | day16-reindeer-maze/src/main.rs:161-181 | once a walk comes to rest within the bound, any larger bound gives the same splits, those of the unbounded loop |
| ReindeerMaze.SplitsOfEnough | day16-reindeer-maze/src/main.rs:155-182 | the same for every corridor offered at a cell |
| ReindeerMaze.SplitsEnough | day16-reindeer-maze/src/main.rs:147-185 | `reachable_splits` of a state whose walks all come to rest is the same under any larger bound |
| ReindeerMaze.CircuitCorridors | day16-reindeer-maze/src/main.rs:161-181 | on the walled 2 by 2 block every state is offered only the next state round the block |
| ReindeerMaze.OneCorridor | day16-reindeer-maze/src/main.rs:187-207 | a cell with one open neighbour besides the one behind is offered that neighbour alone |
| ReindeerMaze.SettlesStraight | day16-reindeer-maze/src/main.rs:164-172 | along a straight corridor the walk comes to rest exactly when it does from the next cell |
| ReindeerMaze.BlockNeverSettles | day16-reindeer-maze/src/main.rs:161-181 | round a walled circuit the inner loop never comes to rest under any bound |
| ReindeerMaze.CircuitNeverSettles | day16-reindeer-maze/src/main.rs:161-181 | on the walled 2 by 2 block the walk from (1, 1) facing up yields nothing under any bound |
| ReindeerMaze.EndFirstStepMissed | day16-reindeer-maze/src/main.rs:155-172 | the end tile offered first at a fork is walked past by the loop as written, which then yields nothing |
| ReindeerMaze.EndOffered | day16-reindeer-maze/src/main.rs:187-207 | facing up at (2, 3) of that maze the end tile is offered |
| ReindeerMaze.EndWalkedPast | day16-reindeer-maze/src/main.rs:161-181 | the loop as written, started on that end tile, finds nothing beyond it |
| ReindeerMaze.BeyondTheEnd | day16-reindeer-maze/src/main.rs:187-207 | facing up on that end tile no corridor is offered |
| ReindeerMaze.SplitsReachEnd | day16-reindeer-maze/src/main.rs:155-172 | with the corrected walk, a corridor stepping straight onto the end yields a split at the end costing that step |
| ReindeerMaze.FollowAtEnd | day16-reindeer-maze/src/main.rs:169-171 | the corrected walk started on the end tile stops there |
| ReindeerMaze.SplitsOfIncludes | day16-reindeer-maze/src/main.rs:155-182 | the walk along every offered corridor is part of the splits |
| ReindeerMaze.ReachableSplits | day16-reindeer-maze/src/main.rs:147-185 | the splits collected are those of the corrected walk of every offered corridor |
| ReindeerMaze.SplitsOfSnoc | day16-reindeer-maze/src/main.rs:155-182 | one more corridor appends that corridor's walk |
| ReindeerMaze.FollowCorridor | day16-reindeer-maze/src/main.rs:156-181 | the corrected inner loop finds exactly the splits of the walk function |
| ReindeerMaze.FollowUnfold | day16-reindeer-maze/src/main.rs:161-181 | one iteration of the inner loop |
| ReindeerMaze.ForkSplits | day16-reindeer-maze/src/main.rs:176-178 | the splits a fork pushes are its branches |
| ReindeerRoutes.MazeProblemWellFormed | day16-reindeer-maze/src/main.rs:93-108 | every split of the maze costs at least one and ends on an open tile |
| ReindeerRoutes.WalkSnoc | day16-reindeer-maze/src/main.rs:93-108 | a chain one split longer ends where that split leads |
| ReindeerRoutes.WalkCellsSnoc | day16-reindeer-maze/src/main.rs:123-139 | a chain one split longer passes that split's cells too |
| ReindeerRoutes.WalkPositive | day16-reindeer-maze/src/main.rs:156-165 | every nonempty chain costs at least 1 |
| ReindeerRoutes.WalkAppend | day16-reindeer-maze/src/main.rs:93-108 | following one chain and then another is following their concatenation |
| ReindeerRoutes.BelowTie | day16-reindeer-maze/src/main.rs:99-102 | recording a tie keeps every weight |
| ReindeerRoutes.BelowImprove | day16-reindeer-maze/src/main.rs:106 | recording a cheaper weight lowers or adds one state only |
| ReindeerRoutes.PopStarts | day16-reindeer-maze/src/main.rs:93-94 | popping the last queued pair starts its relaxation |
| ReindeerRoutes.RelaxSkip | day16-reindeer-maze/src/main.rs:97-98 | a split to a dearer weight changes nothing |
| ReindeerRoutes.RelaxTie | day16-reindeer-maze/src/main.rs:99-102 | a split at the recorded weight adds a source and a path, weights unchanged |
| ReindeerRoutes.RelaxImprove | day16-reindeer-maze/src/main.rs:106-107 | a split improving or first reaching a state replaces its entry and queues it |
| ReindeerRoutes.RelaxDone | day16-reindeer-maze/src/main.rs:95-108 | once every split of the popped state is handled, it is relaxed or queued again |
| ReindeerRoutes.SearchStarts | day16-reindeer-maze/src/main.rs:90-91 | nothing is recorded and the start is queued at weight 0 |
| ReindeerRoutes.Optimal | day16-reindeer-maze/src/main.rs:93-109 | once everything is relaxed, every state a chain of splits reaches is recorded no dearer than the chain |
| ReindeerRoutes.MeasureDrops | day16-reindeer-maze/src/main.rs:93-109 | the loop measure drops whenever a state is added or a weight drops |
| ReindeerRoutes.Relax | day16-reindeer-maze/src/main.rs:90-109 | when the queue drains every recorded weight is the cost of a chain from the start, every recorded source and path is a split into the state, and every known state is relaxed |
| ReindeerRoutes.CheapestEnd | day16-reindeer-maze/src/main.rs:111-121 | a recorded state on the end cell of least weight; none exactly when no recorded state is on the end cell |
| ReindeerRoutes.PathsCells | day16-reindeer-maze/src/main.rs:123-127 | exactly the cells of the paths |
| ReindeerRoutes.CollectCells | day16-reindeer-maze/src/main.rs:123-127 | the set grown by exactly the cells of the paths |
| ReindeerRoutes.CollectTiles | day16-reindeer-maze/src/main.rs:122-141 | the cells collected are those of the recorded paths of every state that leads back from the end |
| ReindeerRoutes.PopSeen | day16-reindeer-maze/src/main.rs:129-132 | popping a source already followed keeps the invariant |
| ReindeerRoutes.FollowStep | day16-reindeer-maze/src/main.rs:133-140 | following a source the first time keeps the invariant and leaves fewer states to follow |
| ReindeerRoutes.LeadsSource | day16-reindeer-maze/src/main.rs:133-134 | every recorded source of a state leading to the end leads there too |
| ReindeerRoutes.RecordedCheapest | day16-reindeer-maze/src/main.rs:99-106 | every recorded source and path is a split into the state at exactly its recorded weight |
| ReindeerRoutes.Complete | day16-reindeer-maze/src/main.rs:129-141 | every cheapest chain to the end passes only collected tiles |
| ReindeerRoutes.Sound | day16-reindeer-maze/src/main.rs:129-141 | every collected tile lies on a cheapest chain to the end |
| ReindeerRoutes.RecordedOpen | day16-reindeer-maze/src/main.rs:106 | every recorded state is on an open tile |
| ReindeerRoutes.CheapestPath | day16-reindeer-maze/src/main.rs:89-145 | no route exactly when no chain reaches the end; otherwise the least chain cost to the end cell, tiles holding every cell of the cheapest chains to the chosen end state (and only those when the start is the closed `S` tile), and a seat count one more than the tiles |
| ReindeerRoutes.NoRouteFound | day16-reindeer-maze/src/main.rs:111-121 | no recorded end state exactly when no chain reaches the end cell |
| ReindeerRoutes.RouteFound | day16-reindeer-maze/src/main.rs:111-144 | the chosen end state's weight is reached, nothing on the end cell is cheaper, and the tiles cover its cheapest chains |
| ThreeBitComputer.HalfShift | day17-computer/src/main.rs:71-73 | halving and then dividing by 2^i is dividing by 2^(i+1) |
| ThreeBitComputer.XorBits | day17-computer/src/main.rs:74-76 | bit i of the exclusive or is set exactly when it is set in one operand and not the other |
| ThreeBitComputer.XorInvolution | day17-computer/src/main.rs:85-87 | exclusive or with the same value twice is the identity |
| ThreeBitComputer.Combo | day17-computer/src/main.rs:56-64 | operands 0 to 3 are themselves, 4 to 6 registers A, B and C; 7 and above are invalid |
| ThreeBitComputer.StepNext | day17-computer/src/main.rs:66-101 | the next index is the current one plus 2 except for JNZ with A nonzero, which jumps to the literal; a fault exactly on an unknown opcode or an invalid combo operand read |
| ThreeBitComputer.StepRegisters | day17-computer/src/main.rs:70-98 | ADV, BDV and CDV write A, B and C with A divided by 2 to the combo; BXL, BST and BXC write only B; OUT and JNZ write no register |
| ThreeBitComputer.StepOutput | day17-computer/src/main.rs:88-90 | only OUT adds to the output, exactly one value: the combo operand mod 8 |
| ThreeBitComputer.RunInvariant | day17-computer/src/main.rs:103-109 | a run keeps the three registers and the program, only appends values below 8, halts only with the index outside the program and changes nothing when it faults |
| ThreeBitComputer.RunMoreFuel | day17-computer/src/main.rs:103-109 | a run that stops within its bound stops the same way under any larger bound |
| ThreeBitComputer.RunForStep | day17-computer/src/main.rs:104-107 | one instruction of a run: a fault ends it where it stands, any other instruction continues from its effect |
| ThreeBitComputer.ParseComputer | day17-computer/src/main.rs:36-52 | three registers, index 0, no output and a program of values below 256 |
| ThreeBitComputer.ParseBytes | day17-computer/src/main.rs:44 | one value below 256 per piece, each the number the piece spells |
| ThreeBitComputer.Computer.constructor | day17-computer/src/main.rs:24-34 | the given registers and program, index 0 and no output |
| ThreeBitComputer.Computer.Step | day17-computer/src/main.rs:66-101 | the registers and output change as the instruction's effect says and the next index is returned; nothing changes on a fault |
| ThreeBitComputer.Computer.Advance | day17-computer/src/main.rs:104-107 | one iteration of the loop, in step with the run function |
| ThreeBitComputer.Computer.Run | day17-computer/src/main.rs:103-109 | the final machine is the one the run function describes |
| ThreeBitComputer.StepExamples | day17-computer/src/main.rs:160-203 | step(2, 6) on (0, 0, 9) gives (0, 1, 9); 29 xor 7 gives B = 26; 2024 xor 43690 gives B = 44354 |
| ThreeBitComputer.OutputExample | day17-computer/src/main.rs:168-175 | A = 10 with program 5,0,5,1,5,4 outputs 0, 1, 2 |
| ThreeBitComputer.HalvingPass | day17-computer/src/main.rs:177-185 | one pass of program 0,1,5,4,3,0 halves A, prints it mod 8 and jumps back while A is nonzero |
| ThreeBitComputer.HalvingRun | day17-computer/src/main.rs:177-185 | program 0,1,5,4,3,0 from any A halts with A zero, having printed each halving mod 8 |
| ThreeBitComputer.HalvingExample | day17-computer/src/main.rs:177-185 | A = 2024 outputs 4,2,5,6,7,7,7,7,3,1,0 and ends with A = 0 |
| ThreeBitComputer.HalvingFrom2024 | day17-computer/src/main.rs:177-185 | from 2024 there are 11 passes printing 4,2,5,6,7,7,7,7,3,1,0 |
| Falling.TileChar | day18-falling/src/main.rs:11-20 | `.` exactly for an empty cell and `#` exactly for a wall |
| Falling.ManhattanSymmetric | day18-falling/src/main.rs:77-82 | the distance is symmetric |
| Falling.ManhattanTriangle | day18-falling/src/main.rs:77-82 | the distance obeys the triangle inequality |
| Falling.StepDistance | day18-falling/src/main.rs:110 | every cardinal neighbour is at distance one |
| Falling.UnitStep | day18-falling/src/main.rs:110 | every point at distance one is a cardinal neighbour |
| Falling.EstimateConsistent | day18-falling/src/main.rs:112-113 | a neighbour's estimate to the end is never more than one less: the estimate is consistent |
| Falling.NodeCmp | day18-falling/src/main.rs:29-39 | nodes compare reversed on the estimated total cost |
| Falling.Top | day18-falling/src/main.rs:95-99 | the popped node is a greatest node under that order |
| Falling.TopLeast | day18-falling/src/main.rs:95-99 | so the popped node has the least estimate in the queue |
| Falling.Without | day18-falling/src/main.rs:95-99 | the queue without the popped entry keeps every other entry in order, one fewer in all |
| Falling.MarkMirrors | day18-falling/src/main.rs:104-108 | marking a cell visited adds exactly that cell to the visited set |
| Falling.UnvisitedShrinks | day18-falling/src/main.rs:104-108 | marking a new cell leaves fewer unvisited cells |
| Falling.SearchStart | day18-falling/src/main.rs:86-93 | the queue holds only the start, with its estimate, and nothing is visited |
| Falling.FrontierSkip | day18-falling/src/main.rs:104-105 | dropping a popped entry already visited keeps the frontier invariant |
| Falling.FrontierExpand | day18-falling/src/main.rs:106-121 | expanding a node keeps the frontier invariant |
| Falling.Pushes | day18-falling/src/main.rs:110-121 | one entry per empty neighbour, a step dearer, with its cost plus its distance to the end as estimate |
| Falling.RouteExtend | day18-falling/src/main.rs:110-119 | a route extended by an empty neighbour is a route one step longer |
| Falling.PushesEntries | day18-falling/src/main.rs:110-121 | every pushed entry carries a route of its cost to its cell |
| Falling.PushesAt | day18-falling/src/main.rs:110-121 | every empty neighbour is pushed, at one step more than the expanded node |
| Falling.PushesQueued | day18-falling/src/main.rs:110-121 | every empty neighbour is queued |
| Falling.ExpandKeeps | day18-falling/src/main.rs:106-121 | expanding keeps the search invariant |
| Falling.SkipKeeps | day18-falling/src/main.rs:104-105 | skipping keeps the search invariant |
| Falling.QueuedWithinWithout | day18-falling/src/main.rs:95-99 | popping an entry keeps every entry at another cell |
| Falling.QueuedWithinAppend | day18-falling/src/main.rs:116-121 | pushing keeps every entry |
| Falling.SettledStart | day18-falling/src/main.rs:86-93 | at the start the corner is queued at no cost and nothing is visited |
| Falling.SettledSkip | day18-falling/src/main.rs:104-105 | dropping an entry already visited keeps every unvisited neighbour of a visited cell queued no dearer than one step past any route to that cell |
| Falling.RoutePrefix | day18-falling/src/main.rs:110-119 | a prefix of a route is a route |
| Falling.RouteDistance | day18-falling/src/main.rs:77-82 | two cells of a route are no further apart than the steps between them |
| Falling.Cut | day18-falling/src/main.rs:95-121 | every route from the start to an unvisited cell passes an unvisited cell with a queue entry no dearer than the steps to it |
| Falling.PopBound | day18-falling/src/main.rs:95-113 | the popped node at an unvisited cell costs no more than any route to its cell, because the estimate is consistent and the popped estimate least |
| Falling.SettledExpand | day18-falling/src/main.rs:106-121 | expanding the popped node keeps that ordering invariant |
| Falling.FoundShortest | day18-falling/src/main.rs:100-101 | the end, when popped, costs no more than any route to it |
| Falling.RouteVisited | day18-falling/src/main.rs:95-124 | once the queue is empty, every route from the start stays among the visited cells |
| Falling.SearchDone | day18-falling/src/main.rs:124 | then the end is unreachable |
| Falling.Witness | day18-falling/src/main.rs:100-101 | a found route shows the end reachable |
| Falling.PushNeighbours | day18-falling/src/main.rs:110-121 | the queue grows by exactly the pushed entries |
| Falling.ShortestPath | day18-falling/src/main.rs:85-125 | a result is the length of a route of empty cells from the corner to the end and no route to the end is shorter; none only when no route reaches the end |
| Falling.Dropped | day18-falling/src/main.rs:145-147 | dropping keeps the grid's dimensions; none when a byte falls off the grid |
| Falling.DroppedWalls | day18-falling/src/main.rs:145-147 | after dropping, a cell is a wall exactly when a byte fell on it or it was one |
| Falling.DroppedAppend | day18-falling/src/main.rs:163-171 | dropping one more byte is one more set on the grid |
| Falling.DroppedNone | day18-falling/src/main.rs:145-147 | once a byte falls off the grid every longer run of drops does too |
| Falling.EmptySpace | day18-falling/src/main.rs:139-143 | a 71 by 71 grid |
| Falling.Numbers | day18-falling/src/main.rs:51 | no more numbers than pieces |
| Falling.ParseByte | day18-falling/src/main.rs:50-58 | the first two numbers of a line, swapped into (row, column); none when there are fewer |
| Falling.ParseBytes | day18-falling/src/main.rs:46-65 | one point per well-formed line, in order |
| Falling.MemorySpace.constructor | day18-falling/src/main.rs:46-74 | the parsed bytes and an empty map |
| Falling.MemorySpace.Drop | day18-falling/src/main.rs:146 | the byte's cell becomes a wall, the bytes unchanged |
| Falling.MemorySpace.DropFirst | day18-falling/src/main.rs:145-147 | the grid is the empty space with the first n bytes dropped, failing exactly when one falls off the grid |
| Falling.Reachable | day18-falling/src/main.rs:168 | exactly whether the fallen bytes leave the exit reachable |
| Falling.Verdict | day18-falling/src/main.rs:168 | a search's verdict tells open from blocked |
| Falling.OpenFromStep | day18-falling/src/main.rs:167-172 | the exit open with one more byte fallen extends the open range |
| Falling.DropNext | day18-falling/src/main.rs:169-170 | dropping the byte at index n onto the grid the first n leave |
| Falling.DropNextAsWritten | day18-falling/src/main.rs:169-170 | the same with the byte after the index, as written |
| Falling.DroppedFits | day18-falling/src/main.rs:139-147 | a drop that stays on the grid keeps the dimensions the search needs |
| Falling.Part1 | day18-falling/src/main.rs:136-152 | the length of a shortest route to the exit on the grid the first 1024 bytes leave; none when there is no route, there are fewer bytes or one falls off |
| Falling.DropUntilBlocked | day18-falling/src/main.rs:167-173 | the corrected loop reports the first byte whose fall closes the exit, every earlier one leaving it open |
| Falling.DropUntilBlockedAsWritten | day18-falling/src/main.rs:167-173 | the loop as written reports the byte at its index, the bytes dropped being those up to 1024 and then from 1026 on |
| Falling.Part2 | day18-falling/src/main.rs:154-174 | the first byte from index 1024 on whose fall closes the exit, every earlier state open; none when the bytes run out, one falls off or the exit stays open |
| Falling.Part2AsWritten | day18-falling/src/main.rs:154-174 | `part2` as written, with the byte at 1025 never dropped |
| Falling.AsWrittenSkips | day18-falling/src/main.rs:163-171 | the byte at index 1025 never falls: its cell stays empty in every state the loop searches |
| LinenLayout.Prepend | day19-towels/src/main.rs:39-47 | every way listed with the option put in front, in order |
| LinenLayout.ChoicesCount | day19-towels/src/main.rs:30-51 | the number of listed ways is the count `makeable_ways` computes |
| LinenLayout.ConcatCons | day19-towels/src/main.rs:40-43 | laying out an option and then more is that option followed by the rest |
| LinenLayout.ChoicesSound | day19-towels/src/main.rs:30-51 | every listed way lays out the pattern |
| LinenLayout.ChoicesFromHas | day19-towels/src/main.rs:39-47 | a way starting with option i is listed once the options up to i are tried |
| LinenLayout.ChoicesComplete | day19-towels/src/main.rs:30-51 | every way to lay out the pattern is listed |
| LinenLayout.ChoicesFromFirst | day19-towels/src/main.rs:39-47 | a way listed after trying k options starts with one of them |
| LinenLayout.PrependDistinct | day19-towels/src/main.rs:39-47 | putting the same option in front keeps distinct ways distinct |
| LinenLayout.ChoicesDistinct | day19-towels/src/main.rs:30-51 | no way is listed twice |
| LinenLayout.WaysCounts | day19-towels/src/main.rs:30-51 | the count is exactly the number of distinct ordered choices of options that lay out the pattern |
| LinenLayout.WaysPositive | day19-towels/src/main.rs:58 | a pattern has a positive count exactly when some choice of options lays it out |
| LinenLayout.WaysCache.constructor | day19-towels/src/main.rs:22 | the cache starts empty |
| LinenLayout.MakeableWays | day19-towels/src/main.rs:30-51 | the count returned is the number of ways to lay out the pattern, and the cache holds only correct counts |
| LinenLayout.MakeableOptions | day19-towels/src/main.rs:21-28 | one count per pattern, in order, each the number of ways to lay it out |
| LinenLayout.Positive | day19-towels/src/main.rs:58 | no more positive counts than counts |
| LinenLayout.CountsAnswer | day19-towels/src/main.rs:58-59 | the positive counts are the patterns that can be made, and their sum is the total number of ways |
| LinenLayout.ParsePuzzle | day19-towels/src/main.rs:9-18 | a puzzle exactly when the text has a blank line, with at least one option |
| LinenLayout.Run | day19-towels/src/main.rs:54-60 | both answers; none exactly when parsing panics or an empty option meets a nonempty pattern |
| LinenLayout.ExampleEmptyOption | day19-towels/src/main.rs:9-18 | the text `r, ` and a blank line gives the options `r` and the empty option and no pattern |
| LinenLayout.ExampleUbwu | day19-towels/src/main.rs:30-51 | with the example's options the pattern `ubwu` cannot be made |
| RaceCondition.TileOf | day20-race/src/main.rs:12-22 | a tile exactly for `#`, `.`, `S` and `E` |
| RaceCondition.TileChar | day20-race/src/main.rs:24-34 | the printed character reads back as the tile |
| RaceCondition.LastStartIn | day20-race/src/main.rs:48-53 | the last `S` among a row's first cells, none when there is none |
| RaceCondition.LastStart | day20-race/src/main.rs:48-53 | the last `S` in reading order among the first rows, none when there is none |
| RaceCondition.TrackOf | day20-race/src/main.rs:42-57 | the start is the last `S` in reading order, (0, 0) without one |
| RaceCondition.RowEnd | day20-race/src/main.rs:48-53 | one more row adds its racetrack and finish tiles to the counts and may move the start |
| RaceCondition.FromMap | day20-race/src/main.rs:42-57 | the loop over the map builds exactly that track |
| RaceCondition.FromRow | day20-race/src/main.rs:48-53 | the cells of one row add its racetrack and finish tiles to the length and move the start to its last `S` |
| RaceCondition.ParseMap | day20-race/src/main.rs:44 | one row per line of the trimmed text |
| RaceCondition.SquareTable | day20-race/src/main.rs:63 | on a square map the table, width rows of height entries, covers exactly the map's cells |
| RaceCondition.TimeOfMeans | day20-race/src/main.rs:63-66 | a cell is untimed exactly when the walk never wrote it; a written cell holds at most the length |
| RaceCondition.TimeOfAppend | day20-race/src/main.rs:66 | writing the next cell changes that cell alone |
| RaceCondition.MoveIndex | day20-race/src/main.rs:73-83 | the neighbour the loop moved to, every earlier one shut, or staying put |
| RaceCondition.MovesUnique | day20-race/src/main.rs:73-83 | the neighbour loop has one outcome |
| RaceCondition.WriteTime | day20-race/src/main.rs:66 | writing the next cell keeps the table what the route says |
| RaceCondition.StayStep | day20-race/src/main.rs:73-83 | the loop never goes back to a timed cell |
| RaceCondition.WalkStays | day20-race/src/main.rs:65-84 | a cell met again later is the cell the walk has stayed on all along |
| RaceCondition.LeavingTime | day20-race/src/main.rs:65-84 | a cell the walk leaves at step i holds the length less i |
| RaceCondition.WalkOnTrack | day20-race/src/main.rs:79-82 | every cell written after the first is racetrack or finish, unless the walk never left the start |
| RaceCondition.NextCell | day20-race/src/main.rs:73-83 | the first untimed racetrack or finish neighbour in cardinal order, or the cell itself; none where a neighbour is looked up off the table |
| RaceCondition.ReadyStart | day20-race/src/main.rs:61-63 | before the loop nothing is written, the walk is at S and every entry is `usize::MAX` |
| RaceCondition.ReadyWrite | day20-race/src/main.rs:66 | writing the tiles left at the walk's cell extends the written route by that cell |
| RaceCondition.WrittenMove | day20-race/src/main.rs:73-83 | the cell the neighbour loop goes to is where the next pass writes |
| RaceCondition.TimesPerPosition | day20-race/src/main.rs:60-87 | the table of tiles left along the walk from S, or none exactly where the source panics: S off the table, or a neighbour looked up off it |
| RaceCondition.StartPlaced | day20-race/src/main.rs:45-55 | for a track built from a map, a start on the table is on the map |
| RaceCondition.WideFirstStep | day20-race/src/main.rs:73-83 | on `#######`, `#S...E#`, `#######` the walk goes right from S |
| RaceCondition.WidePanics | day20-race/src/main.rs:63-74 | on that map the walk looks up (1, 3) off the 7 by 3 table, and the source panics |
| RaceCondition.TimingUnique | day20-race/src/main.rs:60-87 | the walk, and so the table, is determined by the track |
| RaceCondition.TimingNotPanics | day20-race/src/main.rs:60-87 | a track whose walk finishes panics on no walk |
| RaceCondition.TimingMeans | day20-race/src/main.rs:60-87 | a cell is untimed exactly when never reached; a reached cell holds at most the length and is the start or on the track |
| RaceCondition.OffsetSaving | day20-race/src/main.rs:100-116 | the saving found at one offset, if any |
| RaceCondition.RowCheats | day20-race/src/main.rs:99-118 | the savings of one offset row |
| RaceCondition.CellCheats | day20-race/src/main.rs:98-119 | the savings of every offset around one cell |
| RaceCondition.SpreadIsDistance | day20-race/src/main.rs:100 | the offset's distance is the Manhattan distance to the landing cell |
| RaceCondition.SavingMeans | day20-race/src/main.rs:100-116 | a saving found is a timed landing cell within reach that beats the normal time |
| RaceCondition.CellCheatsSound | day20-race/src/main.rs:94-119 | every saving found from a cell is the time saved by a cheat from it |
| RaceCondition.CheatOffset | day20-race/src/main.rs:98-116 | a cheat lands at one offset of the square and its saving is found there |
| RaceCondition.CellCheatsComplete | day20-race/src/main.rs:94-119 | every cheat from a cell has its saving found |
| RaceCondition.ConcatHas | day20-race/src/main.rs:93-121 | whatever one cell's list holds is collected |
| RaceCondition.ConcatSound | day20-race/src/main.rs:93-121 | whatever is collected comes from one cell's list |
| RaceCondition.RowCellSavingsNext | day20-race/src/main.rs:93-121 | one more cell of a row appends its savings |
| RaceCondition.TrackSavingsNext | day20-race/src/main.rs:93-121 | one more row appends its savings |
| RaceCondition.CellCompletion | day20-race/src/main.rs:93-95 | none exactly when the cell is racetrack or S and off the table; otherwise that cell's savings |
| RaceCondition.RowCompletion | day20-race/src/main.rs:93-121 | none exactly when a racetrack or S cell of the row is off the table; otherwise the savings of the row |
| RaceCondition.RowClear | day20-race/src/main.rs:93-95 | a row with no racetrack or S cell off the table extends the clear rows before it |
| RaceCondition.RowMisReads | day20-race/src/main.rs:93-95 | a row with a racetrack or S cell off the table makes the map read off the table |
| RaceCondition.RowsClear | day20-race/src/main.rs:93-95 | with every row clear nothing is read off the table |
| RaceCondition.TrackCheats | day20-race/src/main.rs:93-121 | none exactly when a racetrack or S cell is off the table; otherwise the savings of every row |
| RaceCondition.CompletionTimes | day20-race/src/main.rs:89-124 | the time table of the track, nothing read off it, and exactly the savings of its cheats; none only where the walk panics or a racetrack or S cell is off the table |
| RaceCondition.TrackSavingsMeans | day20-race/src/main.rs:93-121 | a saving is found exactly when it is the time saved by a jump from a racetrack or S cell to a timed cell within reach that it beats |
| RaceCondition.SavedBounds | day20-race/src/main.rs:112-114 | every saving is positive and at most the starting cell's time |
| RaceCondition.AtLeast | day20-race/src/main.rs:133-134 | no more than the savings, and zero exactly when none reaches the bound |
| RaceCondition.Run | day20-race/src/main.rs:127-135 | both counts of the track the text builds; none where the parse fails, and otherwise none only where the walk or a table read panics |
| Keypads.Show | day21-keypads/src/main.rs:11-27 | a character for every button but a movement other than the four directions, which is unreachable |
| Keypads.ShowRead | day21-keypads/src/main.rs:11-27 | every key of the keypads prints as one character that reads back as that key |
| Keypads.Render | day21-keypads/src/main.rs:29-31 | one character per button, each the button's own; none exactly when a button cannot print |
| Keypads.RenderInjective | day21-keypads/src/main.rs:29-31 | two key sequences that print alike are the same |
| Keypads.IsPositionAvailable | day21-keypads/src/main.rs:140-142 | true exactly when some key sits at the point |
| Keypads.TowardCloser | day21-keypads/src/main.rs:59-81 | a move toward the target brings the arm one step nearer |
| Keypads.LeadsLength | day21-keypads/src/main.rs:59-81 | a path moving toward the target is as long as the distance it covers |
| Keypads.ExploreSound | day21-keypads/src/main.rs:47-82 | every path completed from an entry extends it by a path to the target |
| Keypads.ExploreComplete | day21-keypads/src/main.rs:47-82 | every path to the target from an entry's point is completed from it |
| Keypads.EnumeratedPaths | day21-keypads/src/main.rs:39-82 | the paths enumerated are exactly those moving toward the target along each axis over keys only, each as long as the distance |
| Keypads.PathScore | day21-keypads/src/main.rs:87-105 | the loop computes the path's score |
| Keypads.BestIndex | day21-keypads/src/main.rs:87-106 | the last path of greatest score |
| Keypads.MaxByScore | day21-keypads/src/main.rs:87-106 | the fold picks that path |
| Keypads.FastestMeans | day21-keypads/src/main.rs:39-109 | the typed moves go the shortest way over keys and end with Enter, no such path scores more, and there is a result exactly when such a path exists |
| Keypads.GreedyMeans | day21-keypads/src/main.rs:111-138 | the greedy moves end with Enter and are one of the enumerated paths |
| Keypads.PushAll | day21-keypads/src/main.rs:59-81 | the four pushes stand for the entry they replace |
| Keypads.Pop | day21-keypads/src/main.rs:47 | popping the top entry leaves a balanced stack |
| Keypads.Keypad.Numeric | day21-keypads/src/main.rs:156-174 | the numeric keys, the arm on Enter |
| Keypads.Keypad.Directional | day21-keypads/src/main.rs:176-188 | the directional keys, the arm on Enter |
| Keypads.Keypad.Enumerate | day21-keypads/src/main.rs:44-82 | the paths completed by the stack loop, in order |
| Keypads.Keypad.PushMove | day21-keypads/src/main.rs:59-81 | one push for a move that brings the arm nearer onto a key |
| Keypads.Keypad.PushMoves | day21-keypads/src/main.rs:59-81 | the four pushes in the order right, up, down, left |
| Keypads.Keypad.FastestMoveAndEnter | day21-keypads/src/main.rs:39-109 | the arm moves to the key and the best shortest path is typed with Enter; none where the button is no key |
| Keypads.Keypad.MoveAndEnter | day21-keypads/src/main.rs:111-138 | the greedy moves to the key, then Enter; none where the button is no key or no step applies |
| Keypads.Keypad.Press | day21-keypads/src/main.rs:210-212 | the moves for every button in turn; none exactly when one panics |
| Keypads.FitsDistance | day21-keypads/src/main.rs:44-48 | distances between keys stay below the largest `usize` |
| Keypads.GreedyStep | day21-keypads/src/main.rs:116-130 | every greedy step brings the arm nearer |
| Keypads.PressAllNone | day21-keypads/src/main.rs:210-212 | a panic on some buttons is a panic on more of them |
| Keypads.LeadsDirections | day21-keypads/src/main.rs:59-81 | the moves of a found path hold no Enter |
| Keypads.PressAllMeans | day21-keypads/src/main.rs:210-212 | one Enter per button, the last at the end, and the arm on the last button |
| Keypads.SolveEnters | day21-keypads/src/main.rs:201-218 | each keypad presses Enter once per button of the layer before |
| Keypads.Codes | day21-keypads/src/main.rs:197 | one number button per character, in order |
| Keypads.Puzzle.Part1 | day21-keypads/src/main.rs:190-199 | the numeric keypad and two directional ones, each on Enter, and the code's buttons |
| Keypads.Puzzle.MovesToSolve | day21-keypads/src/main.rs:201-218 | the code and Enter through every keypad in turn |
| Keypads.SolveCode | day21-keypads/src/main.rs:225-226 | the moves of the three keypads for the code |
| Keypads.LineComplexity | day21-keypads/src/main.rs:223-230 | the number times the length of the moves for one line |
| Keypads.Complexities | day21-keypads/src/main.rs:223-230 | one complexity per line, in order |
| Keypads.SumStep | day21-keypads/src/main.rs:232 | the running sum one line further |
| Keypads.Run | day21-keypads/src/main.rs:221-233 | the sum of the complexities of the trimmed input's lines |
| Keypads.SumLines | day21-keypads/src/main.rs:223-232 | the loop's sum is that total |
| MonkeyMarket.MixLeft6 | day22-monkey-market/src/main.rs:18 | the mixed value is reduced below 2^24 |
| MonkeyMarket.MixRight5 | day22-monkey-market/src/main.rs:19 | the mixed value is reduced below 2^24 |
| MonkeyMarket.MixLeft11 | day22-monkey-market/src/main.rs:20 | the mixed value is reduced below 2^24 |
| MonkeyMarket.Round | day22-monkey-market/src/main.rs:18-20 | a round's result is below 2^24 |
| MonkeyMarket.RegenSecret | day22-monkey-market/src/main.rs:14-24 | the loop's secret is the secret after that many rounds: unchanged after none, below 2^24 after any |
| MonkeyMarket.RegenBound | day22-monkey-market/src/main.rs:17-21 | after one round or more the secret is below 2^24 |
| MonkeyMarket.RegenCompose | day22-monkey-market/src/main.rs:17-21 | a + b rounds are b rounds after a rounds |
| MonkeyMarket.ReduceIsMask | day22-monkey-market/src/main.rs:18-20 | reducing modulo `2 << 23` keeps exactly the low 24 bits |
| MonkeyMarket.RoundLowBits | day22-monkey-market/src/main.rs:18-20 | a round reads only the secret's low 24 bits |
| MonkeyMarket.ParseTrader | day22-monkey-market/src/main.rs:6-11 | a trader exactly when the line is a number below 2^64 |
| MonkeyMarket.Part1 | day22-monkey-market/src/main.rs:27-34 | an answer exactly when every line of the trimmed input is a trader |
| MonkeyMarket.Example123 | day22-monkey-market/src/main.rs:14-24 | the secrets after 123 are 15887950, 16495136 and 527345 |
| LanParty.AddLink | day23-lan-party/src/main.rs:15-20 | the link's two computers get lists, and two computers are linked exactly when they were or the link joins them |
| LanParty.AddLinkKeeps | day23-lan-party/src/main.rs:19-20 | a link keeps the lists two-way and naming only computers with lists |
| LanParty.BuildLinks | day23-lan-party/src/main.rs:10-27 | two computers are listed as linked exactly when some line links them, in either order |
| LanParty.BuildSymmetricClosed | day23-lan-party/src/main.rs:10-27 | the lists link both ways and name only computers that have lists |
| LanParty.ParseLink | day23-lan-party/src/main.rs:15-17 | a link exactly when the line has a `-`, the line being the two names joined by it |
| LanParty.ParseConnections | day23-lan-party/src/main.rs:10-27 | the lists exactly when every line is a link; then they link both ways and are closed |
| LanParty.MaxDegree | day23-lan-party/src/main.rs:36-38 | no list holds more computers |
| LanParty.GrowingExtend | day23-lan-party/src/main.rs:49-53 | a growing network extended by a link of its last computer is still growing, one step closer to the size |
| LanParty.NetworkRecorded | day23-lan-party/src/main.rs:39-45 | a network of the size closing on its first computer is recorded, sorted |
| LanParty.WorkFalls | day23-lan-party/src/main.rs:34-55 | the networks a popped one pushes weigh less than it did |
| LanParty.CoverStart | day23-lan-party/src/main.rs:32 | at the start every network's first computer waits alone |
| LanParty.CoverPop | day23-lan-party/src/main.rs:34-36 | popping a network hands the networks it starts to its links |
| LanParty.CoverStep | day23-lan-party/src/main.rs:38-54 | looking at one more link keeps every network accounted for |
| LanParty.WantedSeen | day23-lan-party/src/main.rs:38-54 | the link a network wants either closes it, recorded, or grows it, pushed |
| LanParty.CoverEnd | day23-lan-party/src/main.rs:38-54 | with every link looked at the popped network leaves none unaccounted for |
| LanParty.Visit | day23-lan-party/src/main.rs:35-54 | one popped network: the worklist stays growing, the recorded networks stay networks, and every network stays accounted for |
| LanParty.NetworksOfSize | day23-lan-party/src/main.rs:30-58 | the networks recorded are exactly the sorted first three computers of the networks of the size |
| LanParty.NetworksComplete | day23-lan-party/src/main.rs:34-55 | with nothing left waiting every network is recorded |
| LanParty.NetworkOfThree | day23-lan-party/src/main.rs:39-45 | a network of three is the sorted names of three computers linked in a ring |
| LanParty.TriangleNames | day23-lan-party/src/main.rs:41-43 | the sorted first three of a network are its three computers in order |
| LanParty.TriangleLinks | day23-lan-party/src/main.rs:38-53 | the links of a grown network of three closing on its first computer |
| LanParty.ExampleTriangle | day23-lan-party/src/main.rs:30-58 | three computers linked in a ring form a network of three |
| LanParty.AnyStartsWithT | day23-lan-party/src/main.rs:96 | true exactly when some name starts with `t`, false when every name is nonempty and none does |
| LanParty.CountWithT | day23-lan-party/src/main.rs:96 | at most the number of networks; none exactly when the name test panics on some network |
| LanParty.Part1 | day23-lan-party/src/main.rs:92-98 | the count of networks of three holding a computer whose name starts with `t` |
| LanParty.CliqueExtend | day23-lan-party/src/main.rs:69-77 | a computer linked from all of a clique extends it |
| LanParty.CliqueLinked | day23-lan-party/src/main.rs:60-81 | a clique's computers are linked pairwise |
| LanParty.Keep | day23-lan-party/src/main.rs:74-75 | exactly the entries in the list, in order, no longer than before |
| LanParty.CoversPop | day23-lan-party/src/main.rs:69-80 | popping a candidate: cliques holding it are recorded by the call, others stay reachable |
| LanParty.TriedExtends | day23-lan-party/src/main.rs:61-64 | with no candidate left only the clique so far can be reached, and a tried computer would extend it |
| LanParty.PopReady | day23-lan-party/src/main.rs:69-77 | the arguments passed on popping meet the call's own requirements |
| LanParty.BronKerbosch | day23-lan-party/src/main.rs:60-81 | every clique recorded is maximal, at least one is recorded when nothing was tried, and every maximal clique reachable from the arguments is recorded |
| LanParty.Pop | day23-lan-party/src/main.rs:69-80 | the candidate leaves the candidates for the tried ones, and every computer linked from all the clique stays among them |
| LanParty.LongestIndex | day23-lan-party/src/main.rs:87 | the index of a longest entry, the last among equals |
| LanParty.ExtendToMaximal | day23-lan-party/src/main.rs:60-81 | a pairwise linked set grows into a maximal one |
| LanParty.RecordedBound | day23-lan-party/src/main.rs:83-89 | once every maximal clique is recorded, no clique is longer than the longest recorded one |
| LanParty.MaxCliques | day23-lan-party/src/main.rs:83-89 | a longest recorded clique, which is maximal; every maximal clique is recorded, so with links both ways no clique is larger |
| LanParty.Part2 | day23-lan-party/src/main.rs:100-103 | the names of a maximal clique no clique exceeds, sorted and joined by commas; none exactly when parsing panics |
| Wires.OpName | day24-wires/src/main.rs:10-19 | each operation's name reads back as that operation, and only that name does |
| Wires.ParseOp | day24-wires/src/main.rs:10-19 | an operation exactly for `AND`, `OR` and `XOR` |
| Wires.ParseWire | day24-wires/src/main.rs:32-36 | the name before `": "` and on exactly when the rest is `1`; none exactly when there is no `": "` |
| Wires.ParseOperation | day24-wires/src/main.rs:38-47 | an operation exactly when the line has five words and the second names a gate; its inputs, gate and output are the first, second, third and fifth words |
| Wires.Collect | day24-wires/src/main.rs:32-36 | a wire has a value exactly when some line names it |
| Wires.CollectLast | day24-wires/src/main.rs:32-36 | a wire keeps the value of its last line |
| Wires.ParsePuzzle | day24-wires/src/main.rs:29-54 | none when there is no blank line |
| Wires.Fire | day24-wires/src/main.rs:57-72 | none exactly when an input has no value, otherwise the gate applied to the inputs |
| Wires.Fired | day24-wires/src/main.rs:57-72 | the output set to what the gate gives, no other wire changed, and nothing when an input is missing |
| Wires.DrainMoreFuel | day24-wires/src/main.rs:74-82 | once the queue is empty, more turns of the loop change nothing |
| Wires.DrainKeeps | day24-wires/src/main.rs:74-82 | a wire with a value keeps one |
| Wires.DrainSets | day24-wires/src/main.rs:74-82 | every operation is still queued or has set its output |
| Wires.DrainFinished | day24-wires/src/main.rs:74-82 | when the queue runs empty every output has a value |
| Wires.DrainOutputs | day24-wires/src/main.rs:74-82 | only queued outputs get a value |
| Wires.DrainUnwritten | day24-wires/src/main.rs:74-82 | a wire no queued operation writes keeps its value |
| Wires.DrainLeaves | day24-wires/src/main.rs:77-80 | the operations left are among those queued |
| Wires.DrainStuck | day24-wires/src/main.rs:74-82 | when no queued operation can fire nothing changes, so the loop never ends on a nonempty queue |
| Wires.ZFilter | day24-wires/src/main.rs:85 | exactly the names starting with `z`, in order |
| Wires.Values | day24-wires/src/main.rs:88-90 | one value per name, each the wire's own |
| Wires.BitOrHigh | day24-wires/src/main.rs:88-90 | or-ing a bit above all of a number's bits adds it |
| Wires.FoldIsBinary | day24-wires/src/main.rs:88-90 | the fold is the binary number of the values, below 2 to their count |
| Wires.BinaryBit | day24-wires/src/main.rs:88-90 | bit i of that number is the i-th value |
| Wires.ScoreOf | day24-wires/src/main.rs:84-91 | the binary number of the `z` wires in name order; none exactly when there are more than 64 |
| Wires.ZNamesMeans | day24-wires/src/main.rs:85-86 | the sorted `z` names are exactly the `z` wires, once each, in order |
| Wires.ScoreOrderFree | day24-wires/src/main.rs:85-91 | the score does not depend on the order the map yields its wires |
| Wires.Listed | day24-wires/src/main.rs:85 | the names of the wires, each once |
| Wires.ReadingBits | day24-wires/src/main.rs:84-91 | bit i of the answer is the value of the i-th `z` wire by name |
| Wires.Puzzle.constructor | day24-wires/src/main.rs:49-52 | the wires and operations given |
| Wires.Puzzle.Solve | day24-wires/src/main.rs:57-72 | the result and the new wires are those of firing the operation |
| Wires.Puzzle.SolveAll | day24-wires/src/main.rs:74-82 | the wires after the queue loop; done exactly when the queue ran empty, every output then having a value |
| Wires.Puzzle.Score | day24-wires/src/main.rs:84-91 | the score of the wires |
| Wires.Run | day24-wires/src/main.rs:94-100 | the score after the queue drains; none when parsing fails, the queue does not drain or the score panics |
| Text.Split | day19-towels/src/main.rs:14 | at least one piece |
| Text.SplitJoin | day19-towels/src/main.rs:14 | joining the pieces with the separator gives the text back |
| Text.SplitOnce | day19-towels/src/main.rs:11 | the text before and after the first occurrence of the separator, the separator nowhere earlier; none exactly when it does not occur |
| Text.SplitOnceAt | day14-teleporting-robots/src/main.rs:11 | splitting at a one-character separator absent from the text before it gives that text and the rest |
| Text.Lines | day19-towels/src/main.rs:15 | the empty text has no lines |
| Text.LinesOfJoin | day10-hoof-it/src/main.rs:14 | reading lines undoes joining lines with line feeds |
| Text.TrimStart | day22-monkey-market/src/main.rs:29 | a suffix of the text, only whitespace dropped, starting with no whitespace |
| Text.TrimEnd | day22-monkey-market/src/main.rs:29 | a prefix of the text, only whitespace dropped, ending with no whitespace |
| Text.Words | day24-wires/src/main.rs:39 | every word is nonempty |
| Text.ShowNat | day14-teleporting-robots/src/main.rs:18 | at least one character, all decimal digits |
| Text.DigitsFromAppend | day14-teleporting-robots/src/main.rs:18 | one more digit multiplies the value by ten and adds the digit |
| Text.ParseShowNat | day14-teleporting-robots/src/main.rs:18 | parsing a printed number gives the number back |
| Text.ShowInt | day14-teleporting-robots/src/main.rs:19 | at least one character, each a digit or a minus sign |
| Text.DigitsFromShift | day14-teleporting-robots/src/main.rs:19 | reading digits after a leading character is reading them alone |
| Text.ParseShowInt | day14-teleporting-robots/src/main.rs:19 | parsing a printed signed number gives the number back |
| Text.ParseEach | day22-monkey-market/src/main.rs:29 | every piece parsed, one result per piece, or none exactly when some piece is refused |
| Grid.At | day16-reindeer-maze/src/main.rs:169 | a tile exactly for a point on the map, the tile there |
| Grid.SetAt | day15-boxes/src/main.rs:105-118 | the same dimensions, the point holding the new tile and every other point its old one |
| Grid.Manhattan | day18-falling/src/main.rs:77-82 | zero exactly between equal points |
| Grid.CardinalNeighbours | day18-falling/src/main.rs:110 | the four orthogonal neighbours, each with its lookup |
| Grid.AllNeighbours | day12-gardens/src/main.rs:61 | the eight surrounding points, each with its lookup |
| Grid.Cells | day20-race/src/main.rs:48 | one point per cell |
| Grid.CellsComplete | day20-race/src/main.rs:48 | every point of the map is visited, at index row times width plus column |
| Grid.ParseRow | day16-reindeer-maze/src/main.rs:79 | one tile per character, each the character's; none exactly when a character does not decode |
| Grid.ParseGrid | day16-reindeer-maze/src/main.rs:79 | one row per line, each the line decoded |
| Grid.GridOfRows | day16-reindeer-maze/src/main.rs:79 | lines that each decode to a row decode to the map of those rows |
| Names.SortNames | day23-lan-party/src/main.rs:43 | the same names, as often each |
| Names.SortNamesSorted | day23-lan-party/src/main.rs:43 | in lexicographic order |
| Names.SortedUnique | day23-lan-party/src/main.rs:101 | two sorted orders of the same names are the same sequence |
| Seqs.KeysOf | day23-lan-party/src/main.rs:32 | the map's keys, each once |
| Arith.Pow2 | day17-computer/src/main.rs:72 | at least one |

## Left out

- Day 3 (instruction scanning) is not modelled: the solver is a regular-expression match, and the regex engine is not part of this model.
- Day 13 (claw machines) is not modelled: it parses with a regular expression and solves with `f32` division and a rounding test, and neither floating point nor the regex engine is modelled.
- Reading the puzzle file (`aoc::input`) is not modelled: each solver takes the puzzle text as a parameter.
- The `println!` and `dbg!` output is not modelled (for example day16-reindeer-maze/src/main.rs:143 and day21-keypads/src/main.rs:206,213): each solver returns its answer.
- The internals of the shared `aoc::Map` (`from`, `at_point`, `set_point`, `iter`, `cardinal_neighbours`, `all_neighbours`) are not part of this model. `Grid` stands in for them as a bounds-checked grid of rows. It assumes that `iter` visits cells in row-major order, that `cardinal_neighbours` gives up, down, left, right (row - 1, row + 1, column - 1, column + 1), which fixes the order `RaceCondition.NextCell`, `HoofIt` and `Falling` rely on, that `all_neighbours` runs clockwise from up, and that a `set_point` off the map changes nothing (day 15's `Put`).
- Text.IsWhitespace: only space, tab, line feed and carriage return count as whitespace. Rust's `trim` and `split_whitespace` also take vertical tab, form feed and the Unicode spaces, which the model does not.
- Integer widths are not modelled; every number is unbounded. This covers the `i32` and `usize` parses (an `i32` piece too large to parse is kept in day 2's `filter_map`, where Rust drops it), `total * number` in day 7, the `u64` checksum fold of day 9, `10u64.pow` and `stone * 2024` in day 11, the `u32` weights of day 16, the `2u64.pow` divisions and the `u8` instruction pointer of day 17, and the `u64` sums of days 19 and 22. Day 22's secret numbers are the exception: they are `bv64` and wrap as in the source.
- Pebbles.NumDigits: the digit count is exact, where the source computes it with `f64` `log10` (day11-pebbles/src/main.rs:43), which can be off for very large `u64` stones.
- GuardPatrol.Step: a step to a negative coordinate is modelled as leaving the map. The source's `x - 1` on a `usize` (day06-guardsguardsguards/src/main.rs:56,59) panics in a debug build and wraps to a huge coordinate off the map in a release build.
- ReindeerMaze.CorridorsAt: `add_delta`'s `as usize` wrap (day16-reindeer-maze/src/main.rs:43) is modelled as a negative coordinate, which is off the grid either way.
- RaceCondition: `aoc::Map` is not part of this model. Its width is taken as the length of the first row and its height as the number of rows, so the table `vec![vec![usize::MAX; height]; width]` (day20-race/src/main.rs:63) has width rows of height entries, indexed `[p.0][p.1]` with the same point as the map. On a map that is not square some track cells are off the table, and the model panics where the source would.
- RaceCondition: `wrapping_add_signed` (day20-race/src/main.rs:103-104) is modelled as a negative coordinate, which is off the table either way.
- GuardPatrol.Patrol: the patrol takes a fuel bound, because in the source a guard on a cycle never leaves the map and the loop never ends. `PatrolMoreFuel` shows that more fuel does not change a finished patrol.
- ReindeerMaze.Follow: the corridor walk takes a fuel bound `reach`. The source's inner loop (day16-reindeer-maze/src/main.rs:161-180) never ends on a walled circuit of single-successor cells: `CircuitNeverSettles` and `BlockNeverSettles` show no fuel is enough there. `FollowEnough` and `SplitsEnough` show that any fuel beyond a settled walk gives the same result.
- ThreeBitComputer.Computer.Run: the program runs under a fuel bound, because a `jnz` loop that never clears register A makes the source's `run` loop forever. `RunMoreFuel` shows that more fuel does not change a halted run.
- Wires.Drain: the operation queue is drained under a fuel bound. The source's loop never ends when an input wire never gets a value, and `DrainStuck` shows the model reports None there. `DrainMoreFuel` shows that more fuel does not change a drain that emptied the queue.
- Keypads.MoveAndEnter: the case where no branch of `move_and_enter` applies is modelled as None.
- ReindeerRoutes.CheapestPath is built on the corrected corridor walk `Follow`, not on the walk as written (see Findings). Where the end is the first cell of a corridor, the source's answer can differ from the model's, depending on how many corridors lead on from the end: with none it records no end route and panics at `unwrap` (day16-reindeer-maze/src/main.rs:121), as on `#####/#.#E#/#...#/#S#.#/#####`; with one it walks on past the end; with two or more it records the end only as fork states, whose weight can be 1000 higher. None of these outcomes is modelled.
- ReindeerRoutes.CheapestEnd: the source keeps its weights in a `HashMap`, whose order is unspecified. So which of several equally cheap end states is chosen, and the order of the visited sets, are not modelled. The model chooses one, and its contract holds for any of them.
- SafetyManual.CorrectUpdate: the contract states only that the result rearranges the update's pages. `SafetyManual.CorrectedSum` likewise states only that it adds up the middle pages of rearrangements of the invalid updates. The comparator is not a strict weak order on every input, so the order that `sort_by` gives depends on the sort's internals. Whether the result obeys the rules is therefore not stated.
- ThreeBitComputer: the part-2 search for the register value (day17-computer/src/main.rs:122-143) is not modelled. It is a brute-force search that drives `run`, and `run` itself is modelled.
- LinenLayout.Run: an empty towel option meeting a pattern still to be made sends the source's `makeable_ways` into endless recursion. The model returns None there.
- RaceCondition: `UsizeMax` stands for the untimed marker `usize::MAX`. The savings are characterised by membership, not by how many cheats give each saving.
- Keypads.Keypad.Valid: keypad coordinates are kept below 2^62 in size, so that the source's `isize` differences cannot overflow.
- LanParty.AnyStartsWithT: `address[0..1].eq("t")` (day23-lan-party/src/main.rs:96) slices the name's first byte. The model compares the first character, which is the same for ASCII names. A name that starts with a multibyte character makes the source panic but not the model.
- Keypads: `line[..line.len() - 1]` (day21-keypads/src/main.rs:224) is modelled as dropping the last character, which is the same as in the source when that character is one byte (ASCII).
- Wires.ScoreOf: more than 64 `z` wires would overflow the source's shift, and the model returns None there. The `HashMap` order of the gates does not change the score (`ScoreOrderFree`).
- CeresSearch.Step1: the worked example with answer 18 (day04-wordsearch/src/main.rs:95-98) is not proved. It needs 800 ray checks, which is too costly to unfold.
- GuardPatrol.Part1: the worked example with answer 41 (day06-guardsguardsguards/src/main.rs:115-118) is not proved. It needs a patrol of about 45 steps and the size of a 41-point set, which is too costly to unfold.
- Pebbles.Run: the worked example with answer 55312 after 25 blinks is not proved, because it unfolds hundreds of (stone, blinks) pairs. The one- and two-blink examples are proved (`ExampleOneBlink`, `ExampleTwoBlinks`).
- MonkeyMarket.Part1: the contract states when there is an answer (every line is a trader). The value is `SumAfter` of the traders after 2000 rounds, and no lemma bounds that sum. What each trader's secret becomes is stated by `RegenBound` (below 2^24 after a round), `RegenCompose` (rounds compose) and `RoundLowBits` (a round reads only the low 24 bits).
- Wires.ParsePuzzle: the contract states only the no-blank-line case. The parsed content is stated by the wire and operation parsers' own contracts.
- Falling.Numbers: the contract states only the count bound, not which pieces parse.
- Text.Split: the contract states only that there is at least one piece. The content is stated by `SplitJoin`.
- Text.Lines: the contract states only that the empty text has no lines. The content is stated by `LinesOfJoin`.
- Text.Words: the contract states only that every word is nonempty.

## Findings

| source | as written | input that shows it | evidently intended | confidence | as-written member | corrected member |
|---|---|---|---|---|---|---|
| day16-reindeer-maze/src/main.rs:161-180 | the corridor walk tests for the End tile only on the cell it has just stepped to (line 169), never on the corridor's first cell. When that first cell is the end, what happens depends on the corridors leading on from it (lines 163-164): with none the walk stops and records nothing (line 174); with one it steps past the end; with two or more it pushes the end as fork states (line 177), which `end_routes` (line 111) then finds with a weight that can be 1000 too high | `#####/#.#E#/#...#/#S#.#/#####`: the end is the first cell north of the fork and no corridor leads on from it, so no end route is found and `unwrap` at line 121 panics | the End tile is recognised on every cell of a corridor, the first one included | not executed | ReindeerMaze.FollowAsWritten, ReindeerMaze.EndFirstStepMissed | ReindeerMaze.Follow, ReindeerMaze.SplitsReachEnd |
| day18-falling/src/main.rs:163-173 | bytes 0 to 1024 fall, then the index starts at 1025 and each round drops byte `idx + 1`, so byte 1025 never falls; when the first 1025 bytes already close the exit, byte 1025 is reported although it never fell | any byte list whose byte 1025 is the one that closes the exit: the source drops byte 1026 and later bytes instead, and reports a later byte or the unfallen one | drop bytes 1025, 1026 and so on in turn, and report the first one that closes the exit | not executed | Falling.DropUntilBlockedAsWritten, Falling.Part2AsWritten, Falling.AsWrittenSkips | Falling.DropUntilBlocked, Falling.Part2 |
