# Advent of Code 2023 solvers, modelled in Dafny

The repository holds independent solvers for the Advent of Code 2023 puzzles. Each one
reads a small text input and computes a number. This project models the core of every
solver as Dafny modules, one per source file or per pair of twin files, and proves what
each solver promises:

- **Day 1 (`Day01Calibration`, `Day01Words`).** The first and last digit of a line, with
  spelled-out digits in part 2. The part-2 search over the word/digit hash map is proved
  independent of the map's iteration order.
- **Day 2 (`Day02Cubes`).** The colour limits of part 1 and the per-colour maxima and power
  of part 2.
- **Day 3 (`Day03Engine`, `Day03Gears`).** The eight-way flood fill from symbols, the
  reading of marked digit runs, digit-run ids and the gear ratios.
- **Day 4 (`Day04Scratchcards`).** Match counts, doubling scores and the propagation of
  card copies in place.
- **Day 5 (`Day05Seeds`).** Range remapping and its inverse, the pipeline in both
  directions, and the search over interesting points. See "## Findings".
- **Day 6 (`Day06Races`).** The count of winning holds, by the source's
  walk-down-and-double loop, against the direct count.
- **Day 7 (`Day07Camel`).** Card powers, hand types with and without jokers, and the
  ranking by a stable sort.
- **Day 8 (`Day08Network`).** The walks over the node network, Euclid's gcd, the lcm, and
  the order-independent lcm fold.
- **Day 9 (`Day09Mirage`).** Backward extrapolation through difference rows.
- **Day 10 (`Day10Pipes`).** Finding and replacing 'S', the breadth-first search along the
  pipes (which pops shortest distances, the grid being bipartite), the main-loop copy and
  the parity ray cast. See "## Findings".
- **Day 11 (`Day11Galaxies`).** Empty rows and columns, expansion with a multiplier, and
  the sum of Manhattan distances over pairs.
- **Day 12 (`Day12Paint`, `Day12Arrangements`).** Part 1's paint-and-restore
  backtracking on a buffer. Part 2's skip/lay recursion, with the Python twin's
  case analysis, shown equal to it.
- **Day 13 (`Day13Mirrors`).** Horizontal and vertical lines of reflection.
- **Day 14 (`Day14Tilt`, `Day14Spin`).** The segment load formula, the in-place tilts of
  the `Engine`, spin cycles, and the read-off of the load after a billion cycles from
  one period.
- **Day 15 (`Day15Hashmap`).** The HASH algorithm and the 256 lens boxes.
- **Day 16 (`Day16Beams`).** Recursive beam tracing with a visited set. The energised
  tiles are exactly those some reachable beam crosses.
- **Day 17 (`Day17Crucible`).** Dijkstra's search over (direction, run, row, column) with a
  run limit of 3 or 10.
- **Day 18 (`Day18Lagoon`).** The shoelace walk, the boundary count and Pick's theorem,
  and the hex colour codes of part 2.
- **Day 19 (`Day19Workflows`).** The point-wise workflow evaluator, and the range
  splitting of part 2 proved to count exactly the accepted points.
- **Day 20 (`Day20Pulses`).** Flip-flops, conjunctions and the broadcaster as a `Machine`
  class. A FIFO queue is drained while the low and high pulses are counted.
- **Day 21 (`Day21Steps`).** The set of plots reachable in exactly n steps.
- **Day 22 (`Day22Bricks`).** Sorting bricks by height, settling them in a `Wall` class,
  safe removal, and the count of bricks that move when one is removed.
- **Day 23 (`Day23Walk`).** Backtracking longest hikes. Part 1 uses a visited set and
  part 2 a boolean grid, each proved to return the longest simple trail.

`Text` holds the shared splitting and number-reading helpers. `Wrappers` holds the
`Option` outcome that stands for a panic of the original program or for a search that ran
out of its fuel.

## Model

| member | source | states |
|---|---|---|
| Day01Calibration.FirstDigit | src/bin/day01.rs:1-8 | -1 exactly when the line has no digit; otherwise the value of a digit with no digit before it |
| Day01Calibration.LastDigit | src/bin/day01.rs:10-17 | -1 exactly when the line has no digit; otherwise the value of a digit with no digit after it |
| Day01Calibration.LastIsFirstOfReverse | src/bin/day01.rs:10-17 | scanning from the back finds what scanning the reversed line from the front finds |
| Day01Calibration.DigitAt | src/bin/day01.rs:1-17 | a digit with no digit before it is the one the front scan finds, and a digit with no digit after it the one the back scan finds |
| Day01Calibration.FindFirst | src/bin/day01.rs:1-8 | the loop returns the leftmost digit's value or -1 |
| Day01Calibration.FindLast | src/bin/day01.rs:10-17 | the reversed loop returns the rightmost digit's value or -1 |
| Day01Calibration.CalibrationValueRange | src/bin/day01.rs:19-27 | a line with a digit contributes a number from 0 to 99 made of its first and last digit; a line without one contributes -11 |
| Day01Calibration.SingleDigitLine | src/bin/day01.rs:19-27 | a line with exactly one digit contributes eleven times it |
| Day01Calibration.CalculateSumCalibrations | src/bin/day01_1.rs:21-29 | the loop returns the sum of every line's calibration value |
| Day01Calibration.CalibrationExample | src/bin/day01.rs:36-40 | the four test lines sum to 142 |
| Day01Words.FindFrom | src/bin/day01_2.rs:9 | `str::find`: the least start, at or after the given index, of an occurrence of the key, and None exactly when none occurs |
| Day01Words.LeftmostUnique | src/bin/day01_2.rs:3-17 | on a prefix-free table at most one value is the leftmost one, so the hash map's visiting order cannot change the answer |
| Day01Words.LeftmostExists | src/bin/day01_2.rs:3-17 | some value (a digit or -1) is always the leftmost one |
| Day01Words.LeftmostEntry | src/bin/day01_2.rs:8-15 | some entry's key occurs no later than every other occurring key considered |
| Day01Words.LeftValue | src/bin/day01_2.rs:3-17 | the order-independent value a left search reports is a leftmost value |
| Day01Words.FindFromLeft | src/bin/day01_2.rs:3-17 | the loop reports -1 when no key occurs and otherwise the value of a key with the leftmost first occurrence, whatever order the keys are visited in |
| Day01Words.ReversedTable | src/bin/day01_2.rs:22-25 | each entry keeps its value and gets its key spelled backwards |
| Day01Words.OccursReversed | src/bin/day01_2.rs:19-39 | a reversed key occurring at i in the reversed line is the key ending at position len-i of the line, and back |
| Day01Words.RightmostMeaning | src/bin/day01_2.rs:19-39 | a leftmost value of the reversed line over the reversed table is, on the line itself, the value of a key whose occurrence ends at or after the end of every other occurrence, and -1 exactly when no key occurs |
| Day01Words.LastKey | src/bin/day01_2.rs:19-39 | the key behind a leftmost reversed key occurs in the line, with the same value, ending no earlier than any occurrence of any key |
| Day01Words.NoKeyReversed | src/bin/day01_2.rs:19-39 | where no key occurs in the line, no reversed key is found in the reversed line |
| Day01Words.FirstReversed | src/bin/day01_2.rs:19-39 | an occurrence of a key ending at e gives its reversed key, with the same value, a first occurrence no later than len - e in the reversed line |
| Day01Words.FindFromRight | src/bin/day01_2.rs:19-39 | the loop over the reversed table reports the leftmost value of the reversed line; read on the line itself, that is -1 when no key occurs and otherwise the value of a key whose occurrence ends last |
| Day01Words.ApartFree | src/bin/day01_2.rs:44-64 | a table whose keys differ near their fronts is prefix-free and maps equal keys to equal values |
| Day01Words.ApartReversed | src/bin/day01_2.rs:22-25 | keys that differ near their ends differ near their fronts once reversed |
| Day01Words.TableApart | src/bin/day01_2.rs:44-64 | every two keys of the digit table differ within their first two and their last three characters |
| Day01Words.TableFree | src/bin/day01_2.rs:44-64 | the digit table and its reversal are prefix-free and functional, and every value is a digit |
| Day01Words.SameEntries | src/bin/day01_2.rs:44-64 | two listings of the same entries report the same left and right values on every line |
| Day01Words.SameLeftmost | src/bin/day01_2.rs:3-17 | being the leftmost value depends on the set of entries, not on their order |
| Day01Words.AnyOrder | src/bin/day01_2.rs:44-64 | any order in which the hash map yields the table gives the same values on every line |
| Day01Words.Solve | src/bin/day01_2.rs:41-72 | the loop returns the sum over the lines of ten times the left value plus the right value, for any hash map order |
| Day01Words.LineValue | src/bin/day01_2.rs:66-70 | one line of the loop adds ten times its left value plus its right value, whatever order the map lists its entries in |
| Day02Cubes.UnknownColourImpossible | src/bin/day02_1.rs:16-24 | a draw of any colour other than red, green or blue makes the game impossible |
| Day02Cubes.PossibleMonotone | src/bin/day02_1.rs:16-19 | a game possible with some cubes stays possible with more of every colour |
| Day02Cubes.IdSumBounds | src/bin/day02_1.rs:30-32 | with positive ids the answer lies between 0 and the sum of all ids |
| Day02Cubes.UnderConstraint | src/bin/day02_1.rs:11-29 | the nested loops report true exactly when every draw of every group is within its colour's limit |
| Day02Cubes.SolvePossible | src/bin/day02_1.rs:3-35 | the loop returns the sum of the ids of the possible games |
| Day02Cubes.MaxCount | src/bin/day02_2.rs:10-21 | the running maximum of a colour bounds every capture of that colour, is attained by one, and is 0 when there is none |
| Day02Cubes.MissingColourPower | src/bin/day02_2.rs:23 | a game in which some colour is never drawn has power 0 |
| Day02Cubes.MaximaAreLeastLimits | src/bin/day02_2.rs:10-23 | the maxima allow every capture, and any limits allowing every capture are at least the non-zero maxima |
| Day02Cubes.GamePower | src/bin/day02_2.rs:10-23 | the loop returns the product of the three per-colour maxima |
| Day02Cubes.SolvePower | src/bin/day02_2.rs:5-27 | the loop returns the sum of the games' powers |
| Day02Cubes.MaxCountIs | src/bin/day02_2.rs:16-18 | a count that bounds every capture of a colour and is attained is its maximum |
| Day02Cubes.PowerExample | src/bin/day02_2.rs:36-50 | the five example games have powers summing to 2286 |
| Day03Engine.ClosedGrows | src/bin/day03_1.rs:42-44 | a set closed under open neighbours outside a given set stays closed when both grow |
| Day03Engine.ClosedUnion | src/bin/day03_1.rs:42-44 | closure over two parts gives closure over their union |
| Day03Engine.ClosedChain | src/bin/day03_1.rs:42-44 | the marks of successive neighbour floods chain into one closed flood |
| Day03Engine.UnmarkedIsRest | src/bin/day03_1.rs:76 | the unmarked cells are the grid's cells less the marked ones |
| Day03Engine.Floodfill | src/bin/day03_1.rs:21-45 | the flood only adds marks, only on open cells, marks its start when that is open, leaves the new marks closed under open neighbours and marks no more than any set confining it |
| Day03Engine.RegionUnique | src/bin/day03_1.rs:72-90 | the flooded region is determined by the board, whatever order the symbols are flooded in |
| Day03Engine.SymbolConfines | src/bin/day03_1.rs:78-84 | a closed set holding every symbol confines the flood from any symbol |
| Day03Engine.FloodAll | src/bin/day03_1.rs:78-84 | flooding from every symbol marks exactly the least closed set of open cells that holds all symbols |
| Day03Engine.Runs | src/bin/day03_1.rs:50-68 | every run of digits is non-empty and a row ending in a digit has a run |
| Day03Engine.RunsExtend | src/bin/day03_1.rs:53-62 | a -1 entry closes the current run; a digit extends the run of a digit neighbour or starts a new one |
| Day03Engine.FlattenLastGrows | src/bin/day03_1.rs:62 | appending to the last run appends to the flattened entries |
| Day03Engine.RunsKeepEntries | src/bin/day03_1.rs:50-68 | the runs, flattened, are exactly the marked digits of the row in order |
| Day03Engine.RowCellAt | src/bin/day03_1.rs:53 | a row's entry is the digit's value when it is a digit in the region and -1 otherwise |
| Day03Engine.ScanStep | src/bin/day03_1.rs:53-62 | one step of the scan keeps total plus the current group equal to the sum of the runs so far |
| Day03Engine.MarkedCell | src/bin/day03_1.rs:53 | a cell is in the marked set exactly when its flag is set |
| Day03Engine.ScanRow | src/bin/day03_1.rs:51-67 | the row scan returns the sum of the row's marked numbers |
| Day03Engine.SumConnected | src/bin/day03_1.rs:47-70 | the scan returns the sum of the marked numbers of all rows |
| Day03Engine.Solve | src/bin/day03_1.rs:72-90 | None exactly for the empty board; otherwise the sum of the numbers within the region flooded from the symbols |
| Day03Engine.NoRunsWithoutEntries | src/bin/day03_1.rs:53-60 | a row with no marked digit has no runs |
| Day03Engine.EmptyRegionSum | src/bin/day03_1.rs:47-70 | an empty region sums to 0 |
| Day03Engine.NoSymbolsNoParts | src/bin/day03_1.rs:78-86 | a board without symbols has the empty region and answer 0 |
| Day03Gears.FindGearLocations | src/bin/day03_2.rs:12-24 | exactly the '*' cells, each once, in row-major order |
| Day03Gears.ParseToNumber | src/bin/day03_2.rs:26-39 | same shape as the board; a digit becomes its value and anything else -1 |
| Day03Gears.Values | src/bin/day03_2.rs:74-78 | one number per run of digits |
| Day03Gears.MappingLength | src/bin/day03_2.rs:66-91 | the mapping has one entry per run in the rows before |
| Day03Gears.RunsBeforeMonotone | src/bin/day03_2.rs:46-62 | the count of runs in earlier rows never decreases |
| Day03Gears.RunsCountMonotone | src/bin/day03_2.rs:47-57 | a longer prefix of a row has at least as many runs |
| Day03Gears.RunIndexInRow | src/bin/day03_2.rs:47-57 | a digit lies in one of its row's runs |
| Day03Gears.IdInMapping | src/bin/day03_2.rs:41-91 | every digit's group id indexes the mapping, and the entry there is the number of the digit's run |
| Day03Gears.MappingPrefix | src/bin/day03_2.rs:71-89 | the mapping of fewer rows is a prefix of that of more rows |
| Day03Gears.SameRunSameId | src/bin/day03_2.rs:48-50 | horizontally adjacent digits get the same group id |
| Day03Gears.GapSeparates | src/bin/day03_2.rs:51-55 | a non-digit between two digits of a row gives the later one a larger id |
| Day03Gears.RowGap | src/bin/day03_2.rs:51-55 | a -1 entry between two digits adds a run |
| Day03Gears.RowsSeparate | src/bin/day03_2.rs:58-61 | numbers never span rows: a digit of a later row has a larger id |
| Day03Gears.Groupify | src/bin/day03_2.rs:41-64 | a fresh grid of the board's shape whose every cell holds its group id (-1 off the digits) |
| Day03Gears.ValuesGrow | src/bin/day03_2.rs:74 | extending the last run multiplies its number by ten and adds the digit |
| Day03Gears.ValuesSingle | src/bin/day03_2.rs:74 | a new run of one digit adds that digit as a number |
| Day03Gears.OpenRunGrows | src/bin/day03_2.rs:73-75 | the scan's pending number is the last run's number |
| Day03Gears.MappingScanStep | src/bin/day03_2.rs:72-83 | one step of the scan keeps mapping plus the pending number equal to the numbers of the runs so far |
| Day03Gears.ScanOpen | src/bin/day03_2.rs:73-75 | a digit right after a digit extends the pending number by one decimal place, the runs so far staying matched |
| Day03Gears.ScanFresh | src/bin/day03_2.rs:73-75 | a digit after a non-digit starts a new pending number equal to its value, the runs so far staying matched |
| Day03Gears.CreateGroupMapping | src/bin/day03_2.rs:66-91 | the mapping lists the numbers of the board in row-major order, one per run |
| Day03Gears.IdsInMapping | src/bin/day03_2.rs:120-136 | every id next to a gear other than -1 indexes the mapping |
| Day03Gears.IdsUpToInMapping | src/bin/day03_2.rs:123-128 | the same for the first n neighbours |
| Day03Gears.AnyElement | src/bin/day03_2.rs:133-136 | a non-empty set has an element |
| Day03Gears.PairOf | src/bin/day03_2.rs:130-136 | a two-element set is two distinct elements and nothing else |
| Day03Gears.PairExists | src/bin/day03_2.rs:130 | a set of size two holds two distinct elements |
| Day03Gears.GearIds | src/bin/day03_2.rs:122-129 | the ids of the in-grid neighbours of the gear, without -1 |
| Day03Gears.GearValue | src/bin/day03_2.rs:120-137 | the product of the two numbers a gear touches when it touches exactly two, and 0 otherwise |
| Day03Gears.SumGears | src/bin/day03_2.rs:108-138 | the sum of the gear ratios of the listed gears |
| Day03Gears.Solve | src/bin/day03_2.rs:93-139 | None exactly for an empty board; otherwise the sum of the ratios over the '*' cells, each listed exactly once and in row-major order |
| Day04Scratchcards.Matches | src/bin/day04_1.rs:7-17 | the number of distinct numbers on both sides, at most the distinct count of either side |
| Day04Scratchcards.SubsetCard | src/bin/day04_1.rs:17 | a subset is no larger than its superset |
| Day04Scratchcards.Pow2 | src/bin/day04_1.rs:21 | powers of two are at least 1 |
| Day04Scratchcards.ScoreDoubles | src/bin/day04_1.rs:18-21 | every further match doubles a card's points |
| Day04Scratchcards.DuplicatesCollapse | src/bin/day04_1.rs:12-17 | repeating one of your numbers does not change the match count, as the numbers are collected into sets |
| Day04Scratchcards.SolvePoints | src/bin/day04_1.rs:3-24 | the loop returns the sum of the cards' points |
| Day04Scratchcards.PointsExample | src/bin/day04_1.rs:36-48 | the six example cards score 13 |
| Day04Scratchcards.ScoreStep | src/bin/day04_1.rs:5-22 | the total over one more card adds exactly that card's score |
| Day04Scratchcards.ExampleTotal | src/bin/day04_1.rs:36-48 | any six cards with 4, 2, 2, 1, 0 and 0 matches score 13 in all |
| Day04Scratchcards.Win | src/bin/day04_2.rs:21-23 | card i's winnings add its count to each of the next k cards that exist, and nothing else changes |
| Day04Scratchcards.CopiesAfter | src/bin/day04_2.rs:6-24 | the copies vector keeps one entry per card |
| Day04Scratchcards.CopiesAfterWon | src/bin/day04_2.rs:7-24 | after i cards, the processed cards hold their final count and the others their original plus what was handed to them |
| Day04Scratchcards.CopiesAreWon | src/bin/day04_2.rs:6-25 | each card ends with one original plus one per copy of every earlier card whose matches reach it |
| Day04Scratchcards.EarlierCardsFinal | src/bin/day04_2.rs:21-23 | a card's count no longer changes once it has been processed |
| Day04Scratchcards.WonAtLeastOne | src/bin/day04_2.rs:6 | every card is held at least once |
| Day04Scratchcards.WonFromPositive | src/bin/day04_2.rs:22 | copies won from earlier cards are never negative |
| Day04Scratchcards.SumAtLeastLength | src/bin/day04_2.rs:25 | entries of at least 1 sum to at least their count |
| Day04Scratchcards.AtLeastOriginals | src/bin/day04_2.rs:6-25 | the answer is at least the number of cards |
| Day04Scratchcards.MatchCounts | src/bin/day04_2.rs:9-19 | one match count per card |
| Day04Scratchcards.SolveCopies | src/bin/day04_2.rs:3-26 | the loop returns the sum of the final copies vector |
| Day04Scratchcards.HandOut | src/bin/day04_2.rs:21-23 | the inner loop updates the array to the winnings of card i |
| Day04Scratchcards.SumArray | src/bin/day04_2.rs:25 | the sum of the array |
| Day04Scratchcards.CardMatches | src/bin/day04_1.rs:17 | the match count is the size of the common set |
| Day04Scratchcards.ExampleMatches | src/bin/day04_2.rs:40-47 | the example cards have 4, 2, 2, 1, 0 and 0 matches |
| Day04Scratchcards.ExampleCounts | src/bin/day04_2.rs:40-47 | six cards with 4, 2, 2, 1, 0 and 0 matches have exactly that list of match counts |
| Day04Scratchcards.WinStep | src/bin/day04_2.rs:21-23 | one card's winnings take the vector from one state to the next |
| Day04Scratchcards.ExampleCopies | src/bin/day04_2.rs:38-50 | the example ends with copies 1, 2, 4, 8, 14 and 1 |
| Day04Scratchcards.CopiesExample | src/bin/day04_2.rs:38-50 | the example cards total 30 |
| Day05Seeds.ParseMapper | src/bin/day05_2.rs:116-127 | a line parses exactly when it has three numbers; the mapper's source and destination intervals are the closed intervals of the given length |
| Day05Seeds.ParseBlock | src/bin/day05_2.rs:111-129 | a block parses exactly when all of its lines do, into one mapper per line in order |
| Day05Seeds.ParsePipeline | src/bin/day05_2.rs:108-135 | the pipeline parses exactly when all of its blocks do, one block each in order |
| Day05Seeds.ParseSeeds | src/bin/day05_2.rs:89-106 | the seed numbers parse exactly when their count is even, into closed ranges start..start+len-1 |
| Day05Seeds.CheckSeed | src/bin/day05_2.rs:15-22 | true exactly when some seed range holds the number |
| Day05Seeds.RemapFirst | src/bin/day05_2.rs:36-44 | a number is shifted by the first mapper whose source interval holds it |
| Day05Seeds.RemapNone | src/bin/day05_2.rs:43 | a number in no source interval is unchanged |
| Day05Seeds.InverseRemapLast | src/bin/day05_2.rs:45-53 | the inverse shifts back by the last mapper whose destination interval holds the number |
| Day05Seeds.InverseRemapNone | src/bin/day05_2.rs:52 | a number in no destination interval is unchanged by the inverse |
| Day05Seeds.RemapLoop | src/bin/day05_2.rs:36-44 | the loop computes the block's remap |
| Day05Seeds.InverseRemapLoop | src/bin/day05_2.rs:45-53 | the reversed loop computes the block's inverse remap |
| Day05Seeds.RemapRoundTrip | src/bin/day05_2.rs:36-53 | on a block shaped like a permutation, the inverse undoes the remap |
| Day05Seeds.InverseRoundTrip | src/bin/day05_2.rs:36-53 | on such a block, the remap undoes the inverse |
| Day05Seeds.LocationSnoc | src/bin/day05_2.rs:65-71 | one more block remaps the location reached so far |
| Day05Seeds.PipelineRoundTrip | src/bin/day05_2.rs:65-78 | through such blocks, `get_seed` undoes `get_location` and conversely |
| Day05Seeds.LocationLoop | src/bin/day05_2.rs:65-71 | the loop sends a seed through every block in order |
| Day05Seeds.SeedLoop | src/bin/day05_2.rs:72-78 | the loop sends a location back through the blocks in reverse order |
| Day05Seeds.Run | src/bin/day05_2.rs:79-86 | before each block its points join the set, and the set is then sent through the block |
| Day05Seeds.Lowest | src/bin/day05_2.rs:144-150 | the least candidate whose pulled-back seed is valid, or the sentinel when that is lower or none is valid |
| Day05Seeds.Solve | src/bin/day05_2.rs:137-152 | None exactly where parsing panics; otherwise the lowest accepted candidate pushed from the seed and mapper edge points |
| Day05Seeds.SolveCorrected | src/bin/day05_2.rs:137-152 | the same with each mapper's start and one-past-end as the points |
| Day05Seeds.SameShift | src/bin/day05_2.rs:36-44 | two numbers with no breakpoint between them are shifted alike |
| Day05Seeds.LargestBelow | src/bin/day05_2.rs:79-86 | a finite set holding a number at or below v has a largest element at or below v |
| Day05Seeds.ShiftWithin | src/bin/day05_2.rs:36-44 | every number between q and v shares q's shift when no breakpoint lies in between |
| Day05Seeds.OneBlock | src/bin/day05_2.rs:81-84 | the largest candidate at or below v carries the whole stretch up to v by one shift and stays a candidate |
| Day05Seeds.CandidateAtOrBelow | src/bin/day05_2.rs:79-86 | some seed between a candidate and any v reaches a candidate location no higher than v's |
| Day05Seeds.CorrectedIsLowestLocation | src/bin/day05_2.rs:137-152 | with the breakpoints and invertible blocks the answer is exactly the lowest location of a valid seed, and the sentinel only when there is none |
| Day05Seeds.SwapInvertible | src/bin/day05_2.rs:36-53 | the block swapping 0..9 and 20..29 is shaped like a permutation |
| Day05Seeds.SwapCandidates | src/bin/day05_2.rs:79-86 | the edge points of seeds 5..15 through that block give the candidates 0, 9, 15, 20, 25 and 29 |
| Day05Seeds.SwapAccepted | src/bin/day05_2.rs:145-149 | 15 is accepted and 0 and 9 are not |
| Day05Seeds.AsWrittenMissesBreakpoint | src/bin/day05_2.rs:54-59 | as written the answer on that input is 15, though seed 10 is valid and reaches location 10 |
| Day05Seeds.PickFifteen | src/bin/day05_2.rs:144-150 | the lowest accepted candidate of that set is 15 |
| Day05Seeds.SwapTen | src/bin/day05_2.rs:65-71 | seed 10 is valid and stays at location 10 |
| Day06Races.DistanceMirror | src/bin/day06_1.rs:42 | holding h or time-h covers the same distance |
| Day06Races.DistanceRises | src/bin/day06_1.rs:39-47 | up to the middle a longer hold goes strictly further |
| Day06Races.CountSplit | src/bin/day06_1.rs:41-47 | counting winning holds over a range splits at any midpoint |
| Day06Races.CountAllWin | src/bin/day06_1.rs:41-47 | a range where every hold wins counts its length |
| Day06Races.CountNoneWin | src/bin/day06_1.rs:41-47 | a range where no hold wins counts 0 |
| Day06Races.ClosedForm | src/bin/day06_1.rs:38-52 | if low is the shortest winning hold, the winning holds are exactly low..time-low, time+1-2*low of them |
| Day06Races.MiddleLoses | src/bin/day06_1.rs:41-47 | if the middle hold loses, no hold wins |
| Day06Races.WinStreakRun | src/bin/day06_1.rs:41-47 | the walk down from a hold counts a run of winning holds ending just above the first losing one |
| Day06Races.Ways | src/bin/day06_1.rs:38-52 | whenever some hold wins, the count is the number of winning holds from 0 to time; with none it is 0 for an odd time and -1 for an even one |
| Day06Races.StreakCounts | src/bin/day06_1.rs:41-51 | the streak from the middle gives the closed form of the number of winning holds |
| Day06Races.NumberOfWays | src/bin/day06_1.rs:38-52 | the loop with its break computes that count |
| Day06Races.Races | src/bin/day06_1.rs:31-35 | zipping stops at the shorter list and pairs equal positions |
| Day06Races.SolveRaces | src/bin/day06_1.rs:54-60 | the product of the races' counts |
| Day06Races.ProductOfCounts | src/bin/day06_1.rs:54-60 | when every race can be won, the answer is the product of the numbers of winning holds |
| Day06Races.Part1Example | src/bin/day06_1.rs:73-80 | the races 7/9, 15/40 and 30/200 give 288 |
| Day06Races.UnspacedAppend | src/bin/day06_2.rs:17-19 | dropping whitespace distributes over concatenation |
| Day06Races.UnspacedDigits | src/bin/day06_2.rs:17-19 | digits lose nothing when whitespace is dropped |
| Day06Races.DecimalAppend | src/bin/day06_2.rs:20 | the value of joined digit strings is the first shifted by the second's length plus the second |
| Day06Races.UnspacedSpaces | src/bin/day06_2.rs:18 | a run of whitespace disappears |
| Day06Races.UnspacedJoin | src/bin/day06_2.rs:17-19 | two digit groups around whitespace join into one string |
| Day06Races.DigitsAppend | src/bin/day06_2.rs:20 | joined digit strings are digits |
| Day06Races.JoinedOf | src/bin/day06_2.rs:11-21 | a line whose non-space text is a digit string reads as its value |
| Day06Races.JoinTwo | src/bin/day06_2.rs:11-21 | two digit groups separated by whitespace read as one number |
| Day06Races.SolveJoined | src/bin/day06_2.rs:52-55 | None exactly when a line does not read as a number; otherwise the count for the joined race |
| Day06Races.Part2Example | src/bin/day06_2.rs:68-75 | time 71530 and record 940200 give 71503 |
| Day07Camel.InsertCountBag | src/bin/day07_1.rs:58-59 | inserting a count adds exactly it to the counts |
| Day07Camel.BagBound | src/bin/day07_1.rs:58-59 | a lower bound on every count survives reordering |
| Day07Camel.InsertCountAscending | src/bin/day07_1.rs:59 | inserting into ascending counts keeps them ascending |
| Day07Camel.SortCountsSpec | src/bin/day07_1.rs:58-59 | the sorted counts are ascending and a permutation of the counts |
| Day07Camel.AscendingUnique | src/bin/day07_1.rs:58-59 | two ascending lists holding the same counts are equal, so the hash map's order of counts does not matter once sorted |
| Day07Camel.SameLeast | src/bin/day07_1.rs:59 | two ascending lists with the same values share their least value and the rest |
| Day07Camel.LeastIn | src/bin/day07_1.rs:59 | the head of an ascending list is at most any value it holds |
| Day07Camel.DropHead | src/bin/day07_1.rs:59 | dropping the head removes one copy of it |
| Day07Camel.SumSplit | src/bin/day07_1.rs:51-58 | count totals add over concatenation |
| Day07Camel.SumInsert | src/bin/day07_1.rs:59 | inserting a count adds it to the total |
| Day07Camel.SumSorted | src/bin/day07_1.rs:59 | sorting keeps the total of the counts |
| Day07Camel.Without | src/bin/day07_2.rs:72 | removing a card leaves no copy of it and every other card's multiplicity |
| Day07Camel.Counts | src/bin/day07_1.rs:51-58 | one positive count per distinct card, adding up to the number of cards |
| Day07Camel.FirstCount | src/bin/day07_1.rs:52-55 | the first card's count is its number of occurrences |
| Day07Camel.WithoutSize | src/bin/day07_2.rs:72 | removing a card shortens the hand by its multiplicity |
| Day07Camel.Tally | src/bin/day07_1.rs:51-55 | the counter holds exactly the hand's cards, each with its number of occurrences |
| Day07Camel.FiveCardPatterns | src/bin/day07_1.rs:61-84 | every ascending list of positive counts summing to 5 is one of the seven patterns, so the unreachable branch is never taken for five cards |
| Day07Camel.SumSmall | src/bin/day07_1.rs:61-84 | the total of at most three counts written out |
| Day07Camel.SumAtLeastLength | src/bin/day07_1.rs:61-84 | positive counts total at least their number |
| Day07Camel.SortedCountsFacts | src/bin/day07_1.rs:58-59 | sorted counts stay ascending, positive and of the same total |
| Day07Camel.FiveCardsTyped | src/bin/day07_1.rs:40-85 | every five-card hand has a type |
| Day07Camel.Power | src/bin/day07_1.rs:21-39 | a card has a power exactly when it is in the deck 2..A, and the power is its position there |
| Day07Camel.Powers | src/bin/day07_1.rs:38 | the powers exist exactly when every card has one, position by position |
| Day07Camel.ToFace | src/bin/day07_2.rs:42-65 | a card has a face exactly when it is in the joker deck, and the face's rank is its position there |
| Day07Camel.Faces | src/bin/day07_2.rs:42-65 | the faces exist exactly when every card has one, position by position |
| Day07Camel.JokerCounts | src/bin/day07_2.rs:66-80 | the jokers joined to the largest other count keep the total equal to the number of cards |
| Day07Camel.BumpLast | src/bin/day07_2.rs:79 | raising the largest count keeps the counts ascending and positive |
| Day07Camel.JokerCountsTyped | src/bin/day07_2.rs:66-99 | five cards with jokers still match a pattern, and five jokers are five of a kind |
| Day07Camel.JokerCountsShape | src/bin/day07_2.rs:66-80 | for five cards the counts with the jokers joined to the largest are ascending, each at least 1, and add up to 5 |
| Day07Camel.JokersOnly | src/bin/day07_2.rs:72-77 | a hand of only jokers leaves no other card |
| Day07Camel.LexTotal | src/bin/day07_1.rs:99 | the lexicographic order compares any two keys |
| Day07Camel.LexTrans | src/bin/day07_1.rs:99 | the lexicographic order is transitive |
| Day07Camel.Insert | src/bin/day07_1.rs:99 | inserting into a ranking keeps it ranked and adds exactly the entry |
| Day07Camel.BelowAll | src/bin/day07_1.rs:99 | an entry whose key is below the first key of a ranking is below every key of it |
| Day07Camel.HeadBelowTail | src/bin/day07_1.rs:99 | the first entry of a ranking stays at or below every entry of the rest with a larger-or-equal entry inserted |
| Day07Camel.PrependRanked | src/bin/day07_1.rs:99 | putting an entry at or below all of a ranking in front keeps it ranked |
| Day07Camel.Rank | src/bin/day07_1.rs:99 | the sort yields a ranking that is a permutation of the hands |
| Day07Camel.InsertStable | src/bin/day07_1.rs:99 | inserting an entry puts it after every entry with its key and keeps their order |
| Day07Camel.RankStable | src/bin/day07_1.rs:99 | the sort is stable: the hands sharing a key come out in their input order |
| Day07Camel.Key1Defined | src/bin/day07_1.rs:11-20 | every five-card hand over the deck gets a part-1 key |
| Day07Camel.Key2Defined | src/bin/day07_2.rs:37-41 | every five-card hand over the joker deck gets a part-2 key |
| Day07Camel.SolveDefined | src/bin/day07_2.rs:110-119 | five-card hands over the deck always produce an answer |
| Day07Camel.LexRefl | src/bin/day07_2.rs:113 | every key is at most itself |
| Day07Camel.LexAntisym | src/bin/day07_2.rs:113 | keys at most each other are equal |
| Day07Camel.RankedUnique | src/bin/day07_1.rs:96-105 | two rankings of the same hands with distinct keys are equal |
| Day07Camel.SameHead | src/bin/day07_1.rs:99 | two such rankings start with the same hand |
| Day07Camel.RankOrderFree | src/bin/day07_1.rs:96-105 | with distinct keys the ranking, and so the winnings, does not depend on the input order |
| Day07Camel.KeysStayDistinct | src/bin/day07_1.rs:99 | sorting keeps keys distinct |
| Day07Camel.OnlyOnce | src/bin/day07_1.rs:99 | with distinct keys every entry occurs once |
| Day08Network.ParseNode | src/bin/day08_1.rs:9-14 | a node line parses exactly when it reaches column 15, into the three-character name and successors read at columns 0, 7 and 12 |
| Day08Network.ParseNetwork | src/bin/day08_1.rs:7-15 | the network parses exactly when every line does, and its names are exactly the lines' names |
| Day08Network.Move | src/bin/day08_1.rs:25-29 | a move exists exactly for a known node and an 'L' or 'R' instruction, and takes the left or the right successor |
| Day08Network.SimulateWalk | src/bin/day08_2.rs:3-23 | the loop's outcome is the walk's outcome |
| Day08Network.WalkFromMeaning | src/bin/day08_1.rs:17-31 | from any point of the walk: an arrival is the first move count at an end node, a panic means no arrival ever, and a spent budget means none yet |
| Day08Network.NoneStays | src/bin/day08_1.rs:25-29 | once a move has panicked every later position is undefined |
| Day08Network.WalkMeaning | src/bin/day08_2.rs:3-23 | an arrival is the number of moves to the first end node; Stuck means no arrival ever; OutOfFuel means none within the budget |
| Day08Network.ArrivalUnique | src/bin/day08_1.rs:20-23 | the first arrival is unique |
| Day08Network.WalkComplete | src/bin/day08_2.rs:11-21 | an arrival within the budget is always reported |
| Day08Network.Rem | src/bin/day08_2.rs:28 | Rust's remainder is smaller in size than the divisor, and agrees with the mathematical one on non-negative operands |
| Day08Network.Gcd | src/bin/day08_2.rs:25-31 | the loop computes Euclid's gcd |
| Day08Network.Bezout | src/bin/day08_2.rs:25-31 | the gcd of naturals is an integer combination of them |
| Day08Network.GcdDivides | src/bin/day08_2.rs:25-31 | the gcd divides both numbers |
| Day08Network.GcdGreatest | src/bin/day08_2.rs:25-31 | every common divisor divides the gcd |
| Day08Network.GcdPositive | src/bin/day08_2.rs:25-31 | the gcd of naturals is non-negative, and 0 only for two zeros |
| Day08Network.DividesTrans | src/bin/day08_2.rs:33-35 | divisibility is transitive |
| Day08Network.DividesAntisym | src/bin/day08_2.rs:33-35 | positive numbers dividing each other are equal |
| Day08Network.LcmSpec | src/bin/day08_2.rs:33-35 | for positive numbers `lcm` is positive and its multiples are exactly the common multiples |
| Day08Network.LcmQuot | src/bin/day08_2.rs:34 | the truncating division gives the exact quotient |
| Day08Network.CommonMultiple | src/bin/day08_2.rs:33-35 | every common multiple is a multiple of a*b/gcd |
| Day08Network.LcmFoldSpec | src/bin/day08_2.rs:57-59 | folding `lcm` over positive counts gives a positive number whose multiples are exactly the common multiples of all of them |
| Day08Network.LcmFoldOrderFree | src/bin/day08_2.rs:57-59 | the fold's result depends only on which counts occur, not on their order |
| Day08Network.ArrivedAfter | src/bin/day08_2.rs:11-22 | a walk not starting on an end node takes at least one step |
| Day08Network.StartCounts | src/bin/day08_2.rs:9-22 | a walk from a start node (a name ending in 'A') takes at least one step unless the instruction line is empty |
| Day08Network.WalkCounts | src/bin/day08_2.rs:51-55 | the counts exist exactly when every walk arrives, are the walks' counts in order, and are positive when the instruction line is not empty |
| Day08Network.Solve2OrderFree | src/bin/day08_2.rs:37-61 | whatever order the map yields its start nodes in, the answer is the same, with or without instructions |
| Day08Network.StepsOrderFree | src/bin/day08_2.rs:37-61 | with a non-empty instruction line the answer depends only on which start nodes there are, not on their order or repetition |
| Day08Network.EmptySteps | src/bin/day08_2.rs:11-59 | with an empty instruction line the cycle yields nothing, every walk counts 0, and the answer is 1 without start nodes, 0 with one, and a panic (None) with more, from the division by `gcd(0, 0)` |
| Day08Network.DistinctCard | src/bin/day08_2.rs:51-54 | a listing of map keys without repetition has as many entries as distinct keys |
| Day08Network.SameLength | src/bin/day08_2.rs:51-54 | two repetition-free listings of the same keys are equally long |
| Day08Network.GcdLcmExamples | src/bin/day08_2.rs:90-106 | gcd(8,12)=4, gcd(12,8)=4, gcd(1,3)=1, gcd(20,4)=4, gcd(11,11)=11, and the six lcm values of the tests |
| Day08Network.Part1Example1 | src/bin/day08_1.rs:44-59 | the first network takes 2 steps |
| Day08Network.Part1Example2 | src/bin/day08_1.rs:60-71 | the second network takes 6 steps |
| Day08Network.Part2Example | src/bin/day08_2.rs:73-89 | the ghost walks take 2 and 3 steps, so the answer is 6 in whichever order the starts come |
| Day08Network.ListedCounts | src/bin/day08_2.rs:73-89 | in the example network the walks from 11A and 22A take 2 and 3 steps |
| Day09Mirage.Diffs | src/bin/day09_2.rs:20-23 | the row of differences is one shorter than a non-empty row |
| Day09Mirage.DiffsAt | src/bin/day09_2.rs:21-22 | each difference is the next value minus the current one |
| Day09Mirage.BuildDiffs | src/bin/day09_2.rs:20-23 | the zip loop builds the row of adjacent differences |
| Day09Mirage.LevelStep | src/bin/day09_2.rs:24 | the (k+1)-th row of differences is the k-th row of the first differences |
| Day09Mirage.ZeroStays | src/bin/day09_2.rs:16-19 | every row of differences below a zero row is zero |
| Day09Mirage.LevelLength | src/bin/day09_2.rs:20-23 | the k-th row of differences is k shorter |
| Day09Mirage.DiffsCons | src/bin/day09_2.rs:21-22 | a value put in front adds its difference in front of the row of differences |
| Day09Mirage.PredictDefined | src/bin/day09_2.rs:14-26 | the recursion succeeds exactly when a zero row comes before the rows run out of elements |
| Day09Mirage.DepthBound | src/bin/day09_2.rs:14-26 | a successful recursion is no deeper than the history is long |
| Day09Mirage.ExtrapolationFits | src/bin/day09_2.rs:14-26 | the history with the predicted value in front reaches a zero row at the same depth |
| Day09Mirage.FitsStep | src/bin/day09_2.rs:24-25 | one level of that argument |
| Day09Mirage.ExtendedDiffs | src/bin/day09_2.rs:25 | the differences of the extended history are the extended differences |
| Day09Mirage.ExtrapolationUnique | src/bin/day09_2.rs:14-26 | two rows differing only in their first value with zero rows at the same depth are equal |
| Day09Mirage.PredictionMeaning | src/bin/day09_2.rs:28-34 | the value added up for a history is the unique value that, put in front, keeps its difference table ending in a zero row at the same depth |
| Day09Mirage.SingleValuePanics | src/bin/day09_2.rs:25 | a single non-zero value leaves an empty row whose first element is missing |
| Day09Mirage.SolveDefined | src/bin/day09_2.rs:28-34 | the solver succeeds exactly when every history is non-empty and extrapolable |
| Day20Pulses.Receive | src/bin/day20_1.rs:27-59 | the broadcaster forwards nothing; a flip-flop ignores a high pulse and on a low one toggles and emits its new state; a conjunction records the pulse for the sender, keeps its senders and emits low exactly when it remembers only highs |
| Day20Pulses.Fanout | src/bin/day20_1.rs:153-155 | one queued pulse per destination, in order, from the emitter |
| Day20Pulses.CountLoAppend | src/bin/day20_1.rs:142-145 | low pulses of two queues add up |
| Day20Pulses.Deliver | src/bin/day20_1.rs:140-156 | delivery keeps the network well wired and its module names; a pulse to a name without a module changes nothing and emits nothing |
| Day20Pulses.Drain | src/bin/day20_1.rs:139-157 | draining keeps the network well wired; a quiet end has counted every queued and every emitted pulse exactly once, the low ones on the low counter |
| Day20Pulses.PressSpec | src/bin/day20_1.rs:127-159 | a press fails exactly when there is no broadcaster; a quiet press counts the button's pulse, one low pulse per broadcaster destination and every emitted pulse |
| Day20Pulses.AllLoCount | src/bin/day20_1.rs:136-138 | the broadcaster's queue is all low pulses |
| Day20Pulses.Presses | src/bin/day20_1.rs:173-177 | the state after each press carries to the next, and n presses send at least n low pulses |
| Day20Pulses.SteadyPresses | src/bin/day20_1.rs:173-177 | when a press leaves every module as it found it, n presses count n times its pulses |
| Day20Pulses.DrainStep | src/bin/day20_1.rs:139-157 | draining delivers the head of the queue, counts it and appends what it emits |
| Day20Pulses.Enqueue | src/bin/day20_1.rs:153-155 | the queue gains the fan-out at its back |
| Day20Pulses.Machine.constructor | src/bin/day20_1.rs:162 | the machine starts from the parsed modules and wiring |
| Day20Pulses.Machine.SendPulse | src/bin/day20_1.rs:27-59 | the module under the name is replaced in place by its reaction, nothing else changes, and the reaction's output is returned |
| Day20Pulses.Machine.Deliver1 | src/bin/day20_1.rs:140-156 | one delivery updates the modules in place as the delivery function says and returns what it emitted |
| Day20Pulses.Machine.DrainQueue | src/bin/day20_1.rs:139-157 | the queue loop ends in the modules and counts the drain function gives |
| Day20Pulses.Machine.Press | src/bin/day20_1.rs:127-159 | one press updates the modules in place as the press function says |
| Day20Pulses.Machine.PressMany | src/bin/day20_1.rs:173-177 | the loop of presses accumulates the totals the presses function gives, state carried over |
| Day20Pulses.Initial | src/bin/day20_1.rs:99-110 | a module is a conjunction exactly when its prefix is neither 'b' nor '%', and a conjunction remembers exactly the given senders |
| Day20Pulses.ModulesOf | src/bin/day20_1.rs:90-123 | one module per declared name, each connected to its senders |
| Day20Pulses.BuiltWellWired | src/bin/day20_1.rs:62-125 | the parsed network gives every module a destination list and every conjunction exactly its senders |
| Day20Pulses.BuiltConj | src/bin/day20_1.rs:114-123 | a parsed conjunction's memory holds exactly the modules whose destination lists name it |
| Day20Pulses.ConjMemory | src/bin/day20_1.rs:114-123 | a conjunction's memory holds exactly the modules that list it as a destination |
| Day20Pulses.ParseSpec | src/bin/day20_1.rs:62-125 | a parsed network is well wired, declares every name it wires, starts flip-flops low and conjunctions remembering low from every sender |
| Day20Pulses.PushAllContents | src/bin/day20_1.rs:85-87 | recording one line's destinations adds the sender to each of them |
| Day20Pulses.InverseSenders | src/bin/day20_1.rs:70-88 | `out2ins` names exactly the destinations that have senders, with exactly those senders |
| Day20Pulses.KindsWiringKeys | src/bin/day20_1.rs:70-112 | the declared names of both passes agree, and every kind is a known prefix |
| Day20Pulses.IndexLines | src/bin/day20_1.rs:70-88 | the first pass fails exactly on an empty left-hand side, and otherwise builds the destination lists and the sender lists |
| Day20Pulses.PushOuts | src/bin/day20_1.rs:85-87 | the inner loop appends the sender's name to the sender list of each destination, in order |
| Day20Pulses.IndexStep | src/bin/day20_1.rs:72-88 | one more line with a prefix extends the destination lists and the sender lists by exactly that line |
| Day20Pulses.DeclareModules | src/bin/day20_1.rs:90-112 | the second pass fails exactly on an unknown prefix, and otherwise declares one module per name, the last declaration winning |
| Day20Pulses.ShellsSnoc | src/bin/day20_1.rs:91-111 | one more line declares its module under its name, replacing any earlier declaration |
| Day20Pulses.RememberLow | src/bin/day20_1.rs:119-121 | the memory remembers a low pulse from exactly the given senders |
| Day20Pulses.ConnectConjunctions | src/bin/day20_1.rs:114-123 | the third pass fails exactly when a conjunction has no sender, and otherwise connects every conjunction to its senders |
| Day20Pulses.ConnectOne | src/bin/day20_1.rs:115-121 | a conjunction gets a low memory for each of its senders and fails when it has none; any other module stays as declared |
| Day20Pulses.ConnectStep | src/bin/day20_1.rs:114-123 | connecting one more module keeps the declared modules as they were and the connected ones connected |
| Day20Pulses.ConnectDone | src/bin/day20_1.rs:114-123 | once every module is handled the modules are the connected ones and every conjunction has a sender |
| Day20Pulses.Parse | src/bin/day20_1.rs:62-125 | the three passes compute the parse function |
| Day20Pulses.AccumulateTwice | src/bin/day20_1.rs:175-176 | adding totals twice is adding their sums |
| Day20Pulses.PressesStep | src/bin/day20_1.rs:173-177 | n presses are one press followed by n-1 from the state it leaves |
| Day20Pulses.PressFold | src/bin/day20_1.rs:173-177 | a failed press fails the whole run; otherwise m presses from the old totals equal m-1 presses from the totals after that press |
| Day20Pulses.Solve | src/bin/day20_1.rs:161-179 | the product of the low and high totals of 1000 presses, or None where parsing or a press fails |
| Day10Pipes.FindStart | src/bin/day10_1.rs:18-27 | the first 'S' in row-major order: no earlier cell holds 'S', and (0, 0) is returned only when there is none |
| Day10Pipes.StartUnique | src/bin/day10_1.rs:18-27 | a grid has exactly one start cell |
| Day10Pipes.StartPipeMeaning | src/bin/day10_1.rs:28-72 | 'S' is replaced by the first of \|, -, F, 7, L, J whose two ends both lead to a pipe opening back towards it; the source's `unreachable!` (None) happens exactly when none fits |
| Day10Pipes.FitsByCase | src/bin/day10_1.rs:29-69 | the ups/downs/lefts/rights tables are exactly "the neighbour opens back towards S", for each of the six pipes |
| Day10Pipes.AsWrittenMissesColumnOne | src/bin/day10_1.rs:40-45 | with the left check as written (`x - 1 > 0`), a start in column 1 joined left and right falls through to `unreachable!`; the corrected check gives '-' |
| Day10Pipes.StartExamples | src/bin/day10_1.rs:184-234 | the start tiles of the two test grids become 'F' |
| Day10Pipes.Placed | src/bin/day10_1.rs:46-72 | writing the chosen pipe over the start keeps the grid rectangular, puts a pipe at the start and leaves every other cell as it was |
| Day10Pipes.Parse | src/bin/day10_1.rs:13-74 | the start is the first 'S' in row-major order, or (0, 0) when there is none; the grid comes back with only that cell changed, to the pipe StartPipe picks; None exactly when no pipe fits (the source's `unreachable!`) |
| Day10Pipes.Target | src/bin/day10_1.rs:132-158 | a step goes only in a direction the current pipe opens towards, stays inside the grid, and never lands on '.' |
| Day10Pipes.Pushes | src/bin/day10_1.rs:132-161 | every pushed entry is one unit further, is not yet visited, and is one search step from the popped cell |
| Day10Pipes.PushesComplete | src/bin/day10_1.rs:132-161 | every direction that leads to an unvisited cell is pushed |
| Day10Pipes.PushNeighbours | src/bin/day10_1.rs:132-161 | the inner loop over UP, DOWN, LEFT, RIGHT appends exactly Pushes |
| Day10Pipes.Bfs | src/bin/day10_1.rs:106-165 | the popped entries are exactly the source's trace (Trace) and `drained` says whether it empties its queue (Drains); the popped distances never decrease, so `farthest` (the last one popped) is the largest; every popped cell is a pipe and was found from an earlier one; when the queue empties, every step out of a popped cell leads to a popped cell and every popped distance is a shortest distance from the start (Shortest); a stop on a popped cell that is no pipe (the source's panicking lookup of its directions) means a step out of a popped pipe led onto it; otherwise an undrained search popped `fuel` cells |
| Day10Pipes.Run | src/bin/day10_1.rs:121-165 | the source's search as a function of its queue: it stops at or after the entry it started from and no later than the end of the queue |
| Day10Pipes.RunStep | src/bin/day10_1.rs:125-161 | popping a pipe with fuel left is one pass of the loop: the visited set gains the popped cell and its unvisited neighbours are queued one unit further |
| Day10Pipes.Search | src/bin/day10_1.rs:121-165 | the loop of `bfs` stops with an empty queue, after `fuel` pops, or at a popped cell that is no pipe; its queue is still the source's search (Run) and its entries keep the search state, parities, one distance per cell and relaxed steps |
| Day10Pipes.TraceOutcome | src/bin/day10_1.rs:121-165 | where the loop stops, the popped entries are the trace and the queue is drained exactly when it is empty and the last pop was no panic |
| Day10Pipes.BfsOutcome | src/bin/day10_1.rs:121-165 | the popped entries are the trace, start at the start with distance 0, ascend, lie on pipes and were found from earlier ones; `farthest` is the last distance popped |
| Day10Pipes.BfsVerdict | src/bin/day10_1.rs:121-165 | a drained search leaves the popped entries closed under steps and at shortest distances; a stop at a cell that is no pipe means they leak |
| Day10Pipes.AdjacentParity | src/bin/day10_1.rs:132-158 | a search step changes row plus column by an odd amount |
| Day10Pipes.ConsistentStep | src/bin/day10_1.rs:132-161 | a cell queued twice is queued at the same distance both times |
| Day10Pipes.RelaxedStep | src/bin/day10_1.rs:125-161 | after a pop, every step out of a popped cell leads to a cell whose entries are at most one unit further |
| Day10Pipes.LevelStep | src/bin/day10_1.rs:125-161 | one pass of the loop keeps each entry's distance of the parity of its cell, one distance per cell and every step out of a popped cell at most one unit further |
| Day10Pipes.ChainBound | src/bin/day10_1.rs:121-165 | in a drained search, the distance popped for a cell is at most the length of any chain of steps from the start to it |
| Day10Pipes.ShortestDrained | src/bin/day10_1.rs:121-165 | a drained search pops shortest distances |
| Day10Pipes.Expand | src/bin/day10_1.rs:126-161 | one pass after popping a pipe: the popped cell joins the visited set, its unvisited neighbours are queued one unit further, and the search state is kept |
| Day10Pipes.PopStep | src/bin/day10_1.rs:125-161 | one pass of the loop, popping a pipe, keeps the FIFO ascending with a spread of at most one unit, every entry traced to an earlier one, every popped cell a pipe, and the explored cells closed under steps into the queue; the visited set grows by exactly the popped cell |
| Day10Pipes.PanicLeaks | src/bin/day10_1.rs:125-135 | a cell about to be popped that is no pipe was reached by a step out of an already popped pipe |
| Day10Pipes.PathTo | src/bin/day10_1.rs:123-160 | each recorded distance is the length of a chain of search steps from the start |
| Day10Pipes.ReachesAll | src/bin/day10_1.rs:125-162 | a search that drains its queue has popped every cell reachable from the start by search steps |
| Day10Pipes.FarthestMeaning | src/bin/day10_1.rs:121-165 | the answer of a drained search at shortest distances is the largest distance popped, is the length of a chain of search steps from the start to the last popped cell, no shorter chain reaches that cell, and every cell such a chain reaches was popped |
| Day10Pipes.DrainedSafe | src/bin/day10_1.rs:132-158 | a drained search never steps onto a cell that is no pipe, so the lookup of directions never panics on it |
| Day10Pipes.Solve1 | src/bin/day10_1.rs:167-171 | the answer is the last (largest) distance of the source's search from the start of the grid with its pipe put in, once that search drains (its entries are then at shortest distances); no answer only where no pipe fits the start, or that search does not drain, having stepped onto a cell that is no pipe (both panics in the source) or popped `fuel` cells |
| Day10Pipes.MainLoop | src/bin/day10_2.rs:76-133 | there is a grid exactly when the source's search from the start drains; it is the same-shape grid that keeps the pipe of every popped cell and is '.' elsewhere; no grid only where that search steps onto a cell that is no pipe or pops `fuel` cells |
| Day10Pipes.CopyCells | src/bin/day10_2.rs:78-99 | a grid of '.' of the same shape with the pipe of every listed cell copied in, and nothing else |
| Day10Pipes.MaskAdd | src/bin/day10_2.rs:96-99 | writing a popped cell's pipe into the loop grid unmasks exactly that cell |
| Day10Pipes.Raycast | src/bin/day10_2.rs:135-171 | the count is the sum over rows of the '.' cells met while inside, each row scanned from a fresh state |
| Day10Pipes.WallRun | src/bin/day10_2.rs:153-164 | a wall run L…7 or F…J started after '.', '7', 'J' or '\|' flips the parity, F…7 and L…J do not, and a run never counts cells |
| Day10Pipes.WallAndField | src/bin/day10_2.rs:143-160 | '\|' flips the parity; a '.' is counted exactly when inside |
| Day10Pipes.Solve2 | src/bin/day10_2.rs:173-178 | the answer is the parity count Inside of the grid that keeps only the cells the source's search pops, once it drains (at shortest distances); no answer exactly in the cases where part 1 has none |
| Day11Galaxies.ManhattanMetric | src/bin/day11_1.rs:9-11 | the distance \|dy\|+\|dx\| is symmetric, zero exactly between equal points, and obeys the triangle inequality |
| Day11Galaxies.EmptyLines | src/bin/day11_1.rs:22-40 | a row is flagged iff all its cells are '.', a column iff none of its cells is '#' |
| Day11Galaxies.CumSumAt | src/bin/day11_1.rs:42-55 | each running total is the number of flagged lines at or before its index |
| Day11Galaxies.StarsComplete | src/bin/day11_1.rs:57-67 | every '#' of the image is among the listed galaxies (and every listed galaxy is a '#') |
| Day11Galaxies.Parse | src/bin/day11_2.rs:14-75 | the galaxies in row-major order, each at index + (multiplier - 1) × running count of empty lines |
| Day11Galaxies.ExpandNextRow | src/bin/day11_2.rs:57-68 | one more row appends exactly its galaxies' expanded positions to those of the rows before |
| Day11Galaxies.ExpandedGap | src/bin/day11_2.rs:57-67 | two lines a ≤ b end up (b - a) + (multiplier - 1) × (empty lines after a up to b) apart |
| Day11Galaxies.MultiplierOne | src/bin/day11_2.rs:123-124 | multiplier 1 leaves every galaxy where it is in the image |
| Day11Galaxies.ShortestPaths | src/bin/day11_1.rs:75-84 | the loops add the distance of every pair i < j exactly once |
| Day11Galaxies.PairsHalfOfAll | src/bin/day11_2.rs:77-86 | twice the loops' total is the sum over all ordered pairs, so each unordered pair counts once |
| Day11Galaxies.Solve | src/bin/day11_2.rs:88-95 | the answer is half the sum of distances over all ordered pairs of expanded galaxies; part 1 is multiplier 2 |
| Day12Paint.FirstOpr | src/bin/day12_1.rs:65-70 | the offset of the first operational spring in the window, with none before it; None only when the window has none |
| Day12Paint.SkipBlocked | src/bin/day12_1.rs:63-74 | jumping past the first operational spring in the window skips only start positions that count nothing |
| Day12Paint.PaintGroup | src/bin/day12_1.rs:76-78 | the group's cells become damaged and nothing else changes |
| Day12Paint.WashGroup | src/bin/day12_1.rs:82-84 | the group's cells are copied back from the row and nothing else changes |
| Day12Paint.PaintAndRecurse | src/bin/day12_1.rs:75-84 | one free position counts the placements of the later groups from one cell past the gap, and the buffer comes back unchanged |
| Day12Paint.TryPositions | src/bin/day12_1.rs:57-88 | the loop with its jumps adds up the same counts as trying every start position one by one, and leaves the buffer as it found it |
| Day12Paint.TryAt | src/bin/day12_1.rs:64-86 | one pass of the loop body counts the placements from start position i up to the next position it moves to, moves forward, and leaves the buffer as it found it |
| Day12Paint.FindCombinations | src/bin/day12_1.rs:31-89 | with every group placed, 1 exactly when the damaged runs of the buffer are the groups; otherwise the sum over start positions; the buffer is restored |
| Day12Paint.Solve | src/bin/day12_1.rs:91-103 | the total over rows of the count from a fresh copy of each row |
| Day12Arrangements.CountIsLength | src/bin/day12_2.rs:90-131 | the recursion's count is the number of filled-in rows it builds |
| Day12Arrangements.Sound | src/bin/day12_2.rs:55-128 | every built row fills in exactly the unknown springs, and with positive groups its damaged runs are the groups |
| Day12Arrangements.Complete | src/bin/day12_2.rs:55-128 | every filling-in whose damaged runs are the (positive) groups is built |
| Day12Arrangements.Distinct | src/bin/day12_2.rs:112-128 | with positive groups no row is built twice |
| Day12Arrangements.CombinationsMeaning | src/bin/day12_2.rs:90-131 | `calculate_combinations` is the number of ways to fill in the unknown springs so that the damaged runs are the groups |
| Day12Arrangements.Memo.CalculateCombinations | src/bin/day12_2.rs:90-131 | with a table whose entries are all correct, the result is the memo-free count and the table stays correct and only grows |
| Day12Arrangements.Memo.Skip | src/bin/day12_2.rs:47-53 | the count for the row without its first cell |
| Day12Arrangements.Memo.Lay | src/bin/day12_2.rs:55-87 | 0 with no group, too little row, a '.' under the group or a '#' right after it; otherwise the count after the group and its separator |
| Day12Arrangements.CalculateWithFreshMemo | src/bin/day12_2.rs:133-136 | a fresh table gives the memo-free count |
| Day12Arrangements.Parse | src/bin/day12_2.rs:18-45 | the row joined `copies` times with '?' between copies, and the groups repeated `copies` times |
| Day12Arrangements.JoinedLayout | src/bin/day12_2.rs:36-40 | copy k of the row starts at k·(length + 1), right after a '?' |
| Day12Arrangements.RepeatedLayout | src/bin/day12_2.rs:41 | copy k of the groups starts at k·(number of groups) |
| Day12Arrangements.Solve | src/bin/day12_2.rs:138-144 | the sum over lines of the count of the unfolded line |
| Day12Arrangements.PythonAgrees | other/day12_2.py:16-73 | on rows of '.', '#', '?' the Python recursion gives the same count as the Rust one |
| Day12Arrangements.PythonErrors | other/day12_2.py:59-72 | `RuntimeError` is raised only when some character is not a spring, and always when the first one is not |
| Day12Arrangements.PythonParseAgrees | other/day12_2.py:4-13 | with at least one copy the Python unfolding is the Rust one; with none it is the empty row and no groups |
| Day13Mirrors.FindHorizontalMirror | src/bin/day13_1.rs:15-36 | the line count (row index + 1) of the first row after which every pair of rows out to the nearer edge agrees; no earlier row is such a mirror; None exactly when no row is |
| Day13Mirrors.FindVerticalMirror | src/bin/day13_1.rs:37-58 | the same for columns: the first column after which every pair of columns out to the nearer edge agrees, or None when none does |
| Day13Mirrors.RowPairMatches | src/bin/day13_1.rs:21-26 | the column loop reports exactly whether the i-th pair of rows around the mirror agrees in every column |
| Day13Mirrors.ColumnPairMatches | src/bin/day13_1.rs:43-48 | the row loop reports exactly whether the j-th pair of columns around the mirror agrees in every row |
| Day13Mirrors.FirstRow | src/bin/day13_1.rs:15-36 | the line count of the first row, at or after the given one, after which the pattern mirrors; None exactly when no row from there on does |
| Day13Mirrors.FirstColumn | src/bin/day13_1.rs:37-58 | the same for the first mirroring column at or after the given one |
| Day13Mirrors.ColumnsAreTransposedRows | src/bin/day13_1.rs:37-58 | a vertical mirror after column m is exactly a horizontal mirror after row m of the transposed pattern |
| Day13Mirrors.MirrorReflects | src/bin/day13_1.rs:17-33 | a horizontal mirror makes row m - i equal to row m + 1 + i wherever both exist |
| Day13Mirrors.Score | src/bin/day13_1.rs:77-81 | a pattern scores exactly when it has one kind of mirror and not the other: 100 per row above a horizontal mirror, or 1 per column left of a vertical one |
| Day13Mirrors.Solve | src/bin/day13_1.rs:70-84 | 100 per row above the horizontal mirror or 1 per column left of the vertical one, summed over patterns; a panic (None) as soon as a pattern has both or neither |
| Day14Tilt.RoundsConcat | src/bin/day14_1.rs:34-60 | the round rocks of two pieces of a column add up |
| Day14Tilt.FillRounds | src/bin/day14_1.rs:47-53 | a packed segment holds exactly the round rocks it was packed from |
| Day14Tilt.LastSquareIs | src/bin/day14_1.rs:46-58 | a square rock with no square rock after it is the last one |
| Day14Tilt.Tilt | src/bin/day14_2.rs:18-48 | a tilted line is as long as the line (what it holds: TiltStep, TiltKeepsRocks, TiltIdempotent) |
| Day14Tilt.TiltStep | src/bin/day14_1.rs:34-68 | a square-free run after the edge or a square rock tilts to its round rocks packed at its start, the cells before it unchanged |
| Day14Tilt.TiltAppendSquare | src/bin/day14_1.rs:46-58 | a square rock at the end of a line stays put and does not change how the rest tilts |
| Day14Tilt.TiltSegments | src/bin/day14_1.rs:46-58 | a square rock splits a line into two parts that tilt independently |
| Day14Tilt.TiltKeepsRocks | src/bin/day14_2.rs:18-48 | tilting moves no square rock and keeps the number of round rocks |
| Day14Tilt.TiltIdempotent | src/bin/day14_2.rs:18-48 | tilting a tilted line changes nothing |
| Day14Tilt.WeighConcat | src/bin/day14_1.rs:29-68 | the load of a line is the load of its head plus the load of its tail counted from where the tail starts |
| Day14Tilt.StackFormula | src/bin/day14_1.rs:50-53 | the series formula `(b + (b - n + 1)) * n / 2` is the sum b + (b - 1) + … of n stacked round rocks (its division is exact) |
| Day14Tilt.WeighFill | src/bin/day14_1.rs:47-53 | the load of a packed segment is the series sum of its round rocks from the segment's first weight |
| Day14Tilt.SegmentLoad | src/bin/day14_1.rs:34-68 | the load of a tilted prefix is the load before the open segment plus the load of the segment packed |
| Day14Tilt.PastSquare | src/bin/day14_1.rs:46-58 | passing a square rock adds no load and opens an empty segment |
| Day14Tilt.SegmentGrows | src/bin/day14_1.rs:40-45 | air and round rocks keep the segment square-free; a round rock adds one to `round_rock_count` |
| Day14Tilt.SegmentCloses | src/bin/day14_1.rs:47-53 | closing a segment with n round rocks adds the series sum from `h - start_pos`, nothing when n is 0 |
| Day14Tilt.AddGroup | src/bin/day14_1.rs:47-54 | the `if round_rock_count > 0` block turns the load of the tilted column before the segment into the load including it |
| Day14Tilt.CountingGrows | src/bin/day14_1.rs:39-45 | an air cell or a round rock keeps the scan state, counting the round rock |
| Day14Tilt.CountingCloses | src/bin/day14_1.rs:55-57 | after a square rock the scan resumes with an empty segment and `is_after_square_rock` set |
| Day14Tilt.ColumnLoad | src/bin/day14_1.rs:30-68 | the inner loop over one column sums the load of that column after it is tilted north |
| Day14Tilt.TiltNorthLoad | src/bin/day14_1.rs:26-71 | `tilt_north` is the load on the north beams of the platform tilted north, and also the sum of the column loads |
| Day14Tilt.Tilted | src/bin/day14_2.rs:18-141 | the tilted platform keeps the platform's shape, and each cell holds, at its place on its line, the cell of that line tilted |
| Day14Tilt.TiltedLines | src/bin/day14_2.rs:18-141 | each line of the tilted platform is that line tilted on its own |
| Day14Tilt.TiltedIdempotent | src/bin/day14_2.rs:18-141 | tilting the platform twice toward the same edge is tilting it once |
| Day14Tilt.TiltedKeepsSquares | src/bin/day14_2.rs:18-141 | tilting the platform moves no square rock, in either direction of the if-and-only-if |
| Day14Tilt.TiltedKeepsRounds | src/bin/day14_2.rs:18-141 | tilting keeps the number of round rocks on every line |
| Day14Tilt.LoadByColumns | src/bin/day14_2.rs:148-162 | `get_score`'s row-by-row sum equals the column-by-column sum |
| Day14Tilt.TiltNorthIsLoad | src/bin/day14_1.rs:26-71 | the part 1 column sums of the tilted columns are `get_score` of the north-tilted platform |
| Day14Spin.ScanSquare | src/bin/day14_2.rs:33-44 | at a square rock the pending round rocks are put back at `start_pos` and the line so far is the tilted prefix |
| Day14Spin.ScanEnd | src/bin/day14_2.rs:45-47 | the final `for k in start_pos..start_pos+round_rock_count` leaves the line exactly tilted |
| Day14Spin.CycleSteps | src/bin/day14_2.rs:142-147 | a spin cycle is north, west, south, then east |
| Day14Spin.Engine.Put | src/bin/day14_2.rs:29-46 | one write into the grid changes that cell of the line and no other cell |
| Day14Spin.Engine.StackGroup | src/bin/day14_2.rs:36-38 | the loop writing `Round` from `start_pos` puts back the counted round rocks and leaves other lines alone |
| Day14Spin.Engine.Visit | src/bin/day14_2.rs:22-44 | one pass of the inner loop keeps the scan state of the line |
| Day14Spin.Engine.ScanLine | src/bin/day14_2.rs:22-44 | the inner loop over a line ends in the scan state of the whole line, touching no other line |
| Day14Spin.Engine.PackLine | src/bin/day14_2.rs:20-47 | after one line is processed it holds that line tilted and no other cell changed |
| Day14Spin.Engine.Roll | src/bin/day14_2.rs:18-141 | `north`, `west`, `south` and `east` leave the grid tilted toward their edge |
| Day14Spin.Engine.PackNext | src/bin/day14_2.rs:20-47 | after line k is packed, the lines up to k hold the tilted platform and the others are untouched |
| Day14Spin.Engine.North | src/bin/day14_2.rs:18-48 | the grid becomes the platform tilted north |
| Day14Spin.Engine.West | src/bin/day14_2.rs:49-79 | the grid becomes the platform tilted west |
| Day14Spin.Engine.South | src/bin/day14_2.rs:80-110 | the grid becomes the platform tilted south |
| Day14Spin.Engine.East | src/bin/day14_2.rs:111-141 | the grid becomes the platform tilted east |
| Day14Spin.Engine.Cycle | src/bin/day14_2.rs:142-147 | the grid becomes the platform after one spin cycle |
| Day14Spin.IterateAdd | src/bin/day14_2.rs:214-235 | n + m cycles are n cycles followed by m |
| Day14Spin.Periodic | src/bin/day14_2.rs:236-244 | once a platform comes back after p cycles, the platform after y more cycles is the one after y mod p |
| Day14Spin.Lands | src/bin/day14_2.rs:236-244 | after k + p + y cycles the platform is the one y mod p cycles into the period starting at cycle k |
| Day14Spin.NoRepeats | src/bin/day14_2.rs:203-225 | a set of seen platforms with no duplicate means the first cycles all differ |
| Day14Spin.FindRepeat | src/bin/day14_2.rs:203-225 | step 1 stops at the first cycle whose platform was seen before, after no earlier repeat; it names the earlier cycle |
| Day14Spin.RecordPeriod | src/bin/day14_2.rs:226-235 | step 2 stops at the first cycle after which the first repeated platform is back (none earlier is), having recorded the load of each platform of the period in order |
| Day14Spin.Comeback | src/bin/day14_2.rs:226-235 | the first cycle count in a range after which a platform is back lies in that range |
| Day14Spin.ComebackMeaning | src/bin/day14_2.rs:226-235 | when the platform is back after q cycles, Comeback is a cycle count after which it is back and it is back after none before |
| Day14Spin.ReadOff | src/bin/day14_2.rs:236-244 | `scores[iterations_todo % scores.len()]` is the load after 1000000000 cycles |
| Day14Spin.Solve | src/bin/day14_2.rs:201-245 | the answer is `get_score` of the platform after 1000000000 spin cycles; OutOfFuel only when the first fuel + 1 platforms all differ; Underflow only when the first repeat, after k cycles of distinct platforms, closes a period with k plus the period more than 1000000000 |
| Day15Hashmap.HashSplit | src/bin/day15_2.rs:37-43 | continuing HASH from the value of a prefix over the rest gives the HASH of the whole string |
| Day15Hashmap.Hash | src/bin/day15_1.rs:10-13 | HASH is a box number, below 256 |
| Day15Hashmap.HashFromZero | src/bin/day15_2.rs:37-43 | running the character loop from 0 front to back gives HASH |
| Day15Hashmap.LabelHash | src/bin/day15_2.rs:37-43 | the character loop returns HASH of the label, a box number below 256 |
| Day15Hashmap.HashExample | src/bin/day15_1.rs:29-34 | HASH of "HASH" is 52 |
| Text.Split | src/bin/day15_1.rs:4-7 | `split(sep)` yields at least one piece and no piece holds the separator |
| Text.OnePiece | src/bin/day15_1.rs:4-7 | a string without the separator splits into itself alone |
| Text.JoinSplit | src/bin/day15_1.rs:4-7 | joining the pieces with the separator gives back the input, so no character is lost or added |
| Day15Hashmap.Solve1 | src/bin/day15_1.rs:3-16 | the total is the sum of HASH over the comma-separated steps |
| Day15Hashmap.Part1Example | src/bin/day15_1.rs:29-34 | the part 1 answer for "HASH" is 52 |
| Day15Hashmap.ParseCount | src/bin/day15_2.rs:24 | the focal length parses exactly when, after one optional '+', it is a non-empty run of digits, and then it is their decimal value |
| Text.Find | src/bin/day15_2.rs:19-21 | the first occurrence of the character, or None when it does not occur |
| Day15Hashmap.ParseCommand | src/bin/day15_2.rs:19-33 | a step with '=' is `name=focal` split at its first '='; a step without one must end in '-' and names what precedes it |
| Day15Hashmap.ParseCommands | src/bin/day15_2.rs:16-35 | all steps parse, one command each in order, or some step fails and the source panics |
| Day15Hashmap.Position | src/bin/day15_2.rs:59 | `position`: the first lens with that label, or None when no lens has it |
| Day15Hashmap.PutMeaning | src/bin/day15_2.rs:59-63 | `=` replaces the lens with the same label in its slot, or appends the new lens at the back; labels stay unique |
| Day15Hashmap.WithoutAbsent | src/bin/day15_2.rs:67-69 | removing a label the box does not hold leaves the box as it is |
| Day15Hashmap.TakeIsWithout | src/bin/day15_2.rs:67-69 | in a box with unique labels, removing the first lens with a label is removing every lens with it |
| Day15Hashmap.TakeShifts | src/bin/day15_2.rs:67-69 | removing the lens at slot i shifts every later lens one slot towards the front and keeps the earlier ones |
| Day15Hashmap.TakeUnique | src/bin/day15_2.rs:67-69 | in a box with unique labels, removing a label leaves no lens with it and the other labels unique |
| Day15Hashmap.TakeMeaning | src/bin/day15_2.rs:67-69 | `-` removes the lens with that label, if any, keeps the order of the rest, and leaves labels unique |
| Day15Hashmap.Apply | src/bin/day15_2.rs:48-72 | a command keeps the 256 boxes |
| Day15Hashmap.ApplyMeaning | src/bin/day15_2.rs:48-72 | a command changes only the box HASH of its label names, and keeps every lens in the box of its label with unique labels |
| Day15Hashmap.Arranged | src/bin/day15_2.rs:47-72 | any sequence of commands leaves 256 boxes |
| Day15Hashmap.ArrangedOrderly | src/bin/day15_2.rs:47-72 | after any sequence of commands, each box holds only lenses whose label hashes to it, with no label twice |
| Day15Hashmap.Arrange | src/bin/day15_2.rs:47-72 | the command loop fills a fresh array of 256 boxes with the arrangement the commands define |
| Day15Hashmap.BoxPowerGrows | src/bin/day15_2.rs:81-86 | a lens in slot k (from 1) of box b (from 0) adds (b + 1) * k * focal length |
| Day15Hashmap.PowerNonNegative | src/bin/day15_2.rs:80-88 | the focusing power is never negative |
| Day15Hashmap.Solve2 | src/bin/day15_2.rs:45-89 | the answer is the focusing power of the boxes after all commands, None where parsing panics, and never negative |
| Day16Beams.Dir | src/bin/day16_1.rs:12-19 | each direction is a unit step along one axis; Left and Right keep the row, Left and Up decrease a coordinate |
| Day16Beams.Turn | src/bin/day16_1.rs:72-93 | empty tiles pass the beam; `/` reflects the step (dy, dx) to (-dx, -dy) and `\` to (dx, dy); a splitter passes a beam along it and splits a perpendicular one into both directions across |
| Day16Beams.Opposite | src/bin/day16_1.rs:12-19 | the opposite direction steps the opposite way |
| Day16Beams.MirrorsReverse | src/bin/day16_1.rs:72-93 | a beam sent back along its outgoing path through a mirror leaves reversed along its incoming path |
| Day16Beams.ParseTile | src/bin/day16_1.rs:36-43 | the five tile characters parse to their tiles, any other character is the `unreachable!` panic |
| Day16Beams.SymbolParses | src/bin/day16_1.rs:36-43 | every tile parses back from the character it is drawn with |
| Day16Beams.ParseRow | src/bin/day16_1.rs:34-45 | a line parses to the row drawn as that line, or some character of it is not a tile |
| Day16Beams.ParseGrid | src/bin/day16_1.rs:31-47 | one row per line, each drawn as its line, or some line holds a character that is not a tile |
| Day16Beams.Tracer.constructor | src/bin/day16_1.rs:116-118 | an all-false energy grid of the tiles' shape and an empty visited set |
| Day16Beams.Tracer.TraceLight | src/bin/day16_1.rs:49-98 | a beam outside the grid changes nothing; inside, its (direction, tile, row, column) ends up visited, the visited set only grows, and every visit not still in progress has all its onward beams inside the grid visited; the energy grid marks exactly the tiles of visits, and every visit is reached from the start |
| Day16Beams.MarkVisited | src/bin/day16_1.rs:62-68 | energising the tile of a visit already made leaves the energy grid as it was |
| Day16Beams.MarkNew | src/bin/day16_1.rs:62-69 | energising a tile and recording its new visit keeps the energy grid equal to the tiles of the visits |
| Day16Beams.Complete | src/bin/day16_1.rs:94-97 | in a visited set closed under onward beams and holding the start, every beam inside the grid that the light can reach is visited |
| Day16Beams.SeenEnergised | src/bin/day16_1.rs:64 | a tile crossed by a reached visit is energised |
| Day16Beams.EnergisedSeen | src/bin/day16_1.rs:64-69 | an energised tile was crossed by some visit of a closed set holding the start |
| Day16Beams.Settled | src/bin/day16_1.rs:117-119 | after tracing from the top-left tile heading right, the energy grid marks exactly the tiles some reachable beam crosses |
| Day16Beams.CountBound | src/bin/day16_1.rs:120-124 | no more tiles are counted than the grid has |
| Day16Beams.Solve | src/bin/day16_1.rs:114-125 | the answer is the number of energised tiles, between 0 and h * w |
| Day16Beams.Run | src/bin/day16_1.rs:114-116 | parsing fails exactly on a character that is not a tile or an empty input or ragged rows; otherwise the answer is the number of energised tiles |
| Day17Crucible.Step | src/bin/day17_2.rs:16-24 | each direction moves one block along one axis; only the part 2 start direction stays put |
| Day17Crucible.Reverse | src/bin/day17_1.rs:23-32 | the reverse direction steps the opposite way |
| Day17Crucible.Allowed | src/bin/day17_2.rs:25-35 | from the start all four directions are tried; otherwise three distinct ones |
| Day17Crucible.AllowedMeaning | src/bin/day17_1.rs:23-32 | after a move, the allowed directions are exactly those that do not go back |
| Day17Crucible.CompareStates | src/bin/day17_1.rs:43-54 | a state is greater exactly when its heat loss is smaller, so the max-heap pops the least loss |
| Day17Crucible.Heap.constructor | src/bin/day17_1.rs:86 | an empty queue |
| Day17Crucible.Heap.IsEmpty | src/bin/day17_1.rs:96 | true exactly when no entry is queued |
| Day17Crucible.Heap.Push | src/bin/day17_1.rs:88-95 | the entry joins the queue |
| Day17Crucible.Heap.Pop | src/bin/day17_1.rs:97 | takes out one queued entry that no other entry is greater than, leaving the rest in order |
| Day17Crucible.Successors | src/bin/day17_1.rs:127-143 | one onward key per allowed direction: moved one block that way, the run grown by one when straight on and reset to 1 after a turn |
| Day17Crucible.MoveCounts | src/bin/day17_1.rs:129-133 | an onward key's run is one more than before when it goes straight on, else 1 |
| Day17Crucible.RunCounted | src/bin/day17_1.rs:103-106 | along any route the search keeps, `consecutive` is the number of moves in a row in the last direction, and never more than the limit |
| Day17Crucible.Cost | src/bin/day17_1.rs:90-114 | the heat lost along a route, every block after the first, is never negative |
| Day17Crucible.WalkExtend | src/bin/day17_1.rs:127-142 | a route extended by a kept onward key is a route, costing the heat of the new block more |
| Day17Crucible.FrontierBound | src/bin/day17_1.rs:95-145 | any route to a key not yet visited passes a queued entry whose loss plus the heat of the route's last block is at most the route's cost |
| Day17Crucible.SettleRoute | src/bin/day17_1.rs:112-114 | a popped entry's loss plus its block's heat is the cost of some route to its key |
| Day17Crucible.SettleCheapest | src/bin/day17_1.rs:96-114 | the least queued loss, plus the block's heat, undercuts every route to a new key |
| Day17Crucible.SettleFinish | src/bin/day17_1.rs:114-125 | popping at the finish: no route to the finish costs less than the popped loss plus the finish's heat |
| Day17Crucible.FinishRoute | src/bin/day17_1.rs:118-125 | when the cheapest queued entry is at the finish, every route to the finish costs at least its loss plus the finish's heat |
| Day17Crucible.Dropping | src/bin/day17_1.rs:98-111 | skipping a state outside the map, over the limit or already visited keeps every visited key's moves queued and every queued entry's origin |
| Day17Crucible.VisitRecorded | src/bin/day17_1.rs:112-114 | recording a newly visited key with its settled loss keeps every visited key away from the finish, with a route of its loss and none cheaper |
| Day17Crucible.VisitBordered | src/bin/day17_1.rs:112-143 | after visiting a key and pushing its moves, every visited key's kept moves are visited or queued with its loss |
| Day17Crucible.StillQueued | src/bin/day17_1.rs:109-112 | a key queued (or visited) with some loss before the pop is still queued with that loss, or visited, after it |
| Day17Crucible.PushedQueued | src/bin/day17_1.rs:127-143 | each move of the popped key is queued with the popped key's loss |
| Day17Crucible.VisitParented | src/bin/day17_1.rs:112-143 | after visiting a key and pushing its moves, every queued entry is the start or a move of a visited key carrying its loss |
| Day17Crucible.Unreachable | src/bin/day17_1.rs:95-146 | once the queue is empty with no finish popped, no route reaches the bottom-right block |
| Day17Crucible.PushMoves | src/bin/day17_1.rs:127-143 | pushes one entry per allowed direction, in order, each carrying the current loss |
| Day17Crucible.Dijkstra | src/bin/day17_1.rs:81-146 | Some(loss) exactly when a route reaches the bottom-right block, and then loss is the cost of one such route and no route costs less |
| Day17Crucible.DigitOf | src/bin/day17_1.rs:61 | a character parses exactly when it is a decimal digit, to the value it is written with |
| Day17Crucible.DigitRoundTrip | src/bin/day17_1.rs:61 | every digit value parses back from its character |
| Day17Crucible.ParseRow | src/bin/day17_1.rs:60-62 | a line parses to one digit per character, or some character is not a digit |
| Day17Crucible.ParseMap | src/bin/day17_1.rs:56-65 | one row per line, or some line holds a character that is not a digit |
| Day17Crucible.ParsedDigits | src/bin/day17_1.rs:56-65 | every parsed heat value is between 0 and 9 |
| Day17Crucible.Run | src/bin/day17_1.rs:148-151 | the least heat loss over all routes, or None where the source panics on a bad character, an empty map or no route |
| Day18Lagoon.Step | src/bin/day18_1.rs:10-17 | each direction digs one metre along exactly one axis; left and right keep the row |
| Day18Lagoon.Half | src/bin/day18_1.rs:73 | halving rounds toward zero, as Rust's signed division does |
| Day18Lagoon.CrossStep | src/bin/day18_1.rs:50-54 | an axis-parallel edge's shoelace term is the growth of y * x along it less twice x times its rise |
| Day18Lagoon.ShoelaceRise | src/bin/day18_1.rs:45-57 | the shoelace sum of any plan is y * x at its end less twice its summed rise |
| Day18Lagoon.ShoelaceEven | src/bin/day18_1.rs:56 | on a closed plan the shoelace sum is even, so `abs() / 2` is exact |
| Day18Lagoon.PolygonArea | src/bin/day18_1.rs:45-57 | the loop's running sum is the shoelace sum over the corners visited, and the result is its absolute value halved, exactly half on a closed plan |
| Day18Lagoon.BoundaryBound | src/bin/day18_1.rs:59-63 | with no negative lengths the boundary is not negative and at least every single length |
| Day18Lagoon.BoundaryParity | src/bin/day18_1.rs:59-63 | the boundary has the parity of y + x at the end of the plan, so a closed plan has an even boundary |
| Day18Lagoon.PickCount | src/bin/day18_1.rs:65-76 | on a closed plan the count is area + boundary / 2 + 1 with both halvings exact, and at least 1 when no length is negative |
| Day18Lagoon.RectangleDug | src/bin/day18_1.rs:110-120 | digging right a, down b, left a, up b closes the loop with shoelace sum -2ab and boundary 2a + 2b |
| Day18Lagoon.Rectangle | src/bin/day18_1.rs:110-120 | such a rectangle holds (a + 1) * (b + 1) cubic metres, 6 for the 2 by 1 test |
| Day18Lagoon.Dig | src/bin/day18_1.rs:49-55 | one more command moves the end by its step times its length, adds one shoelace term and its length to the boundary |
| Day18Lagoon.Solve | src/bin/day18_1.rs:65-76 | the answer is boundary + (area - boundary / 2 + 1), and on a closed plan twice the answer is the absolute shoelace sum plus the boundary plus 2 |
| Text.DigitValue | src/bin/day18_2.rs:41 | a digit of the radix has a value below the radix |
| Text.DigitChar | src/bin/day18_2.rs:41 | every digit value is read back from the character written for it |
| Text.Unsigned | src/bin/day18_2.rs:41 | a string reads as a number exactly when it is non-empty and all digits |
| Text.ParseRadix | src/bin/day18_1.rs:39 | a number is an optional sign followed by digits, and nothing else parses |
| Text.NumeralReads | src/bin/day18_2.rs:41 | every natural number written in decimal or hex parses back to itself |
| Text.SignedReads | src/bin/day18_1.rs:39 | every integer written with a minus sign when negative parses back to itself |
| Text.NaturalReads | src/bin/day18_1.rs:39 | a natural number written without a sign parses back to itself |
| Text.NegativeReads | src/bin/day18_1.rs:39 | a negative number written as a minus sign and its magnitude parses back to itself |
| Day18Lagoon.LetterDir | src/bin/day18_1.rs:32-38 | L, R, U, D are the only direction words, each read as the direction it names |
| Day18Lagoon.LetterReads | src/bin/day18_1.rs:32-38 | every direction is read back from its letter |
| Day18Lagoon.ParseWords | src/bin/day18_1.rs:28-40 | a line parses exactly when its first word is a direction letter and its second a number, giving that command |
| Day18Lagoon.WordsRead | src/bin/day18_1.rs:28-40 | a command written as letter, length and any colour word parses back to itself |
| Text.SplitOnce | src/bin/day18_2.rs:30 | `split_once(c)` fails exactly when there is no c, and otherwise splits around the first one |
| Day18Lagoon.CodeDir | src/bin/day18_2.rs:34-40 | the codes 0, 1, 2, 3 are the only direction codes, each read as its direction |
| Day18Lagoon.CodeReads | src/bin/day18_2.rs:34-40 | every direction is read back from its code |
| Day18Lagoon.ParseColour | src/bin/day18_2.rs:30-42 | a line parses exactly when it has a '#' followed by at least two characters, the second-to-last a direction code and the ones before it a hex number |
| Text.SplitOnceAt | src/bin/day18_2.rs:30 | text without c, then c, then anything splits at that c |
| Day18Lagoon.TailReads | src/bin/day18_2.rs:31-41 | a hex length, a code and one closing character read back as that command |
| Day18Lagoon.ColourReads | src/bin/day18_2.rs:27-45 | any text without '#', then '#', the length in hex, the direction code and a closing bracket parses back to the command |
| Day18Lagoon.ParseWordPlan | src/bin/day18_1.rs:25-43 | one command per line, each the line's parse, or some line fails |
| Day18Lagoon.ParseColourPlan | src/bin/day18_2.rs:27-45 | one command per line, each the line's parse, or some line fails |
| Day18Lagoon.Run1 | src/bin/day18_1.rs:65-76 | None exactly when parsing panics, otherwise the source's count for the parsed plan |
| Day18Lagoon.Run2 | src/bin/day18_2.rs:67-78 | None exactly when parsing panics, otherwise the source's count for the parsed plan |
| Text.SplitJoin | src/bin/day19_1.rs:55 | pieces joined with a separator none of them holds split back into exactly those pieces |
| Text.SignedOmits | src/bin/day19_1.rs:62 | a written integer holds no character other than a sign and digits of its radix |
| Day19Workflows.Route | src/bin/day19_1.rs:124-157 | None exactly when no rule fires; otherwise the target of the first rule that fires, every earlier rule failing |
| Day19Workflows.FirstFiring | src/bin/day19_1.rs:124-157 | the rule loop of one workflow returns the target of the first rule that fires, or None when none fires |
| Day19Workflows.VerdictSettled | src/bin/day19_1.rs:120-159 | an outcome reached within some number of workflow jumps stays the same with any larger bound |
| Day19Workflows.CheckAccepted | src/bin/day19_1.rs:120-159 | the loop from workflow `in` returns the outcome of following the first firing rule of each workflow in turn |
| Day19Workflows.TotalSettled | src/bin/day19_1.rs:161-176 | a part 1 total reached within a jump bound stays the same with any larger bound |
| Day19Workflows.TotalIsSum | src/bin/day19_1.rs:161-176 | when every part is decided the total is the rating sum of exactly the accepted parts, in order |
| Day19Workflows.TotalLast | src/bin/day19_1.rs:169-174 | the total over one more decided part adds its rating sum exactly when it is accepted |
| Day19Workflows.KeptLast | src/bin/day19_1.rs:169-174 | the accepted parts of one more part are those before, followed by it exactly when it is accepted |
| Day19Workflows.SumAccepted | src/bin/day19_1.rs:167-175 | the loop's total is the part 1 total, None when some part is never decided |
| Day19Workflows.CutPoints | src/bin/day19_2.rs:160-181 | splitting one attribute's span at a value splits the box's parts into two disjoint sets that cover it |
| Day19Workflows.PointsCount | src/bin/day19_2.rs:60-67 | `count_distinct` of a non-empty box is the number of parts whose ratings lie in it |
| Day19Workflows.DecideIsVerdict | src/bin/day19_1.rs:120-159 | applying the rules one index at a time decides every part exactly as `check_accepted` does |
| Day19Workflows.SplitWinners | src/bin/day19_2.rs:160-181 | the accepted parts of a cut box are the target's accepted parts of the taken piece plus the next rule's of the rest, disjointly |
| Day19Workflows.CutWinners | src/bin/day19_2.rs:160-181 | in the cutting case the sum of the two counts is the number of accepted parts of the box |
| Day19Workflows.SendIsReached | src/bin/day19_2.rs:130-136 | what a target makes of a whole box is the number of the box's parts it accepts, every one decided |
| Day19Workflows.CountIsWinners | src/bin/day19_2.rs:122-482 | a count reached for a non-empty box decides every part in it and equals the number it accepts |
| Day19Workflows.CountAllIsAccepted | src/bin/day19_2.rs:484-490 | part 2's count is the number of parts with ratings from 1 to 4000 that part 1's procedure accepts, all of them decided |
| Day19Workflows.Solve2 | src/bin/day19_2.rs:484-490 | None when a workflow line does not parse; otherwise the number of parts with ratings from 1 to 4000 that part 1's procedure accepts, each of them decided |
| Day19Workflows.ShowTarget | src/bin/day19_1.rs:77-88 | a target that is not named `A` or `R` reads back as itself |
| Day19Workflows.RuleReads | src/bin/day19_1.rs:57-89 | a rule written as attribute, comparison, value, ':' and target, or as a bare target, parses back to itself |
| Day19Workflows.WorkflowReads | src/bin/day19_1.rs:52-97 | a named workflow with at least one rule, written as name, braces and comma-separated rules, parses back to itself |
| Day19Workflows.RulesSplit | src/bin/day19_1.rs:57-60 | rules written out and joined with commas split back into exactly the written rules |
| Day19Workflows.ParseWorkflows | src/bin/day19_1.rs:91-97 | every workflow in the map is filed under its own name |
| Day19Workflows.FieldReads | src/bin/day19_1.rs:104-112 | a `key=value` chunk sets the attribute it names to the value |
| Day19Workflows.PartReads | src/bin/day19_1.rs:101-116 | a part written as `{x=..,m=..,a=..,s=..}` parses back to itself |
| Day19Workflows.FieldsRead | src/bin/day19_1.rs:103-114 | the four `key=value` chunks of a part, read in order onto the default part, give back the part |
| Day19Workflows.ReadsOn | src/bin/day19_1.rs:104-114 | reading a `key=value` chunk and then the rest gives what reading the rest gives after that one assignment |
| Day19Workflows.FieldsNoComma | src/bin/day19_1.rs:102 | no chunk of a written part holds a comma, so splitting on commas finds the chunks again |
| Day19Workflows.Solve1 | src/bin/day19_1.rs:161-176 | None when a line does not parse; otherwise the part 1 total of the parsed workflows and parts |
| Day21Steps.Step | src/bin/day21_1.rs:53-63 | every position after a step is on the map and a garden plot |
| Day21Steps.StepAdd | src/bin/day21_1.rs:53-63 | the next set grows by exactly the open neighbours of each position visited |
| Day21Steps.Mark | src/bin/day21_1.rs:41-68 | the count is the number of positions a walk of exactly `steps` steps can end on, 1 when no step is taken |
| Day21Steps.Advance | src/bin/day21_1.rs:52-65 | one pass over the positions builds exactly the set of their open neighbours |
| Day21Steps.Visit | src/bin/day21_1.rs:54-63 | the four moves add exactly the neighbours that are on the map and not rock |
| Day21Steps.ReachedOpen | src/bin/day21_1.rs:56-62 | after at least one step every position is on the map and a garden plot |
| Day21Steps.ReachedNear | src/bin/day21_1.rs:51-66 | after n steps a position is at most n steps from the start and of the parity of n |
| Day21Steps.ReachedAgain | src/bin/day21_1.rs:51-66 | from an open start, every position reached in n >= 1 steps is reached again in n + 2 |
| Day21Steps.StartOfMeaning | src/bin/day21_1.rs:15-24 | the start is the first 'S' of the last line that has one, or (0, 0) when none has |
| Day21Steps.CleanedLegal | src/bin/day21_1.rs:16-34 | once a line's first 'S' is a garden, a character converts exactly when it is '#', '.' or that first 'S' |
| Day21Steps.Parse | src/bin/day21_1.rs:9-39 | None exactly when some character other than a line's first 'S' is neither '#' nor '.'; otherwise the map of rocks and gardens and the start |
| Day21Steps.ReplaceStart | src/bin/day21_1.rs:15-24 | each line gets its first 'S' replaced by '.', and the start is the last position replaced |
| Day21Steps.FirstStart | src/bin/day21_1.rs:17-22 | the index of the line's first 'S', or its length when it has none |
| Day21Steps.Convert | src/bin/day21_1.rs:26-37 | None exactly when an illegal character remains; otherwise rock exactly where the line has '#' |
| Day21Steps.Solve | src/bin/day21_1.rs:70-73 | None for an illegal character, an empty map or a ragged one; otherwise the plot count of the parsed map and start |
| Day22Bricks.OverlapMeaning | src/bin/day22_1.rs:13-21 | two proper bricks' footprints overlap exactly when their closed x-intervals meet and their closed y-intervals meet; the test is symmetric |
| Day22Bricks.DropTo | src/bin/day22_1.rs:22-26 | the moved brick has the same footprint and height, its lower end at the new z, and is unchanged when moved to where it is |
| Day22Bricks.LowestFromMeaning | src/bin/day22_1.rs:41-62 | the height found is at least the floor 1, above every earlier supporting brick, and equal to the floor or to one support's top plus one |
| Day22Bricks.LowestMeaning | src/bin/day22_1.rs:41-62 | the same for the whole scan over the earlier bricks |
| Day22Bricks.LowestBelow | src/bin/day22_1.rs:41-62 | a brick at height 1 or more is never sent upwards |
| Day22Bricks.IgnoreLowers | src/bin/day22_2.rs:44-65 | ignoring a brick can only lower the height found, and ignoring a later brick changes nothing |
| Day22Bricks.Settle | src/bin/day22_2.rs:66-80 | dropping keeps the number of bricks |
| Day22Bricks.SettleAhead | src/bin/day22_1.rs:63-68 | bricks not yet reached by the drop are untouched |
| Day22Bricks.SettleBehind | src/bin/day22_1.rs:63-68 | a brick keeps the place it was dropped to through the later steps |
| Day22Bricks.SettleLowers | src/bin/day22_1.rs:63-68 | dropping bricks that stand at height 1 or more never raises one and keeps every brick's shape |
| Day22Bricks.IgnoredStays | src/bin/day22_2.rs:72-80 | the ignored brick is where it was after dropping the rest |
| Day22Bricks.Placed | src/bin/day22_1.rs:63-68 | a brick moved to the height computed for it rests there while the bricks before it stay put |
| Day22Bricks.SettledRests | src/bin/day22_1.rs:63-68 | after dropping all, every brick is on the floor or directly on top of a brick below it |
| Day22Bricks.SafeIffUnchanged | src/bin/day22_1.rs:69-79 | on a wall where every brick rests, a brick passes the safety test exactly when dropping everything again without it moves nothing |
| Day22Bricks.SafeKeeps | src/bin/day22_2.rs:72-80 | dropping without a safe brick leaves every prefix of the resting wall as it was |
| Day22Bricks.InsertZ | src/bin/day22_1.rs:38-40 | inserting a brick adds exactly that brick |
| Day22Bricks.SortByZ | src/bin/day22_1.rs:38-40 | sorting keeps the same bricks |
| Day22Bricks.InsertSorted | src/bin/day22_1.rs:38-40 | inserting into a wall sorted by lower z keeps it sorted |
| Day22Bricks.SortByZSorted | src/bin/day22_1.rs:38-40 | the sorted wall is ordered by lower z and is a permutation of the input |
| Day22Bricks.InsertStable | src/bin/day22_1.rs:38-40 | the inserted brick goes after every brick with the same lower z |
| Day22Bricks.SortByZStable | src/bin/day22_1.rs:38-40 | the sort is stable: the bricks sharing a lower z keep their input order |
| Day22Bricks.Differences | src/bin/day22_2.rs:81-87 | the count is no larger than either wall |
| Day22Bricks.DifferencesZero | src/bin/day22_2.rs:81-87 | two walls of one length have no differences exactly when they are equal |
| Day22Bricks.DifferencesSkip | src/bin/day22_2.rs:81-87 | a position where the walls agree is not counted |
| Day22Bricks.Falls | src/bin/day22_2.rs:137-144 | removing one brick moves at most all the others |
| Day22Bricks.FallsSafe | src/bin/day22_2.rs:137-144 | on a resting wall, removing a brick moves nothing exactly when part 1 calls it safe |
| Day22Bricks.SafeCount | src/bin/day22_1.rs:117-123 | the safe count is at most the number of bricks considered |
| Day22Bricks.FallsTotal | src/bin/day22_2.rs:137-144 | the sum is at most the number of bricks times the others |
| Day22Bricks.FallsAtLeast | src/bin/day22_2.rs:118-145 | on a resting wall, part 2's sum is at least the number of unsafe bricks, and zero exactly when all are safe |
| Day22Bricks.Wall.constructor | src/bin/day22_1.rs:29-31 | the wall holds the given bricks |
| Day22Bricks.Wall.SortZ | src/bin/day22_1.rs:38-40 | the wall is replaced by its stable sort on lower z |
| Day22Bricks.Wall.FindLowest | src/bin/day22_1.rs:41-62 | the backwards scan returns the lowest height of the specification, with the ignored brick skipped |
| Day22Bricks.Wall.DropAll | src/bin/day22_1.rs:63-68 | the wall becomes every brick dropped in index order |
| Day22Bricks.Wall.DropAllIgnore | src/bin/day22_2.rs:72-80 | the same with the ignored brick neither moving nor holding anything up |
| Day22Bricks.Wall.IsSafeDestroyed | src/bin/day22_1.rs:69-79 | true exactly when no later brick could sink with the given brick ignored |
| Day22Bricks.Wall.CountDifferences | src/bin/day22_2.rs:81-87 | at most either length, and zero for walls of one length exactly when they are equal |
| Day22Bricks.SafeBricks | src/bin/day22_1.rs:110-124 | the number of safe bricks of the sorted and dropped wall |
| Day22Bricks.CountSafe | src/bin/day22_1.rs:117-122 | the loop counts exactly the bricks that are safe to destroy |
| Day22Bricks.ChainReaction | src/bin/day22_2.rs:118-134 | the sum over the bricks of the bricks a copy moves when dropped without it |
| Day22Bricks.Experiment | src/bin/day22_2.rs:129-133 | the number of bricks that move when the given brick is removed, with the original wall untouched |
| Day22Bricks.PartsAgree | src/bin/day22_2.rs:118-145 | for bricks standing at height 1 or more, part 2 counts at least one fall per unsafe brick and is zero exactly when part 1 finds every brick safe |
| Day22Bricks.ParseNumbers | src/bin/day22_1.rs:87-90 | Some exactly when every piece is an integer, then the pieces' values in order |
| Day22Bricks.ParseWall | src/bin/day22_1.rs:82-108 | Some exactly when every line parses, then one brick per line in order |
| Day22Bricks.ConsParsed | src/bin/day22_1.rs:82-108 | a parsed first line in front of the parsed rest gives one brick per line, in order |
| Day22Bricks.CornerReads | src/bin/day22_1.rs:87-91 | three integers written with commas read back as themselves |
| Day22Bricks.CornerSplits | src/bin/day22_1.rs:87-91 | a written corner splits at its commas into exactly its three numerals |
| Day22Bricks.CornerNoTilde | src/bin/day22_1.rs:85-86 | a written corner holds no `~`, so the split into two corners finds the separator between them |
| Day22Bricks.BrickReads | src/bin/day22_1.rs:86-104 | every brick written as `x0,y0,z0~x1,y1,z1` reads back as itself |
| Day22Bricks.Solve1 | src/bin/day22_1.rs:110-124 | None exactly when a line is malformed; otherwise the safe count of the sorted and dropped wall |
| Day22Bricks.Solve2 | src/bin/day22_2.rs:118-145 | None exactly when a line is malformed; otherwise the summed falls over the sorted and dropped wall |
| Day23Walk.Dir | src/bin/day23_1.rs:14-27 | forest allows no move, a path four distinct unit moves, a slope exactly one unit move |
| Day23Walk.Cells | src/bin/day23_1.rs:56-60 | a position is a cell of the map exactly when it passes the bounds test |
| Day23Walk.Shrinks | src/bin/day23_1.rs:68-71 | marking an unvisited in-bounds tile leaves strictly fewer tiles unvisited, which is why the backtracking ends |
| Day23Walk.Merge | src/bin/day23_1.rs:76-81 | the kept value is None only when both are None, is one of the two, and is no smaller than either |
| Day23Walk.BestMeaning | src/bin/day23_1.rs:72-84 | the loop over the moves gives None exactly when every move fails, otherwise the value one move reaches and no less than any move's |
| Day23Walk.BestNext | src/bin/day23_1.rs:74-82 | one more move folds its hike length into the kept maximum |
| Day23Walk.BestAll | src/bin/day23_1.rs:74-82 | after all the moves the loop has folded in every one |
| Day23Walk.Cons | src/bin/day23_1.rs:71-76 | a hike from the next tile that also avoids p extends to a hike from p |
| Day23Walk.Tail | src/bin/day23_1.rs:71-76 | the rest of a hike is a hike that also avoids its first tile |
| Day23Walk.PickMove | src/bin/day23_1.rs:62-82 | away from the target, a found length comes from one move off an open, unvisited tile with that tile marked |
| Day23Walk.WalkSound | src/bin/day23_1.rs:49-85 | whatever `walk` returns is depth plus the length of some hike from the tile that avoids the visited set |
| Day23Walk.WalkLongest | src/bin/day23_1.rs:49-85 | for every hike from the tile avoiding the visited set, `walk` returns a value no smaller than depth plus its length |
| Day23Walk.WalkIsLongest | src/bin/day23_1.rs:87-95 | from the start with nothing visited, `walk` returns the length of the longest hike, or None when there is no hike |
| Day23Walk.Hike.constructor | src/bin/day23_1.rs:92 | the visited set starts empty |
| Day23Walk.Hike.Walk | src/bin/day23_1.rs:49-85 | returns the specified longest hike from the tile; out of bounds, forest or visited gives None, the target gives Some(depth); the visited set gains the tile during the search and is the same on return |
| Day23Walk.Marked | src/bin/day23_2.rs:46 | the set holds exactly the tiles whose flags are up |
| Day23Walk.MarkedExactly | src/bin/day23_2.rs:63-75 | a set matching every flag is the marked set |
| Day23Walk.WalkGrid | src/bin/day23_2.rs:41-77 | returns the specified longest hike with the marked tiles as the visited set; the flag is set before recursing and cleared after, so the grid is the same on return |
| Day23Walk.Explore | src/bin/day23_2.rs:64-74 | the loop over the moves folds in every move's hike and leaves the grid as it found it |
| Day23Walk.Tile | src/bin/day23_1.rs:34-43 | a tile exactly for the six symbols |
| Day23Walk.FlatTile | src/bin/day23_2.rs:26-35 | a tile exactly for the six symbols |
| Day23Walk.TileReads | src/bin/day23_1.rs:35-42 | part 1's symbols and tiles correspond one to one |
| Day23Walk.Level | src/bin/day23_2.rs:27-34 | only forest stays forest |
| Day23Walk.FlatTileLevel | src/bin/day23_2.rs:27-34 | part 2 reads every slope as a path and everything else as part 1 does |
| Day23Walk.ParseRow | src/bin/day23_1.rs:33-45 | Some exactly when every character is one of the six symbols, then one tile per character |
| Day23Walk.ParseMap | src/bin/day23_1.rs:30-47 | Some exactly when every line parses, then one row per line |
| Day23Walk.FlatMap | src/bin/day23_2.rs:22-39 | part 2's map has part 1's shape with every slope turned into a path |
| Day23Walk.Solve1 | src/bin/day23_1.rs:87-95 | None for an unknown character, an empty or ragged map, or no hike; otherwise the longest hike from (0, 1) to (h-1, w-2) |
| Day23Walk.Solve2 | src/bin/day23_2.rs:79-88 | the same on the flattened map, searched with a grid of flags that starts all down |

## Left out

- Every `main`, the file reading and the printing and debug helpers: `debug_print` in days 3 and 10, `Engine::print`, `debugmap`, `Wall::print`, `Cave::print`, and the `println!` calls inside loops. These are I/O.
- Tokenising with `split`/`lines` and the regex of day 2 part 2. Inputs are given already split: captures, number lists, grids of characters and the two blocks of days 5, 8 and 19 around the blank line. Where a parser's `unwrap` can fail on those tokens, the model returns None.
- Fixed-width integers. The source's i32, i64 and usize values are unbounded here: overflow in day 6, day 11, day 4 and in `lcm`'s product is not modelled. The usize subtractions that would underflow are kept as preconditions: group lengths in day 12 part 1, and `copies >= 1` in day 12 part 2.
- The iteration order of `HashMap`/`HashSet`. Dafny maps and sets stand in for them. Where the order could matter, the result is proved not to depend on it: the day 1 key scan, the day 8 lcm fold, and the day 20 module table.
- Unbounded loops get a `fuel` parameter, and running out of it is a separate outcome. These are the walks of day 8, `check_accepted` of day 19, `simulate` of day 20, and the cycle search of day 14. The model does not prove that these loops end. The breadth-first searches of day 10 also take a bound on the queue entries they pop, and report whether the queue drained within it.
- The `DefaultHasher` of day 14 part 2. Cycle detection compares platforms for equality instead of comparing 64-bit hashes, so hash collisions are not modelled.
- The memo tables of day 12 part 2 and Python's `@cache`. They only cache results, so the plain recursion is modelled.
- The rayon `par_iter` of day 22 part 2. The sequential map and sum it replaces is modelled.
- The `paths` vectors of day 17. They are never read.
- Day 20 has only part 1 in the source. The repeated-press cycle extrapolation that part 2 would need does not exist there and is not modelled.
- Day 17 part 2 is modelled as written: no minimum run of four blocks is enforced. Its tests (94 and 71) are not stated.
- Ragged, empty and zero-width grids. The day 3, 10, 11, 13, 14 and 16 solvers require rectangular rows (the source indexes by the first row's width); for days 10, 11, 13, 14 and 16 that includes at least one row. Day10Pipes.Parse, Solve1 and Solve2 and Day13Mirrors.Solve also require a first row that is not empty: the source panics there (an index out of range or the `unreachable!` of src/bin/day10_1.rs:71; src/bin/day13_1.rs:16 reads `self.data[0]` and src/bin/day13_1.rs:39 computes `ncols - 1`). Days 17, 21 and 23 return None on a ragged map.
- Examples whose literal evaluation is too costly for the verifier are not stated as lemmas:
  - day 1 part 2 (281); day 3 (4361 and 467835); day 5 (46);
  - day 7 (6440 and 5905); day 9 (2); day 10 (8 and 4; the main-loop grid of part 2; 4, 8 and 10);
  - day 11 (374, 1030 and 8410); day 12 (21 and 525152); day 13 (405); day 14 (136 and 64);
  - day 15 part 2 (145); day 16 (46); day 17 (102, 4 and 11); day 18 (62, 8, 10 and 952408144115);
  - day 19 (19114 and 167409079868000); day 20 (32000000 and 11687500); day 21 (16);
  - day 22 (5, 1 and 7); day 23 (94 and 154).
  
  The general properties these examples illustrate are proved instead.
- Day01Words.Solve: requires every line to be shorter than the source's 9999999 "not found" index. A longer line would let the sentinel compete with real matches.
- Day06Races.JoinedNumber: reads only unsigned digit runs. A sign that Rust's `parse` would accept before the digits makes the model return None.
- Day10Pipes.Parse: uses the corrected left check of the "## Findings" row (x >= 1), not the source's x >= 2. So for a start in column 1 joined to its left and right neighbours it puts in '-' where the source's `unreachable!` fires. Day10Pipes.Solve1 and Day10Pipes.Solve2 inherit this and answer on such a grid where the source panics; the as-written cascade is StartPipeAsWritten.
- Day07Camel.Rank: Rust's stable `sort_by` is modelled as a stable insertion sort on the same key, so only the resulting order is modelled, not the algorithm.

## Findings

| source | as written | input that shows it | evidently intended | confidence | as-written member | corrected member |
|---|---|---|---|---|---|---|
| src/bin/day05_2.rs:54-59 | the interesting points of a block are each mapper's `source_start` and `source_end` | seeds "5 11" and one block with the mappers "20 0 10" and "0 20 10": the answer is 15, though seed 10 is in range and reaches location 10 | the points where the block's map changes: each mapper's start and one past its end, so that the lowest location of every seed range is a candidate | high; not executed | Day05Seeds.AsWrittenMissesBreakpoint | Day05Seeds.CorrectedIsLowestLocation |
| src/bin/day10_1.rs:40-45 | the left neighbour is looked at only when `x as i32 - 1 > 0`, that is when x >= 2 | the grid "F-7", "\|.\|", "LSJ" with 'S' at row 2, column 1: no pipe is found and `unreachable!` fires | the left neighbour is looked at whenever x >= 1, which gives '-' here | high; not executed | Day10Pipes.AsWrittenMissesColumnOne | Day10Pipes.StartPipeMeaning |
