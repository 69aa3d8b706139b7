# Toll-computation pipeline, modelled in Dafny

This project models the five stages of `python_task_2.py`. Together they turn
raw distance records into priced road edges:

1. **Distance matrix** (`calculate_distance_matrix`). The records are pivoted
   by (start, end). Duplicate records are summed and missing pairs become 0.
   The frame is added to its own transpose, then every diagonal cell is set
   to 0 in a loop. Module `Aggregator`.
2. **Unroll** (`unroll_distance_matrix`). The square frame is melted back into
   (id_start, id_end, distance) rows. The diagonal is dropped and the rows are
   sorted by (id_start, id_end). Module `Unroller`.
3. **Threshold selection** (`find_ids_within_ten_percentage_threshold`). Each
   id_start gets its mean outgoing distance. The ids whose mean lies in the
   closed band [0.9 ref, 1.1 ref] are kept, in ascending order, with their
   means. Module `ThresholdSelector`.
4. **Base tolls** (`calculate_toll_rate`). One column per vehicle class is
   added in place, equal to distance times the class coefficient. Module
   `TollEngine`.
5. **Time-based discount** (`calculate_time_based_toll_rates`). The table is
   walked row by row, in place. A weekday row's tolls are multiplied by the
   factor of every closed window that contains its start time. A weekend
   row's tolls are multiplied by 0.7 once. Module `TollEngine`.

The supporting modules are:

- `Wrappers`: `Option`.
- `Labels`: the ascending label order pandas gives an index.
- `Frames`: a frame as a nested map, `row label -> column label -> cell`.

Distances and factors are Dafny `real`, which is exact rational arithmetic.

### How the model represents the source

- **NaN cells.** Line 17 adds two frames under pandas label alignment. A cell
  of the sum is NaN unless both frames have it. The model makes cells
  `Option<real>`, with `None` for NaN. Off the diagonal, cell (a, b) holds a
  number exactly when a and b each occur both as a start and as an end
  location (`OffDiagonalCell`). The loop of lines 19-20 overwrites every
  diagonal cell with 0, including those that were NaN.
- **NaN in the selector.** The selector reads such cells too. Its means skip
  NaN, as pandas' `mean` does. An id with no known distance has a NaN mean
  and is never kept. An id that is not in the table also has a NaN mean, so
  an unknown reference selects nothing and raises no error.
- **Tolls.** The two toll procedures change the caller's table in place. Each
  is a method over `array<Row>`, proved against a function on one row:
  `WithBaseTolls` for base pricing and `TimeAdjusted` for discounting. The
  properties are lemmas about those functions. A row's toll columns are a
  `map<Vehicle, real>`.
- **Start times.** A start time is given as a weekday (0 = Monday) and a time
  of day in microseconds, which is the resolution of `datetime.time`.

### Label alignment in a three-record example

Take the records 1 to 2 (10), 2 to 1 (10) and 1 to 3 (5). Location 3 is an
end but never a start, so the pivot has no row 3. Label alignment at line 17
therefore leaves every cell that pairs 3 with 1 or 2 NaN, in both directions,
and the 5 of the record 1 to 3 appears nowhere in the result. Cell (1, 2) is
10 + 10 = 20. `ScenarioNeverStartIsMissing` proves the NaN cells and
`ScenarioPairSummed` proves the 20.

## Model

| member | source | states |
|---|---|---|
| Labels.SortedIds | python_task_2.py:69-71 | the labels of a set in strictly ascending order, each exactly once: the order groupby and sort_values give |
| Aggregator.DirectedSum | python_task_2.py:14 | the sum of the distances of the records of one directed pair (aggfunc 'sum'); non-negative when every distance is |
| Aggregator.Pivot | python_task_2.py:14-15 | the pivot has one row per start location and one column per end location; each cell is the sum over the records of that directed pair |
| Aggregator.DirectedSumAppend | python_task_2.py:14 | a further record for a pair adds its distance to that pair's sum (aggfunc 'sum' over duplicates) |
| Aggregator.DirectedSumAbsent | python_task_2.py:15 | a pair with no records sums to 0, which is what fillna(0) puts there |
| Aggregator.AlignedCell | python_task_2.py:17 | one cell of the frame plus its transpose: a number exactly when the frame has cell (a, b) and the transpose has it too (row b, column a of the frame), and then the sum of the two |
| Aggregator.PlusTranspose | python_task_2.py:17 | the aligned sum is indexed on the union of row and column labels on both axes; it is symmetric; each cell is p[a][b] + p[b][a] where both frames have it and NaN elsewhere |
| Aggregator.ZeroDiagonal | python_task_2.py:19-20 | same labels; every diagonal cell is 0; every off-diagonal cell is unchanged |
| Aggregator.DistanceMatrix | python_task_2.py:4-22 | the returned frame is square over starts and ends, symmetric, and 0 on the diagonal |
| Aggregator.CalculateDistanceMatrix | python_task_2.py:14-22 | building the aligned sum and then zeroing the diagonal cell by cell in a loop gives exactly DistanceMatrix |
| Aggregator.NoneZeroed | python_task_2.py:19 | before the loop the frame is the aligned sum |
| Aggregator.ZeroOneMore | python_task_2.py:19-20 | one pass of the loop zeroes the current label's diagonal cell and changes nothing else |
| Aggregator.AllZeroed | python_task_2.py:19-20 | once every label has been visited, the frame is the aligned sum with a zero diagonal |
| Aggregator.OffDiagonalCell | python_task_2.py:14-20 | an off-diagonal cell is the a-to-b sum plus the b-to-a sum when both labels are starts and ends, and NaN otherwise |
| Aggregator.SameLabelsNoMissingCell | python_task_2.py:17 | when the start and end locations coincide, no cell is NaN |
| Aggregator.ScenarioMatrixLabels | python_task_2.py:14-17 | the three-record matrix has labels 1, 2 and 3 |
| Aggregator.ScenarioPairSummed | python_task_2.py:14-17 | records 1 to 2 (10) and 2 to 1 (10) give the cell 20 |
| Aggregator.ScenarioNeverStartIsMissing | python_task_2.py:17 | location 3 is never a start, so its off-diagonal cells are NaN in both directions |
| Unroller.RowEdges | python_task_2.py:41-43 | a melted row holds exactly the edges from its label to every other column label, each with its cell |
| Unroller.Rows | python_task_2.py:41-43 | the melted rows of the listed labels hold exactly the off-diagonal edges between the listed row and column labels, each with its cell |
| Unroller.RowsSorted | python_task_2.py:44 | melting rows in ascending label order yields rows strictly ascending by (id_start, id_end) |
| Unroller.RowsLength | python_task_2.py:41-43 | N row labels over N column labels give N * N - N rows once the diagonal is dropped |
| Unroller.Unroll | python_task_2.py:40-44 | exactly the off-diagonal ordered pairs, each once, each with its cell; strictly ascending by (id_start, id_end); N * N - N rows |
| ThresholdSelector.Mean | python_task_2.py:66-69 | the NaN-skipping group mean: NaN exactly when the group has no known distance, otherwise the value that times the count of known distances gives their sum |
| ThresholdSelector.MeanKnownIff | python_task_2.py:66-69 | a group's mean is defined exactly when one of its rows has a known distance |
| ThresholdSelector.MeanBounds | python_task_2.py:66-69 | a group's mean lies between any lower and upper bounds of its known distances |
| ThresholdSelector.KeepInBand | python_task_2.py:70 | the kept rows are exactly the ids whose mean is in the band, each with its mean |
| ThresholdSelector.KeepInBandAscending | python_task_2.py:71 | filtering ascending ids keeps them ascending |
| ThresholdSelector.Select | python_task_2.py:66-71 | a row for id i, carrying i's mean, is in the result iff 0.9 ref <= mean(i) <= 1.1 ref with both means known; the rows are strictly ascending by id |
| ThresholdSelector.ReferenceSelected | python_task_2.py:66-70 | a reference with a known non-negative mean selects itself |
| ThresholdSelector.UnknownReferenceSelectsNothing | python_task_2.py:66-70 | a reference absent from the table, or with only NaN distances, selects nothing (no error) |
| ThresholdSelector.NegativeReferenceSelectsNothing | python_task_2.py:67-70 | with a negative reference mean, 0.9 ref lies above 1.1 ref and nothing is selected |
| ThresholdSelector.BandEndsIncluded | python_task_2.py:67-70 | means of exactly 0.9 ref and 1.1 ref are kept: both comparisons are inclusive |
| ThresholdSelector.ZeroReferenceKeepsZeros | python_task_2.py:67-70 | with a zero reference mean exactly the ids with zero mean are kept |
| TollEngine.Rate | python_task_2.py:92-98 | the coefficient of each vehicle class; every coefficient lies between 0.8 (moto) and 3.6 (truck) |
| TollEngine.PriceFirstCell | python_task_2.py:99-100 | assigning the first n class columns sets each of them to distance times rate and leaves other columns alone |
| TollEngine.PriceFirstFields | python_task_2.py:99-100 | assigning columns changes nothing but the toll columns |
| TollEngine.WithBaseTolls | python_task_2.py:92-100 | every class column is present and equals distance times its coefficient (moto 0.8, car 1.2, rv 1.5, bus 2.2, truck 3.6); the rest of the row is unchanged |
| TollEngine.CalculateTollRate | python_task_2.py:99-100 | after the class-by-class column assignments, every row of the table is its base-priced self |
| TollEngine.ScaleFirstCell | python_task_2.py:131-132 | multiplying the first n class cells multiplies each of them by the factor once and leaves the others alone |
| TollEngine.ScaleFirstFields | python_task_2.py:131-132 | multiplying cells changes nothing but the toll columns |
| TollEngine.Discounted | python_task_2.py:131-135 | the five-class loop multiplying one row's tolls by a factor; every toll column stays present (DiscountedTolls gives the values) |
| TollEngine.DiscountedCell | python_task_2.py:131-135 | after the five-class loop a toll is the old toll times the factor |
| TollEngine.DiscountedTolls | python_task_2.py:131-135 | after the five-class loop every toll is multiplied by the factor and nothing else in the row changes |
| TollEngine.ApplyFirst | python_task_2.py:129-132 | a weekday row after the first w windows have been tried in order; every toll column stays present (ApplyFirstCell gives the values) |
| TollEngine.TimeAdjusted | python_task_2.py:127-135 | one row as the row loop leaves it, weekday windows or the weekend factor; every toll column stays present (TimeAdjustedTolls gives the values) |
| TollEngine.WindowProduct | python_task_2.py:120-132 | the product of the factors of the first w windows that contain a time; always positive |
| TollEngine.DayFactor | python_task_2.py:120-135 | the factor a start time multiplies every toll by; it is one of 0.7, 0.8, 0.96, 1, 1.2 |
| TollEngine.ApplyFirstStep | python_task_2.py:129-132 | trying one more window multiplies a toll by that window's factor exactly when the window contains the start time |
| TollEngine.ApplyFirstCell | python_task_2.py:129-132 | trying the first w windows multiplies a toll by the product of the factors of the matching windows |
| TollEngine.WeekdayTolls | python_task_2.py:128-132 | on a weekday a toll is multiplied by the product of the matching window factors |
| TollEngine.TimeAdjustedTolls | python_task_2.py:127-135 | discounting a row multiplies every toll by its start time's day factor and changes nothing else in the row |
| TollEngine.WeekdayFactor | python_task_2.py:120-124 | the weekday factor by time: 0.8 before 10:00:00, 0.8 * 1.2 at exactly 10:00:00, 1.2 until 18:00:00, 1.2 * 0.8 at exactly 18:00:00, 0.8 up to 23:59:59, and 1 after 23:59:59 |
| TollEngine.WeekendFlat | python_task_2.py:126-135 | on Saturday and Sunday the factor is 0.7 whatever the time |
| TollEngine.ScaleRow | python_task_2.py:131-135 | the class loop leaves the row discounted by the factor and every other row as it was |
| TollEngine.AdjustRow | python_task_2.py:128-135 | the body of the row loop leaves that row time-adjusted and every other row as it was |
| TollEngine.CalculateTimeBasedTollRates | python_task_2.py:127-135 | after the row loop every row of the table is its time-adjusted self |
| TollEngine.CarAtNineOnMonday | python_task_2.py:92-132 | a car edge of distance 10 starting on a Monday at 09:00:00 has base toll 12 and discounted toll 9.6 |
| TollEngine.TenOClockCompounds | python_task_2.py:120-132 | at exactly 10:00:00 on a weekday every toll is multiplied by 0.96: both the morning and the midday factor apply |

## Left out

- Module-level script code is not modelled: the CSV read, the prints, the calls on empty frames and the placeholder frame (python_task_2.py:24-26, 48-50, 75-78, 104-106, 139-141). It is I/O and scaffolding.
- pandas itself (`pivot_table`, `melt`, `groupby`, `iterrows`, `df.at`) is not modelled. Only its observable result is, over maps and sequences.
- Floating point is not modelled: distances, tolls and factors are exact reals, so rounding error and float comparison at the band ends are not captured. The code rounds nothing, so no rounding is modelled.
- NaN is modelled only as far as label alignment, the mean and the band test are concerned. In `TollEngine` distances and tolls are plain reals, so NaN distances that reach the toll stages are not modelled.
- Timestamps are not parsed. The weekday index and the time of day are given as inputs.
- The code validates nothing and rounds nothing: a negative distance, empty input, an unknown reference or a bad timestamp raises no error of its own, so the model adds none.
- Frame labels are integers. Row positions stand in for the index labels used by `df.at`, so a table with repeated index labels is not modelled.
- Unroller.Unroll: stated for square frames only, the kind the aggregator returns. The row and column order of a non-square frame is not modelled.
- Unroller.Unroll: index names are not modelled. Line 41 needs an unnamed index, because `reset_index` names the new column after the index. When the start and end labels coincide, the frame line 17 returns keeps the pivot's index name `start_location`, so unrolling it raises KeyError. The model returns the N * N - N edges instead, so the two stages compose here where pandas' naming rule would make them fail in that case.
- TollEngine.CalculateTimeBasedTollRates: requires every row to carry all five toll columns. Without them `df.at` raises KeyError, and that error path is not modelled.
- TollEngine.CalculateTollRate: the column assignment over the whole table is modelled as one simultaneous update of all rows per class; pandas' column storage is not modelled.
