# Optimisation-progress data preparation, modelled in Dafny

This project models the data preparation in `images/visualise.py`. The script
replays the persisted results log of an aerofoil optimisation campaign
(angle of attack and freestream speed varied to maximise the lift-to-drag
ratio L/D) and animates its progress. Before it draws anything it:

1. keeps the designs whose angle of attack, speed and L/D value are all present
   (a missing `generation_index` becomes the text `"0"`);
2. sorts them by `gen_to_float(generation_index)`, which falls back to 0.0 for
   text `float()` rejects;
3. projects them into the parallel arrays `aoas`, `speeds`, `LDs` and the
   1-based `iterations`;
4. accumulates the running best L/D (`cumulative_best`);
5. fixes padded axis limits from the whole data set, the top plot's limits and
   the number of Sobol (exploration) trials;
6. for each animation frame, takes the first k designs, stars the first one
   with the best L/D and labels the phase.

Files and modules:

- `wrappers.dfy` (`Wrappers`): `Option` and `Result`.
- `gen_index.dfy` (`GenIndex`): the JSON value of `generation_index`. Also
  `gen_to_float`, with a decimal parser for the strings Python's `float()`
  accepts.
- `designs.dfy` (`Designs`): the parsed design records and the extraction loop.
- `stable_sort.dfy` (`StableSort`): `list.sort(key=...)` as a stable sort on
  key-decorated entries.
- `plot_data.dfy` (`PlotData`): projections, `min`/`max`, the cumulative-best
  loop, axis limits, `num_sobol` and the prepared `Series`.
- `animation.dfy` (`Animation`): what `animate(frame)` shows.
- `visualise.dfy` (`Visualise`): the sort by generation and the script's
  top-level sequence as one method with its two exception paths.

L/D, angles and speeds are Python floats. Here they are `real`, since every
property is about order, minimum and maximum. The results log arrives already
parsed. The angle of attack, the speed and the L/D value are each an
`Option`: None when `dict.get` returns None, that is, when the key is absent
or holds `null`. `generation_index` is an `Option<GenValue>`: None only when
the key is absent (the script then uses `"0"`). A `null`, array or object
there is `Some(GenOther)`.

Two behaviours of the script that the model keeps:

- `gen_to_float` falls back to 0.0 only for text that `float()` rejects
  (images/visualise.py:52-55). A `null`, array or object `generation_index`
  makes `float()` raise `TypeError`. `except ValueError` does not catch it, so
  the script stops inside the sort. The model returns
  `Failure(GenerationIndexTypeError)`.
- The running best only maximises L/D (images/visualise.py:68-73). No other
  objective direction is modelled.

## Model

| member | source | states |
|---|---|---|
| `GenIndex.GenToFloat` | images/visualise.py:51-55 | a number converts to itself; a boolean to 1.0 or 0.0; text converts to its parsed value, or to 0.0 when `float()` rejects it; it fails (TypeError) exactly for null, arrays and objects |
| `GenIndex.ParseFloat` | images/visualise.py:53 | a string `float()` accepts holds at least one digit (its behaviour on numerals is stated by `ParseNatToString`, `ParseFractionNumeral`, `ParseExponentNumeral` and `ParseSignedSpacedNumeral`) |
| `GenIndex.ParseNatToString` | images/visualise.py:53 | `float()` of the decimal numeral of any natural number n is n |
| `GenIndex.GenTextOfNat` | images/visualise.py:51-55 | a text generation index such as "12" gets the numeric key it writes |
| `GenIndex.GenTextWithoutDigits` | images/visualise.py:51-55 | text holding no digit is rejected by `float()`, so its key is the 0.0 fallback |
| `GenIndex.ParseFractionNumeral` | images/visualise.py:53 | for digit strings a and b, not both empty, `a.b` converts to the integer written by ab times 10 to the minus the number of digits of b ("2.5" is 2.5, "7." is 7, ".5" is 0.5) |
| `GenIndex.ShiftedDown` | images/visualise.py:53 | d times 10 to the -n is d divided by 10 to the n |
| `GenIndex.ParseExponentNumeral` | images/visualise.py:53 | the numeral of m, `e`, an optional `-` and the numeral of k converts to m times 10 to the k, or to the -k ("1e2" is 100) |
| `GenIndex.ShiftedUp` | images/visualise.py:53 | d times 10 to a natural n is d times the n-th power of 10 |
| `GenIndex.ParseSignedSpacedNumeral` | images/visualise.py:53 | whitespace, `-` or `+`, the numeral of n and whitespace converts to -n or n: surrounding whitespace is ignored and the sign applies (" -3 " is -3) |
| `GenIndex.ParseBareExponentExample` | images/visualise.py:53-55 | "1e" (exponent marker without digits) is rejected |
| `Designs.ToRecord` | images/visualise.py:37-48 | the appended row carries the design's angle, speed and L/D value; its generation index is the stored one, or "0" when the key is missing |
| `Designs.ExtractDesignData` | images/visualise.py:31-48 | the extraction loop produces exactly `Filtered(designs)` |
| `Designs.KeptIndicesAscending` | images/visualise.py:33-48 | the kept positions are in range, point at complete designs, and increase strictly |
| `Designs.KeptIndicesExact` | images/visualise.py:42 | a position is kept exactly when its angle, speed and L/D value are all present |
| `Designs.FilteredKeepsExactlyCompleteInOrder` | images/visualise.py:33-48 | row j is the row of the j-th complete design; the complete designs are exactly the kept ones; their original relative order is kept |
| `Designs.FilteredMembership` | images/visualise.py:42-48 | a row is in the extracted data if and only if some complete design produces it |
| `StableSort.Insert` | images/visualise.py:57 | inserting into a key-ordered list keeps it ordered and adds exactly the one entry |
| `StableSort.SortByKey` | images/visualise.py:57 | the result is ordered by non-decreasing key and is a permutation of the input |
| `StableSort.InsertRun` | images/visualise.py:57 | an inserted entry goes after every entry with the same key; other keys' runs are untouched |
| `StableSort.SortByKeyIsStable` | images/visualise.py:57 | for every key, the entries with that key keep their input order (the sort is stable) |
| `StableSort.InsertItems` | images/visualise.py:57 | inserting adds exactly the inserted element to the elements |
| `StableSort.SortByKeyPermutesItems` | images/visualise.py:57 | the sorted elements are a permutation of the input elements |
| `Visualise.Decorate` | images/visualise.py:57 | every row's key is computed in order; this fails exactly when some row's key raises |
| `Visualise.SortByGeneration` | images/visualise.py:57 | fails exactly when some row's generation index raises TypeError; otherwise a permutation of the rows in non-decreasing `gen_to_float` order |
| `Visualise.SortedKeysMatch` | images/visualise.py:57 | reordering keeps every entry's key equal to `gen_to_float` of its own row |
| `Visualise.RunIsWithKey` | images/visualise.py:57 | the entries decorated with key k are exactly the rows whose generation index converts to k, in order |
| `Visualise.SortByGenerationIsStable` | images/visualise.py:57 | rows with equal generation keys keep their relative order after the sort |
| `Visualise.PrepareSeries` | images/visualise.py:31-122 | TypeError exactly when a complete design's index is not a number or string; IndexError exactly when no design is complete; otherwise every series is derived from the complete designs sorted by generation |
| `PlotData.Max` | images/visualise.py:72 | `max(a, b)` is one of its arguments and at least both |
| `PlotData.SeqMax` | images/visualise.py:80 | `max(xs)` is an element of `xs` and no element exceeds it |
| `PlotData.SeqMin` | images/visualise.py:78-80 | `min(xs)` is an element of `xs` and no element is below it |
| `PlotData.AnglesOfAttack` | images/visualise.py:62 | `aoas` has one entry per row: the row's angle of attack, in row order |
| `PlotData.Speeds` | images/visualise.py:63 | `speeds` has one entry per row: the row's speed, in row order |
| `PlotData.LiftToDrags` | images/visualise.py:64 | `LDs` has one entry per row: the row's L/D value, in row order |
| `PlotData.Iterations` | images/visualise.py:66 | `iterations` has n entries and entry i is i + 1 |
| `PlotData.IterationsPrefix` | images/visualise.py:66 | the iteration numbers are exactly 1..n, consecutive, and their prefix of length k is the list for k |
| `PlotData.CumulativeBest` | images/visualise.py:69-73 | `cumulative_best` has one entry per L/D value, and entry i is the maximum of the first i + 1 values |
| `PlotData.RunningBestMonotone` | images/visualise.py:69-73 | the running best never decreases and never falls below the current value |
| `PlotData.FinalBest` | images/visualise.py:69-73 | in a prepared data set, the last running best (the value the script prints last) is the maximum of all L/D values, and no L/D value exceeds it |
| `PlotData.Pad` | images/visualise.py:82-84 | the padding is positive: a tenth of the range, or 0.1 when min equals max |
| `PlotData.PaddedLimits` | images/visualise.py:78-88 | `lower < min <= max < upper`; every value is strictly inside; the margins are equal, each a tenth of the range when the range is not empty |
| `PlotData.TopPlotYLimits` | images/visualise.py:108-112 | the top plot's y-limits contain every L/D value; a limit equals its extreme exactly when that extreme is 0 |
| `PlotData.TopPlotXLimits` | images/visualise.py:107 | every iteration number lies strictly between 0 and n + 1 |
| `PlotData.NumSobol` | images/visualise.py:122 | `num_sobol` is at most 4 and at most n, and is one of them |
| `Animation.IndexOf` | images/visualise.py:181 | `list.index(v)` is the first position holding v |
| `Animation.BestIndex` | images/visualise.py:181 | `y.index(max(y))` holds a value no other exceeds, and every earlier value is strictly smaller |
| `Animation.Animate` | images/visualise.py:170-229 | frame k shows iterations 1..k and their L/D; the starred design is the first with the best L/D so far; its L/D equals the printed best; the phase is Sobol exactly when k <= min(4, n) |
| `Animation.PhaseOf` | images/visualise.py:224 | frame k is labelled Sobol sampling exactly when k <= num_sobol, and Bayesian Optimization exactly when k > num_sobol |
| `Animation.Phases` | images/visualise.py:224 | there is one phase label per frame |
| `Animation.PhasesSplit` | images/visualise.py:122-224 | over n frames the label is "Sobol sampling" for the first min(4, n) frames and "Bayesian Optimization" for the rest |

## Left out

- Loading `flowboost_data/designs.json` (images/visualise.py:22-26) is file I/O. The model starts from parsed designs. A missing top-level `designs` key is not modelled.
- A `parameters` or `objectives` entry, or an `L/D` objective, that is present but not a JSON object makes `.get` raise AttributeError. This is not modelled: such entries are taken as absent.
- Angle, speed and L/D values are taken to be numbers. A string there would pass the filter and then break `min`/`max` or the arithmetic; the model does not cover that.
- Python floats are modelled as reals. Rounding is not modelled. In floating point, a padding far below the data's magnitude can be absorbed (`max + pad == max`), and then the strict enclosure of `PaddedLimits` would fail.
- `GenIndex.ParseFloat` covers ASCII whitespace, a sign, digits with an optional fraction and an optional exponent. It does not cover `inf`, `infinity` or `nan` (Python returns ±inf/nan; the model rejects them and so uses the 0.0 fallback), digit-grouping underscores, non-ASCII digits or whitespace, or the double range (overflow to inf).
- NaN sort keys are not modelled; with reals every key is comparable.
- `list.sort` is specified by its result: ordered, a permutation, stable. Timsort's own steps are not modelled. The in-place reordering is a new sequence value assigned back to `designData`.
- Matplotlib and numpy are rendering and foreign calls: rcParams, figure and axes setup, `draw_best_planes`, scatter and surface drawing, `FuncAnimation`, saving the GIF and PNG, and the prints (images/visualise.py:10-17, 93-105, 113-119, 123-165, 185-222, 225-231, 236-253). The value the last print shows, `cumulative_best[-1]`, is stated by `PlotData.FinalBest`; only the printing is left out. `Animate` models the values a frame takes from the data: slices, best index, phase, current and best L/D. The text formatting is left out.
- `Animation.Animate` requires `0 <= frame < n`. Those are the only frames `FuncAnimation(frames=len(LDs))` passes.
- images/aerofoilNACA0012Steady.py is not part of this model. It configures and starts an external optimisation library (session, job manager, optimiser, case cloning) whose code is not available. Its objective `max_lift_drag_objective` is a floating-point ratio computed through a dataframe library.
