# Indian mobile tower analysis: the cleaning and counting pipeline

This project models the data side of `Home.py`. The page reads a table of
cell-tower observations and a mapping from (mcc, mnc) to operator and
telecom circle. `data_cleaning` turns these into two things:

- `df_corrected`, an outlier-trimmed table of towers;
- `circle_dict`, the per-circle partition of that table under display labels.

`draw_charts` then counts that table by column (`value_counts_df`) and by
(operator, circle, radio) group.

## How the model is built

- **Modules.** The model is a set of Dafny modules, one per concept:
  - `Frames`: tables as sequences of rows, with column maps, boolean-mask selection and concatenation. All of them keep row order.
  - `Substitution`: exact-value `replace` chains and single table lookups.
  - `Towers`: the records and the configuration tables (radio, operator and circle substitutions, defunct operators).
  - `Quantiles`: `Series.quantile` with numpy's default linear interpolation, computed on exact reals.
  - `Cleaning`: lines 85-137 of `data_cleaning`, as column-wise steps composed in the source's order. `Cleaning.Cleaned` is `df_merged` as it stands at line 137. `CleanRow` is a row-at-a-time reference, and a lemma shows the two agree.
  - `Trimming`: `get_rows_within_quantile`, as `Trimming.RowsWithinQuantile`.
  - `Pipeline`: the twenty trims, `df_corrected` (line 175) as `Pipeline.Corrected` and `circle_dict` (line 177) as `Pipeline.CircleDict`. It also holds the imperative `DataCleaning` method:
    - it overwrites the caller's radio column through the `TowerFrame` class;
    - it then rebuilds `df_merged` one statement at a time;
    - it is proved equal to the functional pipeline.
  - `Counting`: `value_counts_df` as `Counting.ValueCountsDf`, and the three-key group count of lines 241 and 260 as `Counting.GroupCount`.
- **Inputs.** The two input tables are parameters. They are not read from files.
- **The mapping.** It is a Dafny `map`, so each (mcc, mnc) key has at most one entry. The left join then never duplicates a row.

Where the code does something other than its own comments say, or other than a reader might expect, the model follows the code:

- The longitude quantiles at `Home.py:148` are taken over the rows that passed the latitude test at line 147. They are not taken over the circle's pre-trim rows. `TrimSpec` states this.
- The column drop at `Home.py:99` keeps `created` and `updated`. The model's `Row` keeps them too.
- `value_counts_df` and the group count leave out null cells, as pandas does by default. A group whose rows all have a null `cid` still appears, with count 0.
- Line 96 keeps the rows whose `changeable_0` column is 0. The comment at line 95 says these are the locations the operators supplied. If the two `changeable` columns are a one-hot encoding of one flag, those are exactly the rows whose `changeable_1` is 1, which is what `Cleaning.OneHotFilterKeepsChangeableOne` states. The description at `Home.py:62-64` calls Changeable=1 the locations inferred from samples, so under that reading the filter keeps the opposite of what line 95 says. The model keeps the literal test of line 96 and does not say which value of the flag the data file means.
- The comment at line 116 says Jio has only 4G networks, but the correction at lines 117-118 rewrites only 2G and 3G rows. Every Jio row of the output is 4G or 5G when every input radio value is a technology name or a generation (`Cleaning.JioIsFourOrFiveG`). Generations occur in the input on a second call, because line 85 overwrote the caller's table. A value the remap does not know, such as "WCDMA", stays as it is, on a Jio row too (`Cleaning.JioUnknownRadioKept`).
- A Jio row of Delhi recorded as GSM becomes a 4G row of "Delhi & NCR" in `df_merged`. It reaches `df_corrected` only if the Delhi & NCR trim keeps it. Two such rows alone in that circle, at different latitudes, are both trimmed away: with two values the 1% and 99% latitude quantiles lie strictly between them (`Pipeline.JioDelhiPairTrimmedAway`).

## Model

| member | source | states |
|---|---|---|
| Substitution.ChainIsLookup | Home.py:85 | a chain of exact-value replace calls equals a single lookup when no replacement value is the source of a later call |
| Substitution.LookupIdempotent | Home.py:121-137 | when no replacement value is itself a source, substituting twice equals substituting once |
| Substitution.LookupRemovesSources | Home.py:105-107 | under the same condition, no substituted value is a value the table replaces |
| Towers.RadioChain | Home.py:85 | the five chained radio replaces act as one lookup in the radio table |
| Towers.OperatorChain | Home.py:105-107 | the three operator replaces act as one lookup in the operator table |
| Towers.CircleChain | Home.py:121-137 | the seventeen circle replaces act as one lookup in the circle table |
| Towers.RadioCanonical | Home.py:85 | a remapped radio value is never UMTS, GSM, LTE, CDMA or NR, and "4G" is not a technology name |
| Towers.OperatorCanonical | Home.py:105-107 | a merged operator name is never "Airtel", "Airtel (Old TATA DOCOMO)" or the old Reliance label |
| Towers.CircleCanonical | Home.py:121-137 | a merged circle name is never one of the seventeen regional labels |
| Towers.GenerationsPassThrough | Home.py:85 | the remap leaves each of 2G, 3G, 4G, 5G unchanged |
| Towers.KnownRadioGenerations | Home.py:85 | a technology name or a generation is remapped to one of 2G, 3G, 4G, 5G |
| Cleaning.RadioGeneration | Home.py:85 | UMTS and CDMA become 3G, GSM 2G, LTE 4G, NR 5G, and any other radio value is kept as it is |
| Cleaning.RemapRadioSpec | Home.py:85 | the remap changes only the radio column, row by row; no technology name remains; remapping again changes nothing |
| Cleaning.DropOperatorsIsOneFilter | Home.py:110-114 | the five exclusion filters act as one filter against the whole list, and keep the other rows unchanged and in order |
| Cleaning.OperatorStepsSpec | Home.py:105-114 | after the merges and the exclusions no operator is a merged spelling or a defunct operator, and the kept rows are an in-order subsequence |
| Cleaning.CorrectJioRadioSpec | Home.py:117-118 | a Jio row tagged 2G or 3G becomes 4G; every other row, and every other column, is unchanged; the row count is unchanged |
| Cleaning.MergeCircleNamesSpec | Home.py:121-137 | the circle merges are one lookup per row, leave unknown labels and nulls alone, change only the circle column, and are idempotent |
| Cleaning.CleanedConcat | Home.py:85-137 | cleaning a concatenation of tower tables is the concatenation of the cleaned tables |
| Cleaning.CleanedIsRowwise | Home.py:85-137 | the column-wise steps equal mapping each tower row through the row-wise reference and keeping the survivors, in order |
| Cleaning.CleanRowKeeps | Home.py:88-114 | a tower row survives exactly when `changeable_0` is 0, its (mcc, mnc) has a mapping entry with an operator, and that operator's canonical name is not defunct |
| Cleaning.OneHotFilterKeepsChangeableOne | Home.py:96 | on rows whose two `changeable` columns are one-hot, the filter `changeable_0 == 0` selects exactly the rows with `changeable_1` equal to 1 |
| Cleaning.CleanRowByLookup | Home.py:85-137 | a surviving row keeps its identity and coordinates, takes its radio through the radio table (4G for a Jio row that comes out 2G or 3G), and takes the canonical operator and circle |
| Cleaning.CleanRowCanonical | Home.py:85-137 | a surviving row has a non-null, active, canonical operator, a radio that is not one of the five technology names, and a canonical circle, and is not a Jio 2G or 3G row |
| Cleaning.CleanedRowsSpec | Home.py:85-137 | every cleaned row comes from a tower row whose `changeable_0` is 0 and which has a mapping entry, keeps its identity and coordinates, and has the canonical properties above |
| Cleaning.UnusableRowsNeverAppear | Home.py:88-102 | rows whose `changeable_0` is not 0, or whose (mcc, mnc) is unmapped, can be deleted from the input without changing the output |
| Cleaning.RerunOnRemappedTable | Home.py:85 | cleaning the caller's table after the first call overwrote its radio column gives the same cleaned table |
| Cleaning.JioIsFourOrFiveG | Home.py:117-118 | when every input radio value is a technology name or a generation, every Jio row of the output is 4G or 5G (the correction lifts 2G and 3G) |
| Cleaning.CleanedRadiosAreGenerations | Home.py:85-137 | when every input radio value is a technology name or a generation, every row of the output carries one of 2G, 3G, 4G, 5G |
| Cleaning.JioUnknownRadioKept | Home.py:117-118 | a Jio row (either spelling, which is never excluded) whose radio is "WCDMA" survives with radio "WCDMA": without the premise above the 4G/5G claim fails |
| Cleaning.JioDelhiRow | Home.py:85-137 | a Jio GSM row (either spelling) whose `changeable_0` is 0 and whose mapping says "Delhi" becomes a 4G row of "Delhi & NCR"; GSM is 2G, both spellings merge to an active "Jio", and "Delhi" merges to "Delhi & NCR" |
| Cleaning.JioDelhiScenario | Home.py:85-137 | two such rows come out in the cleaned table `df_merged`, before the trim, as two 4G "Delhi & NCR" rows in input order |
| Quantiles.Sort | Home.py:147 | the sorted copy is sorted and a permutation of the values |
| Quantiles.Quantile | Home.py:147-148 | a quantile of a non-empty column lies between its minimum and maximum |
| Quantiles.QuantileEndpoints | Home.py:147-148 | the 0-quantile is the minimum and the 1-quantile is the maximum |
| Quantiles.QuantileMonotone | Home.py:147-148 | a higher probability never gives a lower quantile |
| Quantiles.QuantileIgnoresOrder | Home.py:147-148 | the quantile depends only on the multiset of values, not on row order |
| Quantiles.QuantileOfTwo | Home.py:147-148 | for two different values, a quantile strictly inside 0 .. 1 lies strictly between them |
| Trimming.TrimSpec | Home.py:145-149 | the trim is an in-order subsequence of the circle's rows; a row is in it iff it is in the circle, its lat is in the lat band of the circle's rows, and its long is in the long band of the lat-filtered rows |
| Trimming.BandSpec | Home.py:147 | one band filter keeps, in order, exactly the rows whose coordinate lies between the two quantiles of that coordinate |
| Trimming.TrimBands | Home.py:147-148 | with lower <= upper, both bands are genuine intervals inside the range of the coordinates they are computed from |
| Trimming.FullBandKeepsCircle | Home.py:145-149 | the 0 to 1 band keeps every row of the circle |
| Trimming.TrimOfCircleRows | Home.py:146 | the trim of a circle depends only on that circle's rows |
| Trimming.TwoRowBandEmpty | Home.py:147 | a band strictly inside 0 .. 1 over two rows with different coordinates keeps neither row |
| Trimming.TwoRowTrimEmpty | Home.py:145-149 | a circle of two rows at different latitudes is trimmed to nothing by bounds strictly inside 0 .. 1 |
| Pipeline.TrimBoundsAsListed | Home.py:153-172 | every call uses 0.01/0.99, except Andhra Pradesh and Telangana (0.01/0.95) and Assam & North East (0.05/0.99) |
| Pipeline.TrimAll | Home.py:153-172 | one trim per listed call, in the listed order |
| Pipeline.CorrectedSelectsTrim | Home.py:175 | selecting one of the twenty circles from `df_corrected` gives back that circle's trim, in the same order (the twenty circles being distinct) |
| Pipeline.CorrectedDropsOtherCircles | Home.py:175 | `df_corrected` holds no row of any circle outside the twenty |
| Pipeline.CorrectedRows | Home.py:175 | every row of `df_corrected` is a cleaned row whose circle is one of the twenty listed calls' circles |
| Pipeline.CorrectedOfOneCircle | Home.py:153-175 | a table of one listed circle whose trim is empty leaves `df_corrected` empty |
| Pipeline.TwoRowsTrimmedAway | Home.py:153-175 | two rows of one listed circle at different latitudes, with that circle's bounds strictly inside 0 .. 1, leave `df_corrected` empty |
| Pipeline.DelhiPairTrimmedAway | Home.py:157 | two rows of "Delhi & NCR" at different latitudes leave `df_corrected` empty (its call uses 0.01/0.99) |
| Pipeline.JioDelhiPairTrimmedAway | Home.py:83-175 | two Jio GSM rows mapped to "Delhi" at different latitudes, though cleaned into 4G "Delhi & NCR" rows, are not in `df_corrected` |
| Pipeline.CircleDictSpec | Home.py:177-198 | `circle_dict` has exactly twenty keys, the display labels (which are distinct), each bound to its circle's trim |
| Pipeline.CircleDictUsesCaptions | Home.py:179 | the Andhra Pradesh and Telangana trim is filed under "Andhra Pradesh Telangana", and the circle name itself is not a key |
| Pipeline.CircleDictPartitionsCorrected | Home.py:175-198 | each `circle_dict` entry holds rows of one circle, and a row is in `df_corrected` iff it is in some entry |
| Pipeline.SecondRunSameOutputs | Home.py:83-200 | calling `data_cleaning` again on the table the first call modified returns the same `df_corrected` and `circle_dict` |
| Pipeline.FiveDrops | Home.py:110-114 | the five exclusion statements equal the exclusion of the listed names |
| Pipeline.TowerFrame.RemapRadioColumn | Home.py:85 | the caller's table gets its radio column remapped in place, and no technology name is left |
| Pipeline.DataCleaning | Home.py:83-200 | after the step-by-step body, the caller's radio column is remapped, and the results equal the trims of the cleaned table and their labelled map; every returned row has an active canonical operator, a radio that is not one of the five technology names, and one of the twenty circles |
| Counting.Tally | Home.py:209 | a count table has distinct keys, one per non-null key present, each counting the rows with that key that are counted, and the counts add up to all counted rows |
| Counting.ValueCountsSpec | Home.py:207-211 | one row per distinct non-null value; each count is the positive number of rows with that value; the counts add up to the number of non-null cells |
| Counting.GroupCountSpec | Home.py:241 | one row per (operator, circle, radio) key present; its count is the number of rows with that key and a non-null `cid`; the counts add up accordingly |
| Counting.CorrectedCountTotals | Home.py:241 | on `df_corrected` the value counts of operator, circle or radio add up to the row count, and the group counts add up to the rows with a `cid` |
| Counting.SelectionCounts | Home.py:260 | group counts on one circle's rows agree with the counts on the whole table for every key of that circle |
| Counting.CircleCountsMatchCorrected | Home.py:260 | the group count of a `circle_dict` entry (line 260) and that of `df_corrected` (line 241) have the same keys and counts for that circle |

## Left out

- `read_datasets` (Home.py:23-37) is left out because it does CSV file I/O. Both tables are parameters of the model.
- The tower row already carries the `changeable_0` and `changeable_1` columns. How the file encodes them is not part of this model.
- The Streamlit page, its widgets and `main` are display code, and so is `get_quantile` (Home.py:141-142), which only feeds `describe`.
- The Plotly and Kepler charts and maps are display code. The operator list that feeds the selector (line 245) appears in the model only as the keys of the group count.
- `@st.cache_data` memoisation is left out.
- Coordinates are exact reals. Floating-point rounding in the quantile interpolation is not modelled.
- Quantiles.Quantile returns 0.0 for an empty column, where pandas returns NaN. Only quantiles of an empty table use it, and filtering an empty table keeps nothing either way. This happens for a circle with no rows, and for the longitude pass when the latitude pass kept no row.
- Other NaN semantics are left out. Only null operator, circle and `cid` cells are modelled, as `Option`.
- A mapping file with two rows for one (mcc, mnc) key would make the left join duplicate tower rows. The mapping is modelled as a map with unique keys.
- Counting.ValueCountsSpec does not state the order of the count rows. pandas sorts them by count, and `sort_index` on the fresh index leaves them as they are. The order only affects the layout of the bar charts, which are display code.
- Counting.GroupCountSpec does not state the order of the group rows. pandas sorts them by key. The order only affects the layout of the bar charts at lines 248 and 261, which are display code.
- Pipeline.CircleDict is a Dafny `map`, which has no order. The dict display at Home.py:177-198 keeps its insertion order, which sets the order of the circle selector at line 256. That order is display only.
- The index labels pandas carries along with the rows are not modelled. Tables are sequences of rows.
- The in-place `drop` at line 99 and the masked `.loc` assignments at lines 117-118 act on `df_merged`, a frame that `data_cleaning` built itself and that no caller can see. Pipeline.DataCleaning models them as reassignments of its local table. Only the caller's table (line 85) is modelled as an object updated in place.
