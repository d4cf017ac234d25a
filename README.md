# Geomagnetism categorizer, modelled in Dafny

This project models `categorizer.py`, a batch report for one USGS geomagnetism
data file. The model covers its two parts that carry logic:

* **Loading** (`dataGrabber`). Each line of the file is re-joined with single
  spaces and runs of spaces are collapsed to one. The dataset is accepted only
  when it is non-empty and its first normalised line is the fixed header
  `Year Mon Day Hr DOY from start Fractional DOY Fractional year Dst HER KAK HON SJG sigma`.
  Otherwise nothing is returned.
* **Aggregation** (`dataParser`). The header row is dropped. Every data row is
  split at single spaces and its Dst, HON and SJG fields (positions 7, 10 and 11)
  are read as numbers. For each column, a value goes to the valid list, or to the
  bad list when it is the missing-data sentinel `99999.0`. A cascade of
  thresholds then puts the value in one of nine storm-intensity buckets and adds
  one to that bucket's counter. The report gives the max and min over the valid
  list, the bad count and the valid count.

Modules:

* `Wrappers` (wrappers.dfy): `Option` and `Result`.
* `Text` (text.dfy): `Join` (`' '.join`), `Split` (`str.split(' ')`) and
  `Collapse` (`re.sub(' +', ' ', …)`), with their round trips and the
  properties of normalisation.
* `Loader` (loader.dfy): the header constant, `Normalize` and the `Grab`
  method. The header is written as its 17 words joined by single spaces. That
  this equals the literal in categorizer.py:58-59 is seen by inspection, not
  proved. `Grab` is the loop that builds the dataset, followed by the header
  check.
* `Classifier` (classifier.dfy): the `Bucket` datatype and `Classify`, checked
  against an independent table of half-open intervals.
* `Aggregator` (aggregator.dfy):
  * specification functions for what one column should hold after a
    sequence of values (`ValidOf`, `BadOf`, `CountIn`, `MaxOf`, `MinOf`);
  * row reading with its error path (`ReadRow`, `ReadAll`);
  * the `ColumnStats` class: nine counters, a valid list and a bad list, updated
    in place by `Route` (the sentinel test) and `Tally` (the bucket chain).
    `Record` runs the two for one value. The columns' state is independent,
    so doing both steps per column gives the same state as the source's order
    (three sentinel tests, then three chains);
  * the `Aggregate` method. Its loop invariants tie the three objects to the
    rows read so far.

The file's I/O is represented by parameters:

* The file's contents are given to `Grab` as lines already cut into fields by
  the space-delimited reader.
* `float()` is passed to `Aggregate` as an arbitrary partial parser
  `string -> Option<real>`.

Python's exceptions become explicit results:

* `max([])` and `min([])` give `None`.
* A row with too few fields gives `FieldMissing`.
* A field that does not parse gives `NotANumber`.
* The first failing row aborts the whole pass, as the uncaught exception does.

The chain at categorizer.py:136-191 is not valid Python as written. It is
modelled as the evident cascade, one strict upper bound per branch:
`< -250`, `< -100`, `< -49`, `< -29`, `< -9`, `< 11`, `< 31`, `< 39`, and
otherwise Above38. The written lower bounds (`> -251`, …, `> 38`) follow from
the earlier tests failing, which `WrittenLowerBounds` proves. The
`list.append` inside each final branch is read as part of a garbled condition,
not as a second append.

On these points the model follows what categorizer.py actually does:

* The bucket chain has no sentinel guard, so a `99999.0` is counted in Above38
  as well as in the bad list (`BadCountedAsAbove38`). The nine counts add up to
  the number of data rows, not to the valid count (`CountsSumToRows`).
* The loader returns the whole dataset, header included; only the aggregator
  drops it.
* Empty input and a header mismatch both give `None`; the code does not tell
  them apart.
* The header check compares the whole normalised line with a fixed string. It
  does not compare tokens.

## Model

| member | source | states |
|---|---|---|
| `Text.Join` | categorizer.py:50 | the joined line starts with the first field, and when no field holds a space it has exactly one space per pair of neighbouring fields |
| `Text.Split` | categorizer.py:116 | cutting at every single space gives one more field than there are spaces, and no field holds a space |
| `Text.JoinSplit` | categorizer.py:116 | joining the pieces of a split with single spaces gives back the original line |
| `Text.SplitJoin` | categorizer.py:50 | splitting the single-space join of at least one space-free field gives the fields back |
| `Text.JoinAppend` | categorizer.py:50 | joining two non-empty field lists in a row puts exactly one space between the two joins |
| `Text.Collapse` | categorizer.py:51 | collapsing never lengthens a line, keeps its first character, and leaves no two neighbouring spaces |
| `Text.CollapseKeepsNonSpaces` | categorizer.py:51 | the non-space characters of a line survive collapsing unchanged and in order |
| `Text.CollapseFixedPoints` | categorizer.py:51 | a line is left unchanged exactly when it has no two neighbouring spaces |
| `Text.CollapseIdempotent` | categorizer.py:51 | normalising twice gives the same line as normalising once |
| `Text.CollapseExtraSpace` | categorizer.py:51 | one more space next to a space does not change the collapsed line |
| `Loader.Normalize` | categorizer.py:50-51 | a stored line has no doubled space and keeps the non-space characters of the joined fields |
| `Loader.Grab` | categorizer.py:49-63 | a dataset is returned exactly when the input is non-empty and its first normalised line is the header; it then has one normalised entry per input line, in order, with the header at entry 0 |
| `Loader.HeaderIsNormal` | categorizer.py:58-59 | the header constant (its 17 words joined by single spaces) is a fixed point of normalisation, a first line made of those words is accepted, and splitting the header gives the words back |
| `Loader.PaddedHeaderAccepted` | categorizer.py:50-59 | a header line with an extra space between two of its words still normalises to the header |
| `Loader.EmptyFieldIgnored` | categorizer.py:48-51 | an empty field between fields, which is what a doubled space becomes, does not change the normalised line |
| `Loader.NormalizeClean` | categorizer.py:50-51 | non-empty space-free fields pass through normalisation unchanged, and splitting the stored line gives them back |
| `Classifier.Classify` | categorizer.py:136-153 | the cascade's bucket is one whose half-open interval holds the value |
| `Classifier.ClassifyMatchesIntervals` | categorizer.py:136-153 | the cascade returns a bucket exactly when its interval holds the value, so the nine intervals cover the reals without overlap |
| `Classifier.ClassifyMonotone` | categorizer.py:136-153 | a larger value never falls in a more severe bucket |
| `Classifier.WrittenLowerBounds` | categorizer.py:138-152 | the lower bound written beside each branch holds whenever that branch is taken |
| `Classifier.ClassifyBoundaries` | categorizer.py:136-153 | -250 is IntenseStorm and below it Superstorm, -100 is ModerateStorm, 11 is AboveAverage, 38.9 is FarAboveAverage, 39 is Above38, and the other thresholds go to the bucket above them |
| `Aggregator.ValidOf` | categorizer.py:121-132 | the valid list never holds the sentinel and has at most as many entries as there were values |
| `Aggregator.BadOf` | categorizer.py:121-132 | the bad list holds only the sentinel |
| `Aggregator.CountIn` | categorizer.py:136-191 | a bucket counter never exceeds the number of values seen |
| `Aggregator.ValidBadPartition` | categorizer.py:121-132 | every value goes to exactly one of the two lists: together they are a permutation of the column, and their lengths add up to the number of data rows |
| `Aggregator.ValidMembers` | categorizer.py:121-132 | a value is in the valid list exactly when it occurs in the column and is not the sentinel |
| `Aggregator.CountsSumToRows` | categorizer.py:136-191 | exactly one counter moves per value, so the nine counts add up to the number of data rows |
| `Aggregator.BadCountedAsAbove38` | categorizer.py:121-153 | the unguarded chain classifies the sentinel as Above38, so that counter is at least the bad count |
| `Aggregator.MaxOf` | categorizer.py:223-225 | the max of a list is absent exactly when the list is empty; otherwise it is an element not below any element |
| `Aggregator.MinOf` | categorizer.py:227-229 | the min of a list is absent exactly when the list is empty; otherwise it is an element not above any element |
| `Aggregator.ExtremesIgnoreBad` | categorizer.py:223-229 | max and min over the valid list exist exactly when some value is not the sentinel; they are then non-sentinel values of the column and bound every non-sentinel value |
| `Aggregator.ReadField` | categorizer.py:117-119 | reading a position succeeds exactly when the row has that field and it parses, giving the parsed value; otherwise the error names the line and the position, and it is a missing field exactly when the row is too short |
| `Aggregator.ReadRow` | categorizer.py:116-119 | a failing row's error names its line and one of positions 7, 10 and 11, and it is the error of the first of those positions, in that order, that cannot be read |
| `Aggregator.ReadRowSucceeds` | categorizer.py:116-119 | a row is read exactly when it has at least twelve fields and fields 7, 10 and 11 parse; the reading holds those parsed values |
| `Aggregator.JustData` | categorizer.py:113 | the rows aggregated are the dataset's entries from 1 on, in order, so the header never reaches them; an empty dataset gives no rows |
| `Aggregator.ReadAll` | categorizer.py:113-119 | a successful read gives one reading per data row |
| `Aggregator.ReadAllSucceeds` | categorizer.py:113-119 | the pass reads successfully exactly when every data row can be read, and the k-th reading is that of the k-th data row |
| `Aggregator.FirstErrorStops` | categorizer.py:115-119 | once some row fails, the whole pass fails with that row's error |
| `Aggregator.ColumnStats.constructor` | categorizer.py:78-111 | a new column starts with empty lists and every counter at zero |
| `Aggregator.ColumnStats.Route` | categorizer.py:121-132 | a value is appended to the valid list, or the sentinel to the bad list, and no counter changes |
| `Aggregator.ColumnStats.Tally` | categorizer.py:136-191 | exactly the counter of the value's bucket goes up by one, with no sentinel test, and the lists are unchanged |
| `Aggregator.ColumnStats.Record` | categorizer.py:121-191 | one value's sentinel test and bucket step: exactly one list grows by the value and exactly one counter by one, and the column then describes the values seen so far plus this one |
| `Aggregator.ColumnStats.Summary` | categorizer.py:223-237 | the reported counts are the lengths of the valid and bad lists; max and min are absent exactly when the valid list is empty, and otherwise are valid values bounding every valid value |
| `Aggregator.ReportedColumn` | categorizer.py:223-237 | for a column fed some values, the nine counts and the valid plus bad counts each add up to the number of rows, the bad count is at most the Above38 count, and the extrema are non-sentinel values that bound every non-sentinel value |
| `Aggregator.Aggregate` | categorizer.py:113-191 | after the header is dropped the pass fails exactly when some data row cannot be read, with the first row's error; otherwise each of the three fresh, distinct column objects holds the lists and counts of its column over all data rows |

## Left out

- Command-line argument handling, `path.isfile` and opening the file (categorizer.py:38-47, 53-54) are I/O. On those paths the dataset stays empty, which is `Grab`'s empty-input case.
- Quote handling by `csv.reader` (categorizer.py:48) is library behaviour. Each line is given as the fields the reader produced.
- `float()` (categorizer.py:117-119) is a library call and is a parameter of `Aggregate`. Values are exact reals, so IEEE double rounding, NaN and the infinities are not modelled.
- The console output (categorizer.py:39, 54, 56, 60, 63, 193-237) is not modelled. This includes the fact that the FarAboveAverage counters are never printed. `ColumnStats.Summary` gives the values the report prints.
- `main` (categorizer.py:240-252) is a driver that calls `dataGrabber` and then `dataParser`; it is not modelled.
- Each dataset entry is a one-element list in the original (`[clean_row]`, read back as `row[0]`). The model stores the string itself.
- Aggregator.ExtremesIgnoreBad: each column's max and min are absent independently. In the original, an empty `dst_list` raises at line 223, before the other columns' extrema are computed.
