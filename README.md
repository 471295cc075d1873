# Rossmann dataset loaders and train/test split, in Dafny

This project models the data-preparation core of a Rossmann store-sales
forecasting project. It covers three CSV loaders:

- the store information loader, where an empty numeric field becomes -1;
- the training-day loader, which returns the input entries and the sales and customers outputs as three parallel lists;
- the test-day loader, where the Id column is ignored and an empty "Open" field becomes 0.

It also covers the splitter that cuts the training data into a training set and a test set along a shuffled index array, and the older top-level store loader that has no sentinel for empty fields.

Each loader is modelled from the moment the file's text is in `content`.
The file is framed into data lines as `content.split('\n')[1:-1]`. Each line is split on `,` and read by position: integers through `int`, quoted strings through `[1:-1]`, one-character columns through `[1]`, and dates through the fixed slices `[:4]`, `[5:7]` and `[8:10]`.
Every exception a line can raise under the modelled `int` (see "## Left out") is an explicit error result: `IndexError` for a missing field or character, and `ValueError` from `int` or `datetime.date`. Exceptions follow Python's left-to-right evaluation order.
A load either returns one record per data line, in file order, or fails with the exception of the first line that raises.

Modules:

- `PyText` (pytext.dfy): the Python semantics the loaders rely on. It covers indexing and clamped slicing, `str.split` with a one-character separator together with its inverse `join`, and `int` on decimal text together with its inverse `str`.
- `Framing` (framing.dfy): line framing, the meaning of a line-by-line load (`Loaded`), and the loop shared by the single-list loaders (`LoadLines`).
- `Loaders` (loaders.dfy): the loaders of src/utils.py, with their field parsers and date parsing.
- `TrainTestSplit` (split.dfy): `separateTrainingSet`. The shuffled index array and the cut point are inputs.
- `PlainStore` (plain_store.dfy): the store loader of the top-level utils.py.

## Model

| member | source | states |
|---|---|---|
| Loaders.StoreIntSentinel | src/utils.py:38-42 | An empty store field reads as -1, and the decimal text of every integer reads back as that integer. |
| Loaders.StoreIntRejects | src/utils.py:38-42 | A non-empty store field that `int` rejects raises ValueError instead of taking the sentinel. |
| Loaders.OpenIntDefault | src/utils.py:160-164 | An empty "Open" field reads as 0, where plain `int` would raise, and the decimal text of every integer reads back as that integer. |
| PyText.IntOfIntText | src/utils.py:40 | For the modelled `int` and `str`, which have no digit limit, `int(str(n)) == n` for every integer `n`: the integer parser inverts decimal printing. |
| PyText.JoinSplit | src/utils.py:55 | Joining the segments of `s.split(sep)` with `sep` gives back `s`. |
| PyText.SplitJoin | src/utils.py:57 | Splitting separator-free parts joined by the separator gives back exactly those parts. |
| Framing.DataLines | src/utils.py:55 | With `c` newlines in the content, there are `c - 1` data lines (none when `c <= 1`, so empty content gives none). Data line `k` is newline segment `k + 1`, and no data line contains a newline. |
| Framing.DataLinesOfFile | src/utils.py:55 | A header, newline-free rows and a final segment joined by newlines frame back into exactly those rows, in order. |
| Framing.LoadLines | src/utils.py:54-70 | The per-line loop: either every data line parsed, with the values in line order, or the index and exception of the first line that raised, with every earlier line parsed. |
| Framing.LoadedOkIff | src/utils.py:56-69 | A load succeeds if and only if every data line parses. |
| Framing.LoadedUnique | src/utils.py:56-69 | The data lines determine the outcome of a load: two outcomes that both satisfy the loop's contract are equal. |
| Loaders.StoreFieldsShape | src/utils.py:57-69 | A store line is accepted if and only if it has at least 10 fields and every numeric column (0, 3-8) is empty or an integer. Each numeric column holds its integer, or -1 when the field is empty. StoreType, Assortment and PromoInterval are fields 1, 2 and 9 without their first and last character. IndexError means fewer than 10 fields. ValueError means some non-empty numeric field that `int` rejects. |
| Loaders.LoadStoreInfo | src/utils.py:54-70 | One store record per data line in file order, or the first failing line's exception. Content with at most one newline gives an empty list. |
| Loaders.ParseDateText | src/utils.py:121-124 | A valid date written as YYYY-MM-DD parses back to that date. |
| Loaders.ParseDateReadsOnlyOffsets | src/utils.py:121-124 | Two date fields that agree on the character ranges [0:4], [5:7] and [8:10] parse alike, whatever the separators or any trailing text. |
| Loaders.TrainingFieldsShape | src/utils.py:113-129 | A training line is accepted if and only if it has at least 9 fields, columns 0, 1 and 3-6 are integers, the date parses, and both holiday fields have a character at index 1. The outputs are columns 3 and 4. The 7-entry record holds columns 0, 1, the date from column 2, columns 5 and 6, and the characters at index 1 of columns 7 and 8. IndexError means too few fields or a holiday field that is too short. ValueError means some integer column or the date that `int` or `date` rejects, and a non-integer Sales column always raises ValueError. |
| Loaders.LoadTrainingData | src/utils.py:107-131 | Three lists of equal length, one entry per data line in file order, each (entry, sales, customers) triple being the parse of its line; or the first failing line's exception. Content with at most one newline gives three empty lists. |
| Loaders.TrainingOutputsAreColumns | src/utils.py:116-117 | After a successful training load, `sales[k]` and `customers[k]` are the integers in columns 3 and 4 of data line `k`. |
| Loaders.TestFieldsShape | src/utils.py:183-194 | A test line is accepted if and only if it has at least 8 fields, columns 1, 2 and 5 are integers, column 4 is empty or an integer, the date parses, and both holiday fields have a character at index 1. The entries come from columns 1-7 in order, with an empty Open field giving 0. IndexError means fewer than 8 fields or a holiday field that is too short. ValueError means an integer column, the date or a non-empty Open field that `int` or `date` rejects, and a non-integer Store column always raises ValueError. |
| Loaders.TestFieldsIgnoreId | src/utils.py:183-194 | Test fields that agree from column 1 on parse alike, whatever column 0 holds. |
| Loaders.TestLineIgnoresId | src/utils.py:183-194 | Two test lines that differ only in their Id field parse alike: the Id is neither copied nor checked. |
| Loaders.LoadTestData | src/utils.py:176-196 | One test entry per data line in file order, or the first failing line's exception. Content with at most one newline gives an empty list. |
| TrainTestSplit.ShuffleEntries | src/utils.py:224-225 | A shuffle of `arange(N)` has length N, holds only indices below N, holds each of them, and holds none twice. |
| TrainTestSplit.SeparateTrainingSet | src/utils.py:222-235 | With shuffled indices `perm` and cut `k`, the training lists have length `k` and the test lists `N - k`. Position `j` of all three training lists comes from original index `perm[j]`, and position `j` of all three test lists from `perm[k + j]`. |
| TrainTestSplit.IndicesPartition | src/utils.py:227-228 | The training slice `perm[:k]` and the test slice `perm[k:]` together hold every index of 0..N-1 exactly once, and nothing else. |
| TrainTestSplit.SeparationKeepsRows | src/utils.py:230-235 | The training rows followed by the test rows are a rearrangement of the input rows, each entry still paired with its own sales and customers: no row is lost, duplicated or altered. |
| TrainTestSplit.ProjectRearranged | src/utils.py:230-235 | Projecting a list through two rearrangements of the same indices gives two rearrangements of the same values. |
| TrainTestSplit.IdealCut | src/utils.py:227 | The exact cut `floor(N * pct / 100)` is a valid cut for a percentage in 0..100, is 0 for 0% and is N for 100%. |
| TrainTestSplit.SplitAtIdealCut | src/utils.py:227-228 | Cut at the exact formula, the training lists hold `floor(N * pct / 100)` entries and the test lists the remaining ones. |
| PlainStore.PlainStoreFieldsShape | utils.py:24-36 | A store line is accepted if and only if it has at least 10 fields and every numeric column is an integer, so an empty numeric field is an error. The string columns are stripped as in the sentinel loader. IndexError means fewer than 10 fields. |
| PlainStore.LoadStoreInfo | utils.py:21-37 | One store record per data line in file order, or the first failing line's exception. Empty content gives an empty list. |
| PlainStore.EmptyNumericFieldFails | utils.py:26-34 | An empty numeric field, which the sentinel loader reads as -1, makes this loader's line raise ValueError. |
| PlainStore.AgreesWithSentinelLoader | utils.py:26-34 | On every line this loader accepts, the sentinel loader of src/utils.py produces the same record. |

## Left out

- File opening and reading (`open`, `fid.read()`) are I/O. Every loader starts from the text already read.
- The `content == -1` branch of each loader is never taken: `fid.read()` returns a string or raises. Empty content falls through to the normal path and gives an empty result, which the loaders' contracts state.
- `np.random.shuffle` is randomness. The shuffled index array is an input, constrained to be a rearrangement of 0..N-1.
- SeparateTrainingSet: the cut `k` is an input in 0..N. The source computes it in floating point as `int(N/100.*pct_tr)`, which is not always the exact `floor(N*pct/100)`. For N = 29 and a percentage of 100 it gives 28 and leaves one entry in the test set. So the documented promise that 100% leaves the test set empty does not hold for every N in the code, and the model follows the code by keeping the cut an input.
- IdealCut: states the exact integer formula as a simplification of the floating-point cut above. It is not the value the source computes for every N.
- SeparateTrainingSet: requires the sales and customers lists to be at least as long as the entries. The source raises IndexError when they are shorter, and this model does not cover that case. A cut below 0 or above N, from a percentage outside 0..100, is also not modelled.
- `compute_RMSPE` is floating-point numerics and is not part of this model.
- `int` is restricted to an optional minus sign followed by ASCII digits. Surrounding whitespace, a `+` sign, underscores and non-ASCII digits, which Python also accepts, are treated as ValueError.
- `int` and `str` have no digit limit here. Recent Python versions raise ValueError for decimal text of more than 4300 digits (`sys.int_info.default_max_str_digits`). The model accepts such a field, and `IntOfIntText` holds without that bound.
- `datetime.date` is reduced to its validity check: a year in 1..9999, a month in 1..12, and a day within the month under the Gregorian leap-year rule. A date is a plain (year, month, day) triple.
- Python's exceptions carry no line number. `LoadError.line`, the index of the failing data line, is added to make the first-failure contract statable.
- Text is a sequence of characters. Universal-newline translation when the file is read (`\r\n` to `\n`) is part of the I/O and is not modelled.
- The `__main__` demonstration blocks only print, and are left out.
