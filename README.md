# sermadrid: a verified model of the parking-availability feature engine

sermadrid predicts how full Madrid's regulated street parking (SER) is. Each
neighbourhood (*barrio*) has a blue (AZUL) and a green (VERDE) zone. The prediction is
made per neighbourhood and hour.

The feature-engineering pipeline works in these steps:

1. It loads the parking-ticket CSV files from a bucket and repairs their header delimiter.
2. It standardises the column names.
3. It cleans the tickets and builds neighbourhood identifiers.
4. It totals the parking spaces per neighbourhood and colour.
5. It splits each ticket that runs past midnight at the evening cutoff; the second part resumes at 09:00.
6. It turns each (barrio, zone) group of tickets into an hourly count of active tickets, using a sweep line (per-hour +1/−1 deltas, a running sum, a forward fill).
7. It zeroes the hours when parking is free.
8. It keeps one zone per neighbourhood.
9. It rescales the counts against the capacity.

A Prophet model per neighbourhood is trained on these counts. At inference time, the
model zeroes its forecast at the closed hours and clamps it at 0. A pipeline can turn
the forecast into a fraction of free spaces. There are two copies of the model and the
pipeline: one in the training package and one in the serving package.

This project models that code in Dafny and proves its rules:

- **Timestamps** are integer seconds (module `Calendar`). An hour index is `t / 3600`, and dates come from the standard days-to-civil conversion. Day of the week uses pandas' convention, Monday = 0.
- **Foreign code** stays uninterpreted and is passed in as function parameters: Prophet's `predict`, the Madrid holiday calendar, `unidecode`, and the bucket download and listing.
- **A Python exception** becomes a `Failure` of the `Result` datatype, named by its class (`IndexError`, `KeyError`, `ValueError`, `AttributeError`), or `Exception` for the bare `Exception` Prophet's `predict` raises on a model that was never fitted.

Where the code changes things in place, the model keeps that form:

- the `.loc[...] = 0` masks are loops over an `array`;
- the model objects are classes whose `model` field `BuildModel`/`Train` set;
- the column rename rewrites a `Frame` object's `columns` field;
- the `spaces_clean` dictionary and the barrio × zone loop are loops.

Each method's ensures gives its new state or its result, in most cases by a
specification function, and the properties are proved about those functions.

Modules:

| module | what it models |
|---|---|
| `Wrappers` | Option, Result |
| `Seqs` | pandas and Python collection operations: mask, `unique`, `sort`, `to_dict` |
| `Text` | `str` methods |
| `Decimal` | `str(n)`, `f"{n:02}"`, `int(s)` |
| `Calendar` | timestamps |
| `Sweep` | the counting behind the hourly grid |
| `Columns` | `zenml/utils/data_loader.py` |
| `DataSources` | `zenml/utils/data_sources.py` |
| `Loader` | `zenml/steps/feature_engineering/data_loader.py` |
| `Preprocessor` | `zenml/steps/feature_engineering/data_preprocessor.py` |
| `Aggregator` | `zenml/steps/feature_engineering/data_aggregator.py` |
| `Tuner` | `zenml/steps/feature_engineering/data_tuner.py` |
| `ProphetModel` | `sermadrid/sermadrid/models.py` |
| `BackendModel` | `backend/sermadrid/sermadrid/models.py` |
| `Pipelines` | `sermadrid/sermadrid/pipelines.py` |
| `BackendPipelines` | `backend/sermadrid/sermadrid/pipelines.py` |

## Model

| member | source | states |
|---|---|---|
| Wrappers.MapAll | zenml/steps/feature_engineering/data_tuner.py:80-85 | A row-wise `apply`: it succeeds exactly when every call succeeds, and then holds each call's value in order. When it fails, it carries the error of the first call that raises, and every earlier call succeeded. |
| Wrappers.MapAllSucceeds | zenml/steps/feature_engineering/data_tuner.py:80-85 | When every call succeeds with the given values, the `apply` returns exactly those values. |
| Wrappers.MapAllFirstFailure | zenml/steps/feature_engineering/data_preprocessor.py:79 | The `apply` raises the error of the first row whose call raises. |
| Seqs.Filter | zenml/steps/feature_engineering/data_aggregator.py:103 | A boolean-mask selection. It keeps exactly the rows that pass the test and is never longer than its input. |
| Seqs.FilterConcat | zenml/steps/feature_engineering/data_aggregator.py:97-103 | Selecting from a concatenation selects from each part, in order. |
| Seqs.FilterAll | zenml/steps/feature_engineering/data_aggregator.py:153-162 | A mask that every row passes keeps the frame unchanged. |
| Seqs.FilterFilter | zenml/steps/feature_engineering/data_preprocessor.py:37-38 | Two successive masks are one mask on their conjunction. |
| Seqs.FilterConcatKeeps | zenml/steps/feature_engineering/data_aggregator.py:97-103 | A row of either part of a concatenation that passes the test survives it. |
| Seqs.Dedup | zenml/steps/feature_engineering/data_aggregator.py:130-131 | `unique()`: holds exactly the values of the input, each once, no more of them than the input has. `DedupOrder` gives their order. |
| Seqs.FirstIndex | zenml/steps/feature_engineering/data_aggregator.py:130-131 | The first occurrence of a value: the value stands there and nowhere before it. |
| Seqs.DedupOrder | zenml/steps/feature_engineering/data_aggregator.py:130-131 | `unique()` lists the values in the order of their first occurrences in the input. |
| Seqs.Insert | zenml/steps/feature_engineering/data_loader.py:38 | Insertion into a sorted list: one element more, the same multiset plus the new element, and still sorted under a total order. |
| Seqs.InsertionSort | zenml/steps/feature_engineering/data_loader.py:38 | `list.sort()`: a permutation of the input, sorted under a total order. |
| Seqs.InsertionSortDistinct | zenml/steps/feature_engineering/data_preprocessor.py:121-128 | Sorting values without repeats gives values without repeats. |
| Seqs.ToDictKeys | zenml/steps/feature_engineering/data_preprocessor.py:145 | `to_dict`: the keys are exactly the rows' keys, and each value is the value of a row with that key. |
| Seqs.ToDictLastWins | zenml/steps/feature_engineering/data_preprocessor.py:68 | `to_dict`: the last row with a key decides that key's value. |
| Text.StripLeft | zenml/utils/data_loader.py:11 | `lstrip()`: a suffix of the input that does not start with whitespace, with only whitespace removed before it. |
| Text.StripRight | zenml/utils/data_loader.py:11 | `rstrip()`: a prefix of the input that does not end with whitespace, with only whitespace removed after it. |
| Text.StripInfix | zenml/steps/feature_engineering/data_preprocessor.py:67 | `strip()` returns an infix of its input with no whitespace at either end, and only whitespace is cut on either side. |
| Text.StripIdempotent | zenml/utils/data_loader.py:11 | Stripping a stripped string changes nothing. |
| Text.ReplaceChar | zenml/steps/feature_engineering/data_loader.py:63-68 | `replace(a, b)`: same length; every `a` becomes `b`, and every other character stays. |
| Text.ReplaceCharRemoves | zenml/steps/feature_engineering/data_loader.py:63-68 | After the replacement no `a` is left, and a `b` already present stays. |
| Text.ReplaceCharAbsent | zenml/utils/data_sources.py:73-78 | Replacing a character that does not occur leaves the string unchanged. |
| Text.IndexOf | zenml/utils/data_sources.py:69-70 | The position of the first occurrence of a character: it is there, and not before. |
| Text.IndexOfAt | zenml/utils/data_sources.py:69-70 | An occurrence with none before it is the one `IndexOf` finds. |
| Text.Split | zenml/steps/feature_engineering/data_loader.py:58 | `split("\n")`: at least one piece, no piece holds the separator, and joining the pieces gives back the text. |
| Text.SplitJoin | zenml/steps/feature_engineering/data_loader.py:58-61 | Splitting a join of separator-free pieces gives back the pieces. |
| Text.LexLeTotal | zenml/steps/feature_engineering/data_loader.py:38 | Python's string order compares every two strings one way or the other, so `sort()` is well defined. |
| Text.LexLeAntisymmetricAt | zenml/steps/feature_engineering/data_loader.py:38 | Two strings each at or below the other are equal. |
| Text.WordEnd | zenml/steps/feature_engineering/data_preprocessor.py:118 | The end of the first word: no whitespace before it, whitespace (or the end) at it. |
| Text.WordsAreWords | zenml/steps/feature_engineering/data_preprocessor.py:118 | Every piece of `split()` is non-empty and free of whitespace. |
| Text.WordsJoinSpace | zenml/steps/feature_engineering/data_preprocessor.py:118 | `split()` undoes `" ".join` on a list of words. |
| Decimal.DigitChar | zenml/steps/feature_engineering/data_preprocessor.py:54-55 | A digit becomes a decimal digit character whose value is that digit. |
| Decimal.DigitValue | zenml/steps/feature_engineering/data_preprocessor.py:56 | The value of a digit character is below 10. `DigitChar` and `ParseShow` pin the value of each digit. |
| Decimal.Pow10 | zenml/steps/feature_engineering/data_preprocessor.py:56 | Powers of ten are positive. `ParseAppend` pins their role as the shift of a numeral. |
| Decimal.Show | zenml/steps/feature_engineering/data_preprocessor.py:54 | `str(n)`: a non-empty string of digits, one digit long exactly when `n < 10`. |
| Decimal.ParseShow | zenml/steps/feature_engineering/data_preprocessor.py:53-56 | `int(str(n)) == n`. |
| Decimal.AllDigitsAppend | zenml/steps/feature_engineering/data_preprocessor.py:54-55 | Concatenating two digit strings gives a digit string. |
| Decimal.ParseAppend | zenml/steps/feature_engineering/data_preprocessor.py:53-56 | The value of a concatenated numeral is the left part shifted by the right part's length, plus the right part. |
| Decimal.Pad2 | zenml/steps/feature_engineering/data_preprocessor.py:55 | `f"{n:02}"`: at least two characters, all of them digits. |
| Decimal.Pad2Value | zenml/steps/feature_engineering/data_preprocessor.py:55 | Below 100 the padded numeral has exactly two digits and reads back as `n`. |
| Calendar.HourIndex | zenml/steps/feature_engineering/data_aggregator.py:108 | `floor("h")`: the hour index covers the timestamp (`h*3600 <= t < (h+1)*3600`). |
| Calendar.StartOfDay | zenml/steps/feature_engineering/data_aggregator.py:53-62 | Midnight of the day holding `t`: at or before `t`, and less than a day before it. |
| Calendar.OnDayOf | zenml/steps/feature_engineering/data_aggregator.py:53-62 | `pd.Timestamp(year, month, day, hour, minute)`: the same calendar day as `t`, at that hour and minute. |
| Calendar.HourOfDay | zenml/steps/feature_engineering/data_aggregator.py:142 | `index.hour` of an hour index: 0 to 23. `HourFields` pins the value. |
| Calendar.Hour | sermadrid/sermadrid/models.py:65-67 | `ds.dt.hour`: an hour of the day, 0 to 23. `HourFields` pins the value. |
| Calendar.WeekdayOfDay | zenml/steps/feature_engineering/data_aggregator.py:48 | The day of the week of a day index: 0 to 6. `KnownMonday` pins the value. |
| Calendar.DayOfWeek | sermadrid/sermadrid/models.py:64 | `dayofweek` of a timestamp: 0 to 6. `KnownMonday` pins the value. |
| Calendar.DayOfWeekOfHour | zenml/steps/feature_engineering/data_aggregator.py:144 | `index.dayofweek` of an hour index: 0 to 6. `HourFields` and `KnownMonday` pin the value. |
| Calendar.HourFields | zenml/steps/feature_engineering/data_aggregator.py:142-152 | The hour, weekday and month of an hour index are those of the hour's first second. |
| Calendar.KnownMonday | zenml/steps/feature_engineering/data_aggregator.py:48 | Day 19422 is Monday 6 March 2023, so weekday 0 is Monday and 5 is Saturday, as in pandas. |
| Calendar.HourIndexSplit | zenml/steps/feature_engineering/data_aggregator.py:108 | The hour index is the day's first hour plus the hour of the day. |
| Calendar.HourIndexMonotone | zenml/steps/feature_engineering/data_aggregator.py:116-118 | Flooring to the hour keeps the order of timestamps. |
| Columns.StandardNames | zenml/utils/data_loader.py:11-16 | Every label is stripped, then `cod_distrito`/`cod_barrio` are renamed. The count and order of the columns are kept. |
| Columns.StripUnchanged | zenml/utils/data_loader.py:11 | A label with no whitespace at its ends is its own strip. |
| Columns.StandardNameRules | zenml/utils/data_loader.py:11-16 | A standard label has no surrounding whitespace. The two code names are spelled out. Any other label is only stripped. |
| Columns.StandardNamesIdempotent | zenml/utils/data_loader.py:11-16 | Standardising twice changes nothing more. |
| Columns.StandardizeParkingColumns | zenml/utils/data_loader.py:4-17 | Rewrites the caller's frame in place and returns that same frame. Its labels become the standard names of the old labels. |
| DataSources.ReadLine | zenml/utils/data_sources.py:69-71 | `readline()`: the line with its newline, or all the text if there is no newline; line and rest concatenate back to the text. |
| DataSources.ReadLineOf | zenml/utils/data_sources.py:69-71 | A line followed by a newline reads back as that line with its newline. |
| DataSources.ChooseDelimiter | zenml/utils/data_sources.py:72 | The delimiter is `;` exactly when the second line holds `;`, and `,` otherwise. |
| DataSources.FixHeaderRules | zenml/utils/data_sources.py:73-78 | A header holding the delimiter is unchanged. Otherwise, the other delimiter is replaced throughout the header and none of it is left. Length and every other character are kept. |
| DataSources.NewlineKeepsDelimiter | zenml/utils/data_sources.py:68-79 | A line's trailing newline changes neither the delimiter choice nor the header rewrite. |
| DataSources.FixDelimiterLocalLines | zenml/utils/data_sources.py:68-79 | The repaired text is `first' + "\n" + second + "\n" + rest`. `first` and `second` keep their own newlines, so the result has an empty line after each. |
| DataSources.LoadCsvSource | zenml/utils/data_sources.py:98-100 | The delimiter is repaired (a buffer) exactly when the encoding is `"UTF-8"`. Otherwise the path is passed on unchanged. |
| DataSources.ListLocalCsv | zenml/utils/data_sources.py:123-127 | The same set of names as the directory entries ending in `.csv`, each joined to the path. |
| DataSources.ListLocalCsvInOrder | zenml/utils/data_sources.py:123-127 | The listing is the `.csv` entries filtered in listing order, repetitions kept, each joined to the path. |
| DataSources.CsvKeys | zenml/steps/feature_engineering/data_loader.py:29-34 | Exactly the listed keys ending in `.csv`, or none when the response has no `Contents`. |
| DataSources.CsvKeysInOrder | zenml/utils/data_sources.py:172-177 | The `.csv` keys in the order the listing gives them. |
| DataSources.S3DataSource.constructor | zenml/utils/data_sources.py:140-142 | Records the bucket name. |
| DataSources.S3DataSource.ListCsvFiles | zenml/utils/data_sources.py:162-177 | Exactly the `.csv` keys the bucket lists under the prefix. |
| Loader.FixDelimiter | zenml/steps/feature_engineering/data_loader.py:58-69 | Raises IndexError exactly when the text has no newline (no `lines[1]`). |
| Loader.JoinFirstTwo | zenml/steps/feature_engineering/data_loader.py:61 | `"\n".join` of three or more lines is the first two lines, each followed by a newline, then the join of the rest. |
| Loader.FixDelimiterLines | zenml/steps/feature_engineering/data_loader.py:58-69 | On header, newline, second line, newline, rest: the delimiter is chosen from the second line, and only the header is rewritten. |
| Loader.FixDelimiterKeeps | zenml/steps/feature_engineering/data_loader.py:58-69 | Three or more lines with the delimiter already in the header: the corrected text equals the downloaded text. |
| Loader.FixDelimiterTwoLines | zenml/steps/feature_engineering/data_loader.py:58-69 | A two-line text comes back with a trailing newline (the empty `rest_of_file`). |
| Loader.Prepare | zenml/steps/feature_engineering/data_loader.py:53-69 | One file: fails exactly when its delimiter fix fails. Otherwise it holds the key, the corrected text and the delimiter. |
| Loader.SortedCsvKeysSpec | zenml/steps/feature_engineering/data_loader.py:29-38 | The sorted listing is sorted, is a permutation of the `.csv` keys, and holds exactly them. |
| Loader.Chosen | zenml/steps/feature_engineering/data_loader.py:52 | `csv_files[:2]`: the first two sorted keys, or all of them when fewer than two are listed. |
| Loader.LoadedInputs | zenml/steps/feature_engineering/data_loader.py:49-78 | Fails exactly when no file is chosen (ValueError from `concat`) or a chosen file fails. Otherwise it holds one prepared input per chosen file, in order. |
| Loader.LoadedInputsKeys | zenml/steps/feature_engineering/data_loader.py:49-78 | On success, exactly two files are loaded when two or more keys are listed, and otherwise one. They are the first keys of the sorted `.csv` listing, in sorted order. |
| Loader.LoadedInputsOrder | zenml/steps/feature_engineering/data_loader.py:38-52 | The first file loaded has the least key of the listing, and the second file's key follows it. |
| Loader.ParkingsDataLoader | zenml/steps/feature_engineering/data_loader.py:13-78 | The step (list, sort in place, take two, download in a loop) returns `LoadedInputs`. |
| Loader.PrepareFiles | zenml/steps/feature_engineering/data_loader.py:52-75 | The download loop prepares each file in order and stops at the first that raises (`MapAll`). |
| Loader.StandardizeColumns | zenml/steps/feature_engineering/data_loader.py:40-47 | The same in-place rewrite of the labels as `standardize_parking_columns`, returning the same frame. |
| Preprocessor.ValidTickets | zenml/steps/feature_engineering/data_preprocessor.py:37-38 | A ticket survives exactly when it starts in 2020 or later and strictly before it ends. The mask never adds rows. |
| Preprocessor.BarrioIdValue | zenml/steps/feature_engineering/data_preprocessor.py:53-56 | For a barrio number below 100, `int(str(distrito) + f"{barrio:02}")` is `distrito*100 + barrio`. |
| Preprocessor.CodigoCombinadoShape | zenml/steps/feature_engineering/data_preprocessor.py:57-61 | For numbers below 100, the combined code is `DD-DD` and each half reads back as its number. |
| Preprocessor.NamedTriples | zenml/steps/feature_engineering/data_preprocessor.py:41-46 | `barrio_non_number_df`: the (name, district, barrio) triples are exactly those of the rows whose name does not start with a digit. |
| Preprocessor.TripleEntries | zenml/steps/feature_engineering/data_preprocessor.py:53-66 | The (name, id, code) rows are exactly those built from the triples. |
| Preprocessor.BarrioTableComplete | zenml/steps/feature_engineering/data_preprocessor.py:41-67 | `barrio_df` holds the cleaned entry of every row whose name does not start with a digit. |
| Preprocessor.BarrioTableSound | zenml/steps/feature_engineering/data_preprocessor.py:41-67 | Every `barrio_df` row is the cleaned entry of such a row. |
| Preprocessor.BarrioToIdLastWins | zenml/steps/feature_engineering/data_preprocessor.py:68 | Each name of `barrio_df` maps to the id of its last row. |
| Preprocessor.FirstMatch | zenml/steps/feature_engineering/data_preprocessor.py:72-74 | `.values[0]` of the rows with a combined code: None exactly when no row has it. Otherwise it is the name of the first such row. |
| Preprocessor.CleanBarrio | zenml/steps/feature_engineering/data_preprocessor.py:70-77 | An empty name raises IndexError. A name not starting with a digit becomes `unidecode(strip(name))`. A name starting with a digit becomes the first table name with that combined code, or raises IndexError when none has it. |
| Preprocessor.LabelAll | zenml/steps/feature_engineering/data_preprocessor.py:79-81 | Every row is labelled with its cleaned name, in order. |
| Preprocessor.ParkingsDataPreprocessor | zenml/steps/feature_engineering/data_preprocessor.py:15-87 | Raises exactly when some valid row's name cannot be cleaned, and then with IndexError. No returned row names a test installation. `PreprocessedLabelling` and `PreprocessedComplete` give the rows themselves. |
| Preprocessor.PreprocessedRows | zenml/steps/feature_engineering/data_preprocessor.py:30-87 | Each returned row is a valid raw row with its cleaned name and the id of that name, and it is valid. Its name is neither a test installation nor `PILAR`. |
| Preprocessor.PreprocessedLabelling | zenml/steps/feature_engineering/data_preprocessor.py:30-87 | The output is the valid rows, in order, each labelled with its cleaned name and that name's id, with the test installations masked out. |
| Preprocessor.PreprocessedComplete | zenml/steps/feature_engineering/data_preprocessor.py:79-84 | No valid row is lost: every valid row whose label is not a test installation is in the output. |
| Preprocessor.FindCode | zenml/steps/feature_engineering/data_preprocessor.py:113 | The leftmost match of `\d{2}-\d{2}` at or after a position, or None when there is none. |
| Preprocessor.SpacesBarrioId | zenml/steps/feature_engineering/data_preprocessor.py:111-116 | Raises ValueError exactly when the text has no `DD-DD`. Otherwise there is a first match, and the id is the number its four digits spell. |
| Preprocessor.SpacesIdMatchesTicketId | zenml/steps/feature_engineering/data_preprocessor.py:53-61 | The id read from a spaces row that opens with a ticket's combined code equals the ticket's `barrio_id`. |
| Preprocessor.SpacesBarrioIdFirstMatch | zenml/steps/feature_engineering/data_preprocessor.py:111-116 | The id is read from the leftmost `DD-DD` of the text, wherever it stands. |
| Preprocessor.SpacesBarrioNameDropsCode | zenml/steps/feature_engineering/data_preprocessor.py:117-120 | The spaces name drops the leading code word and keeps the other words. |
| Preprocessor.SumPlazasNonNegative | zenml/steps/feature_engineering/data_preprocessor.py:121-125 | With non-negative counts, each (name, id, colour) total is non-negative. |
| Preprocessor.SumPlazasAppend | zenml/steps/feature_engineering/data_preprocessor.py:121-125 | Another row changes a total only when it belongs to that group and colour, and then adds its count. |
| Preprocessor.UniqueKeys | zenml/steps/feature_engineering/data_preprocessor.py:121-128 | The (name, id) keys of the rows, each exactly once. |
| Preprocessor.GroupKeys | zenml/steps/feature_engineering/data_preprocessor.py:121-128 | The group keys: exactly the keys of the rows, each once, in ascending order of name and then id. |
| Preprocessor.GroupsOf | zenml/steps/feature_engineering/data_preprocessor.py:126-139 | One row per key, in the keys' order. Each has the blue and green totals of its key, 0 for an absent colour, and their sum. |
| Preprocessor.SpacesGrouped | zenml/steps/feature_engineering/data_preprocessor.py:121-142 | `spaces_grouped_df`: the groups' keys are exactly the rows' keys, without repeats, in ascending order. Each group has its per-colour totals, and `num_plazas` is their sum. |
| Preprocessor.SpacesGroupedConserves | zenml/steps/feature_engineering/data_preprocessor.py:121-137 | No space is lost or counted twice: the groups' `num_plazas` add up to the blue and green spaces of the rows. |
| Preprocessor.SpacesGroupedDf | zenml/steps/feature_engineering/data_preprocessor.py:111-142 | Fails exactly when some row has no code (ValueError) or a colour is absent from every row (KeyError). Otherwise it returns `SpacesGrouped` of the rows, each labelled with its id and name. |
| Preprocessor.GetNumPlazas | zenml/steps/feature_engineering/data_preprocessor.py:147-153 | The blue count when it is non-zero, otherwise the green count. |
| Preprocessor.GetNumPlazasPositive | zenml/steps/feature_engineering/data_preprocessor.py:147-153 | With non-negative counts and some capacity, the capacity chosen is positive. |
| Preprocessor.LabelSpace | zenml/steps/feature_engineering/data_preprocessor.py:111-120 | A spaces row fails (ValueError) exactly when it has no code. Otherwise it carries the decoded id, the cleaned name, its colour and its count. |
| Preprocessor.SpacesClean | zenml/steps/feature_engineering/data_preprocessor.py:155-160 | Every id of `spaces_dict` gets an entry. Each entry holds that id's name and the capacity `get_num_plazas` picks. |
| Preprocessor.CleanEntries | zenml/steps/feature_engineering/data_preprocessor.py:156-160 | The loop fills one entry per id visited, each with its name and chosen capacity. |
| Preprocessor.SpacesDataPreprocessor | zenml/steps/feature_engineering/data_preprocessor.py:90-162 | Fails exactly when `SpacesGroupedDf` fails. Otherwise it returns that grouped frame and a `spaces_clean` holding every id, each with its name and the capacity `get_num_plazas` picks. |
| Aggregator.NoParkingStartHour | zenml/steps/feature_engineering/data_aggregator.py:47-51 | The cutoff hour is 14 exactly when the start is in August or on a Saturday, and 20 otherwise. |
| Aggregator.ProcessParkingDates | zenml/steps/feature_engineering/data_aggregator.py:40-81 | Two segments, both with the ticket's barrio and zone. The first runs from the start to the cutoff hour:59 on the start's day. The second runs from 09:00 on the end's day to the end. |
| Aggregator.ExpandAll | zenml/steps/feature_engineering/data_aggregator.py:83-88 | Two segments per expanded ticket, in ticket order. |
| Aggregator.Unsplit | zenml/steps/feature_engineering/data_aggregator.py:93-96 | The tickets that are not split, reduced to their four columns, in order. |
| Aggregator.PreAggregate | zenml/steps/feature_engineering/data_aggregator.py:93-103 | Only blue and green segments survive the zone filter. `PreAggregateSound`, `PreAggregateKeepsUnsplit` and `PreAggregateKeepsHalves` give the rest. |
| Aggregator.ExpandAllSound | zenml/steps/feature_engineering/data_aggregator.py:83-88 | Every segment of the expansion is a half of an expanded ticket. |
| Aggregator.ExpandAllComplete | zenml/steps/feature_engineering/data_aggregator.py:83-88 | Both halves of every expanded ticket are in the expansion. |
| Aggregator.PreAggregateSound | zenml/steps/feature_engineering/data_aggregator.py:33-103 | Every kept segment is in a blue or green zone. It is either a ticket whose start and end share the day of the month, projected, or a half of a ticket whose days differ. |
| Aggregator.PreAggregateKeepsUnsplit | zenml/steps/feature_engineering/data_aggregator.py:93-103 | A blue or green ticket that stays on its day of the month is kept unchanged (its four columns). |
| Aggregator.PreAggregateKeepsHalves | zenml/steps/feature_engineering/data_aggregator.py:83-103 | Both halves of a blue or green ticket that changes day are kept. |
| Aggregator.ExpandedInPre | zenml/steps/feature_engineering/data_aggregator.py:97-103 | A blue or green segment of the expansion survives the concatenation and the zone filter. |
| Aggregator.MinStart | zenml/steps/feature_engineering/data_aggregator.py:117 | `min()` of the starts: at or below every start, and attained. |
| Aggregator.MaxEnd | zenml/steps/feature_engineering/data_aggregator.py:118 | `max()` of the ends: at or above every end, and attained. |
| Aggregator.CreateBarrioAgg | zenml/steps/feature_engineering/data_aggregator.py:107-126 | One row per hour from `floor(min start)` to `floor(max end + 1h)`. At hour h the count is the number of segments with `floor(start) <= h` minus the number with `floor(end + 1h) <= h`. |
| Aggregator.ActiveNonNegative | zenml/steps/feature_engineering/data_aggregator.py:107-126 | When every segment starts no later than it ends, no count is negative. |
| Aggregator.HoursWithinGrid | zenml/steps/feature_engineering/data_aggregator.py:116-120 | When every segment is ordered, every start and end hour lies at or before the grid's last hour. |
| Aggregator.LastHourZero | zenml/steps/feature_engineering/data_aggregator.py:107-126 | When every segment is ordered, the grid is not empty and its last hour counts 0. |
| Aggregator.ActiveAppend | zenml/steps/feature_engineering/data_aggregator.py:108-115 | One more segment adds 1 at the hours from its start hour on, and takes 1 away from its end hour on. |
| Aggregator.SingleTicketGrid | zenml/steps/feature_engineering/data_aggregator.py:107-126 | A lone ticket from 09:00 to 11:00 gives a four-row grid counting 1, 1, 1, 0 at 9, 10, 11 and 12. |
| Aggregator.LateStartSegment | zenml/steps/feature_engineering/data_aggregator.py:53-81 | A ticket starting two or more hours after its cutoff gives a first half that ends before it starts. That half takes 1 away at hours where it never counted. |
| Aggregator.GroupOfMembers | zenml/steps/feature_engineering/data_aggregator.py:132-135 | A group holds exactly the segments with its barrio and zone. A NaN barrio matches nothing. |
| Aggregator.Tag | zenml/steps/feature_engineering/data_aggregator.py:138-139 | Every grid row is tagged with the group's barrio and zone, and the hours and counts are kept. |
| Aggregator.GroupFrame | zenml/steps/feature_engineering/data_aggregator.py:132-139 | A group's frame fails exactly when the group is empty, and then with ValueError. |
| Aggregator.ZoneRows | zenml/steps/feature_engineering/data_aggregator.py:131-140 | The inner loop fails exactly when one of its zones' frames fails. |
| Aggregator.GroupRows | zenml/steps/feature_engineering/data_aggregator.py:130-140 | The nested loop fails exactly when one of its barrios' inner loops fails. |
| Aggregator.BarriosZonesNonEmpty | zenml/steps/feature_engineering/data_aggregator.py:130-131 | There are barrios and zones to loop over exactly when there are segments. |
| Aggregator.ZoneRowsPrefixFails | zenml/steps/feature_engineering/data_aggregator.py:131-140 | Once the zones up to some point fail, the whole inner loop fails with the same error. |
| Aggregator.GroupRowsPrefixFails | zenml/steps/feature_engineering/data_aggregator.py:130-140 | Once the barrios up to some point fail, the whole loop fails with the same error. |
| Aggregator.AppendZoneFrames | zenml/steps/feature_engineering/data_aggregator.py:131-140 | The inner loop appends the frames of a barrio's zones to the list, in order, or reports that one raised. |
| Aggregator.AggregateGroups | zenml/steps/feature_engineering/data_aggregator.py:129-141 | The nested loop with `concat`. No barrio or no zone raises ValueError (nothing to concatenate). Otherwise the result is the frames of every barrio and zone, barrio by barrio. |
| Aggregator.ZoneRowsSound | zenml/steps/feature_engineering/data_aggregator.py:131-140 | Every gathered row comes from the frame of one of the zones. |
| Aggregator.GroupRowsSound | zenml/steps/feature_engineering/data_aggregator.py:130-141 | Every concatenated row comes from the frame of some barrio and zone of the loop. |
| Aggregator.ZoneRowsComplete | zenml/steps/feature_engineering/data_aggregator.py:131-140 | Every row of every zone's frame is gathered. |
| Aggregator.GroupRowsComplete | zenml/steps/feature_engineering/data_aggregator.py:130-141 | Every row of every barrio and zone frame is in the concatenation. |
| Aggregator.ZoneRowsError | zenml/steps/feature_engineering/data_aggregator.py:131-140 | The inner loop's error is that of one of its zones' frames. |
| Aggregator.GroupRowsError | zenml/steps/feature_engineering/data_aggregator.py:130-141 | The loop's error is that of one barrio and zone frame. |
| Aggregator.GroupFrameRows | zenml/steps/feature_engineering/data_aggregator.py:132-139 | A row of a group's frame carries the group's tags, lies on the group's grid and holds the count at its hour. |
| Aggregator.TaggedGridHasHour | zenml/steps/feature_engineering/data_aggregator.py:116-139 | Every hour of the grid has its tagged row with the count at that hour. |
| Aggregator.GroupFrameHasHour | zenml/steps/feature_engineering/data_aggregator.py:116-139 | Every hour of a non-empty group's grid has its row in the group's frame. |
| Aggregator.MaskRows | zenml/steps/feature_engineering/data_aggregator.py:142-152 | The three masks as one function: the same rows, in order, each masked on its own. |
| Aggregator.MaskRowsIdempotent | zenml/steps/feature_engineering/data_aggregator.py:142-152 | Masking twice is masking once. |
| Aggregator.MaskedHour | zenml/steps/feature_engineering/data_aggregator.py:142-152 | Only 15:00 and 21:00 are ever masked. `MaskRows` and `ApplyScheduleMasks` apply it. |
| Aggregator.SelectZones | zenml/steps/feature_engineering/data_aggregator.py:153-162 | Keeps exactly the selected rows: green for barrios 101 to 106, blue for the others. It never adds rows. |
| Aggregator.ZeroWhere | zenml/steps/feature_engineering/data_aggregator.py:142 | `.loc[mask, "active_tickets"] = 0` in place: the rows whose hour the mask selects count 0, and every other field and row is unchanged. |
| Aggregator.ApplyScheduleMasks | zenml/steps/feature_engineering/data_aggregator.py:142-152 | The three in-place masks leave the array equal to `MaskRows` of its old contents. Hour 21 becomes 0, and so do Saturday 15:00 and August Monday–Friday 15:00. No row is added or removed. |
| Aggregator.MaskSelectCommute | zenml/steps/feature_engineering/data_aggregator.py:142-162 | Masking then selecting zones equals selecting then masking. |
| Aggregator.DataAggregator | zenml/steps/feature_engineering/data_aggregator.py:14-163 | The step returns `Aggregated`: split, zone filter, the per-group loop, in-place masks, zone selection. |
| Aggregator.AggregateSegments | zenml/steps/feature_engineering/data_aggregator.py:128-163 | The part after the split returns `AggregateFrom` of the segments. |
| Aggregator.AggregateFrom | zenml/steps/feature_engineering/data_aggregator.py:128-162 | No segment raises ValueError. Every returned row is of its barrio's selected zone. `AggregateFromFails`, `AggregateFromRows` and `AggregateFromComplete` give the rest. |
| Aggregator.MaskAndSelect | zenml/steps/feature_engineering/data_aggregator.py:141-162 | The concatenated frame, masked in place, then reduced to the selected zones. |
| Aggregator.GroupRowsFailsOnEmpty | zenml/steps/feature_engineering/data_aggregator.py:130-137 | If the loop fails, some barrio and zone have no segment together, and the error is ValueError. |
| Aggregator.EmptyGroupFails | zenml/steps/feature_engineering/data_aggregator.py:130-137 | A barrio and zone seen in the segments but with no segment together make the loop fail. |
| Aggregator.AggregateFromFails | zenml/steps/feature_engineering/data_aggregator.py:128-141 | The step raises exactly when no segment survives or some (barrio, zone) combination is empty, always with ValueError. |
| Aggregator.AggregateFromRows | zenml/steps/feature_engineering/data_aggregator.py:128-162 | Every returned row: barrios 101–106 are green, all others blue, and a masked hour counts 0. An unmasked row is a row of its group's grid with the count at its hour. A masked row is such a grid row with its count zeroed. |
| Aggregator.GroupIsVisited | zenml/steps/feature_engineering/data_aggregator.py:130-131 | A non-empty group's barrio and zone are among those the loop visits. |
| Aggregator.MaskedSelectedIn | zenml/steps/feature_engineering/data_aggregator.py:142-162 | A row of the kept zone survives masking and selection, masked. |
| Aggregator.AggregateFromComplete | zenml/steps/feature_engineering/data_aggregator.py:128-162 | Every hour of every non-empty group's grid in the kept zone is returned, with its count masked. |
| Sweep.CountAt | zenml/steps/feature_engineering/data_aggregator.py:108 | `value_counts()[h]`: the number of entries equal to `h`, at most the length. |
| Sweep.CountUpTo | zenml/steps/feature_engineering/data_aggregator.py:108-115 | The number of entries at or below `h`, at most the length. |
| Sweep.CountUpToAppend | zenml/steps/feature_engineering/data_aggregator.py:108-115 | One more entry adds one to the count exactly when it is at or below `h`. |
| Sweep.CountUpToMonotone | zenml/steps/feature_engineering/data_aggregator.py:108-115 | Raising every entry can only lower the count. |
| Sweep.SortedKeys | zenml/steps/feature_engineering/data_aggregator.py:108-115 | `value_counts().sort_index()` index: strictly increasing, and holds exactly the values. |
| Sweep.CumSum | zenml/steps/feature_engineering/data_aggregator.py:115 | `cumsum()`: each entry is the sum of the differences up to it. |
| Sweep.LastAtOrBefore | zenml/steps/feature_engineering/data_aggregator.py:122 | The forward-fill source: the last key at or below `h`, or −1 when there is none. |
| Sweep.Deltas | zenml/steps/feature_engineering/data_aggregator.py:115 | `subtract(fill_value=0)` on the union index: starts minus ends at each key. |
| Sweep.SweepCounts | zenml/steps/feature_engineering/data_aggregator.py:108-125 | At every hour, the forward-filled running sum of starts minus ends equals the starts at or before the hour minus the ends at or before it. |
| Sweep.SweepCountsEverywhere | zenml/steps/feature_engineering/data_aggregator.py:108-125 | The same at every hour at once. |
| Sweep.SweepGrid | zenml/steps/feature_engineering/data_aggregator.py:116-125 | The values on a run of consecutive hours, each equal to the count difference at its hour. |
| Tuner.CapacityOf | zenml/steps/feature_engineering/data_tuner.py:33-38 | The first capacity row with the barrio, or None exactly when no row has it. |
| Tuner.MaxActiveTickets | zenml/steps/feature_engineering/data_tuner.py:74-79 | The largest count of every barrio over all its rows, whatever the zone: at least every count, and attained. |
| Tuner.BaseFactor | zenml/steps/feature_engineering/data_tuner.py:45-47 | The base factor is 0.9 without green spaces, and never above 0.9 with blue spaces. |
| Tuner.HourlyFactor | zenml/steps/feature_engineering/data_tuner.py:49-64 | `hourly_factors.get(hour, 1.0)`: 1.0 outside 9 to 20. From 9 to 20 it lies between the base and the base plus 0.3. |
| Tuner.FixActiveTickets | zenml/steps/feature_engineering/data_tuner.py:28-71 | Raises exactly for a central barrio with a capacity row but no maximum, and then a KeyError. |
| Tuner.DataTuner | zenml/steps/feature_engineering/data_tuner.py:80-85 | A frame without rows raises ValueError. Otherwise, on success: the same number of rows, each keeping its hour, barrio and zone. Only the count changes, to the value of `_fix_active_tickets`. |
| Tuner.DataTunerSucceeds | zenml/steps/feature_engineering/data_tuner.py:69-85 | The tuner succeeds exactly on a non-empty frame: the maxima hold every barrio of the frame, so no lookup raises. |
| Tuner.NoRecordUnchanged | zenml/steps/feature_engineering/data_tuner.py:33-35 | A barrio without a capacity record keeps its count. |
| Tuner.NoBlueSpacesUnchanged | zenml/steps/feature_engineering/data_tuner.py:40-43 | A non-central barrio with no blue spaces keeps its count. |
| Tuner.OffHoursUnchanged | zenml/steps/feature_engineering/data_tuner.py:64-66 | Outside 9:00–20:59 a non-central count is unchanged (factor 1.0). |
| Tuner.HourlyFactorRises | zenml/steps/feature_engineering/data_tuner.py:49-62 | The factor never falls from one opening hour to the next. |
| Tuner.BlueScaling | zenml/steps/feature_engineering/data_tuner.py:45-66 | A non-central count with blue spaces is multiplied by the base factor at 9 to 15, and by the base plus 0.05, 0.15, 0.2, 0.25 and 0.3 at 16, 17, 18, 19 and 20. |
| Tuner.CentralDifferencesPreserved | zenml/steps/feature_engineering/data_tuner.py:68-71 | A central barrio's tuned counts differ between any two rows exactly as the raw counts do. |
| Tuner.CentralPeakIsGreenCapacity | zenml/steps/feature_engineering/data_tuner.py:68-79 | A central barrio's tuned counts never exceed its green capacity, and the row of its raw peak reaches it. |
| ProphetModel.CreateNhAggDfKeeps | sermadrid/sermadrid/models.py:26-28 | `_create_nh_agg_df` keeps exactly the rows with the model's barrio. |
| ProphetModel.CreateTrainDf | sermadrid/sermadrid/models.py:19-24 | Pairs the first `len(y)` index timestamps with `y`. Fails with ValueError exactly when `y` is longer than the index (pandas' length mismatch). |
| ProphetModel.DefaultTrainDf | sermadrid/sermadrid/models.py:54-57 | With the default target the training frame always builds, pairing each hour with its count. |
| ProphetModel.Clamp | sermadrid/sermadrid/models.py:91 | `np.where(y < 0, 0, y)`: at least 0 and at least `y`, and `y` itself when `y >= 0`. |
| ProphetModel.PredictionRules | sermadrid/sermadrid/models.py:64-92 | Every prediction is >= 0. Sundays, hours >= 21 or < 9, Saturday 15–20, August Monday–Friday 15–20 and holidays give 0. Any other hour gives `max(yhat, 0)`. |
| ProphetModel.OpenHours | sermadrid/sermadrid/models.py:64-88 | A timestamp is left unmasked exactly on a non-holiday Monday–Friday 9:00–14:59, or 15:00–20:59 outside August, or a Saturday 9:00–14:59. |
| ProphetModel.Predictions | sermadrid/sermadrid/models.py:60-92 | Raises AttributeError when no model was built, and `Exception` when the built model was never fitted (it has no history). Otherwise, per forecast row, it gives `Prediction` of its timestamp and `yhat`. |
| ProphetModel.ZeroYhatWhere | sermadrid/sermadrid/models.py:84 | `forecast.loc[mask, "yhat"] = 0` in place: the selected rows become 0 and the others are unchanged. |
| ProphetModel.MaskClosedHours | sermadrid/sermadrid/models.py:84-88 | The five in-place masks zero exactly the rows at closed hours. |
| ProphetModel.ClampAll | sermadrid/sermadrid/models.py:90-91 | The clamp applied to every value, in order. |
| ProphetModel.MaskedForecast | sermadrid/sermadrid/models.py:61-92 | Forecast, in-place masks and clamp give exactly `Predictions` of the model, including the `Exception` of an unfitted model. |
| ProphetModel.CustomProphetModelNH.constructor | sermadrid/sermadrid/models.py:11-14 | A model for the barrio, with no Prophet object yet. |
| ProphetModel.CustomProphetModelNH.BuildModel | sermadrid/sermadrid/models.py:30-35 | Sets the model to a fresh Prophet with the given arguments and a daily seasonality (period 1) of the given Fourier order, 8 by default. |
| ProphetModel.Fit | sermadrid/sermadrid/models.py:58 | `fit` raises ValueError exactly on a frame of fewer than two rows. Otherwise the model keeps its configuration and seasonalities and records the frame. |
| ProphetModel.CustomProphetModelNH.Train | sermadrid/sermadrid/models.py:37-58 | Builds the model with the fixed parameters, then fits it on the barrio's rows paired with `y_train` (or their counts). Raises ValueError exactly when `_create_train_df` raises or the frame has fewer than two rows. The built model stays in place either way: fitted on the frame on success, with no history on failure. |
| ProphetModel.CustomProphetModelNH.Inference | sermadrid/sermadrid/models.py:60-92 | Returns `Predictions` of the model's state for the dates. |
| BackendModel.CustomProphetModelNH.constructor | backend/sermadrid/sermadrid/models.py:7-10 | A model for the barrio, with no Prophet object yet. |
| BackendModel.CustomProphetModelNH.BuildModel | backend/sermadrid/sermadrid/models.py:26-28 | Sets the model to `Prophet(daily_seasonality=True)` with a monthly seasonality (period 30.5, order 5). |
| BackendModel.CustomProphetModelNH.Train | backend/sermadrid/sermadrid/models.py:30-41 | As in the training package, with this class's `_build_model`: ValueError exactly when the frame raises or has fewer than two rows. On failure the built model stays, with no history. |
| BackendModel.CustomProphetModelNH.Predict | backend/sermadrid/sermadrid/models.py:43-80 | With `X_test` it raises AttributeError (`self.agg_df` is never set). Otherwise it returns the same masked, clamped `Predictions` as the training package. |
| Pipelines.Dates | sermadrid/sermadrid/pipelines.py:16-17 | A single timestamp becomes a one-element list, and a list passes through unchanged. |
| Pipelines.FreeFractionBounds | sermadrid/sermadrid/pipelines.py:38 | `max(0, 1 - pred/num_plazas)` is >= 0. It is 1 for no car, at most 1 for `pred >= 0` and positive capacity, and 0 when `pred >= num_plazas`. |
| Pipelines.Percentages | sermadrid/sermadrid/pipelines.py:38 | The free fraction of every prediction, in order. |
| Pipelines.Inference | sermadrid/sermadrid/pipelines.py:11-23 | The model's predictions for the wrapped timestamps. |
| Pipelines.Run | sermadrid/sermadrid/pipelines.py:25-40 | Without `return_percentage` the predictions are returned unchanged. With it, they become free fractions, each in [0, 1] for a positive capacity. An unbuilt or unfitted model's error passes through. |
| BackendPipelines.RawFractionFacts | backend/sermadrid/sermadrid/pipelines.py:38 | `1 - pred/num_plazas` is 1 for no car and 0 at capacity. It is negative above capacity and at most 1 for `pred >= 0`. |
| BackendPipelines.ClampedIsRaisedRaw | backend/sermadrid/sermadrid/pipelines.py:38 | The training package's clamped fraction is the serving package's raw fraction raised to 0. |
| BackendPipelines.RawPercentages | backend/sermadrid/sermadrid/pipelines.py:38 | The raw fraction of every prediction, in order. |
| BackendPipelines.Inference | backend/sermadrid/sermadrid/pipelines.py:9-21 | The model's predictions for the wrapped timestamps. |
| BackendPipelines.Run | backend/sermadrid/sermadrid/pipelines.py:23-40 | Without `return_percentage` the predictions are returned unchanged. With it, a missing `barrio_id` raises KeyError. Otherwise they become raw fractions against `spaces_dict[barrio_id]`, each at most 1 for a positive capacity. |

## Left out

- Prophet itself (`fit`, `predict`, `add_seasonality` internals) and its JSON (de)serialisation in `__getstate__`/`__setstate__`. `predict` is a function parameter returning opaque `(ds, yhat)` rows. `fit` (`ProphetModel.Fit`) records the frame the model was fitted on and raises only on fewer than two rows. Of `predict`'s own failures only the one on an unfitted model (no history) is modelled, in `ProphetModel.Predictions`.
- The mlflow `predict(context, model_input)` wrapper of the training package's model is not part of this model.
- `__str__` of both models is not part of this model.
- The Madrid holiday calendar (`CommunityofMadrid.is_holiday`) and `unidecode` transliteration are function parameters.
- All S3/boto3 and file-system I/O are not part of this model: `get_object`, `list_objects_v2`, `open`, `os.listdir`.
- `pd.read_csv`, `pd.concat` of frames and `pd.to_datetime` parsing are not part of this model. The model stops at the text and delimiter handed to the reader, and takes timestamps already parsed.
- `S3DataSource.load_csv`, `spaces_data_loader` and `get_data_source` are pure I/O or stack lookups and are not part of this model. The abstract `DataSource` base class is not part of this model either.
- Floating point: the tuner factors and the free fractions use exact `real` arithmetic. IEEE rounding, `inf` and `NaN` are not modelled, so a zero capacity in the percentage conversion is excluded by a `requires`; the source would return `inf`/`NaN` there.
- The pandas index is not modelled. Rows are kept in frame order, and an aggregated row's index is its hour.
- `reset_index`, the column projection and the `copy()` calls are left out. They change no value the model tracks.
- A NaN `barrio_id` (a cleaned name missing from `barrio_to_id_map`) is `None`. The model does not cover other NaN cells, or names pandas reads as floats.
- Digit tests use ASCII digits only. Python's `str.isdigit` and `\d` also accept other Unicode digits.
- Timestamps have whole-second resolution, with no time zone or daylight-saving time, like pandas' naive timestamps.
- `tqdm` progress bars and logging are not part of this model.
- Aggregator.GroupFrame: the model follows the code, where an empty (barrio, zone) combination raises a ValueError when `min()` of no timestamps reaches `date_range`. The model states the failure (`AggregateFromFails`) and does not assume it away with a `requires`.
- Preprocessor.SpacesGroupedDf: a pivot without one of the two colours loses that column, and the rename then leaves `num_plazas_azules` or `num_plazas_verdes` missing. The model reports this as a KeyError for the whole step. It does not model which line raises, or the `fillna(0)` of a missing column.
- Aggregator.LateStartSegment: split segments are not checked for start ≤ end, as in the code. `ActiveNonNegative` and `LastHourZero` are therefore stated only for ordered segments.
- ProphetModel.CustomProphetModelNH.Train, BackendModel.CustomProphetModelNH.Train: targets are reals, never NaN, so `fit`'s count of non-NaN rows is the frame's length. A `y_train` holding NaN, and any failure of Prophet's optimiser inside `fit`, are not modelled.
- Loader.Prepare: the `utf-8` decode is not modelled. Downloaded bytes are taken as text.
- A row-wise `apply` on a frame without rows follows pandas' empty-frame path. The tuner's `assign` then raises ValueError, which the model states (`Tuner.DataTuner`). The empty spaces table fails later, at the pivot's missing colour column, and the ticket expansion produces no rows. The model gives those outcomes directly and does not model the intermediate frames.
