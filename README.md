# Kebapstudie dashboard: the worksheet, the load and the statistics gates

`app.py` is a Streamlit dashboard over one Google worksheet ("Tabellenblatt1")
in which every row records one kebab: id, date (`datum`), weight in grams
(`gewicht_g`), who prepared it (`zubereitet`), number of persons
(`personen`) and time (`uhrzeit`). This project models the plain logic inside
the dashboard and proves what it promises:

- `Worksheet`: the worksheet as an in-memory table (`class Sheet`). It has
  the three writes (`add_kebap` with its next-id rule, `update_kebap`,
  `delete_kebap`) and the id lookup `get_kebap_row_by_id`. Sheet row 1 is
  the header, so `rows[k]` is sheet row `k + 1`.
- `Normalize`: `get_all_kebaps_as_df` after the sheet has been read. This
  covers the header cleaning, dropping rows without an id, the numeric
  coercion try block that stops at its first failure, and the
  all-or-nothing timestamp parse. It also covers the derived weekday, hour
  and cleaned-preparer columns.
- `Registry`: the list of known preparers built in `main_app`. The module
  models both the code as written, which raises on an empty preparer cell,
  and a corrected version.
- `Stats`: the gates of `show_advanced_stats`:
  - the one-against-one comparison;
  - the three ANOVA gates;
  - the weekday-by-preparer percentage table, in exact `real` arithmetic.

  It also covers the `HH:00` hour labels of the hourly ranking.
- `Text`, `Sorting`, `Wrappers`: the Python string operations and the
  `list.sort()` order these rely on, plus an `Option` type.

Inputs that come from outside the program are parameters:
- the cells the sheet reader returns (`None` for a NaN cell);
- the date/time parser (`parse: string -> Option<Stamp>`);
- the p-values scipy computes.

## Model

| member | source | states |
|---|---|---|
| Text.NatToString | app.py:94 | `str(n)`: decimal digits, no leading zero, and `int()` reads the text back as `n` |
| Text.ZeroPad2 | app.py:408 | `{:02d}`: two digits below 100, reading back as the number |
| Text.Lower | app.py:52 | `str.lower()`: same length, each character lower-cased |
| Text.Upper | app.py:78 | `str.upper()`: same length, each character upper-cased |
| Text.Strip | app.py:52 | `str.strip()`: a slice of the input with only whitespace cut from both ends, and no whitespace left at either end |
| Text.RemoveSpaces | app.py:78 | `str.replace(' ', '')`: no `' '` is left and the result is never longer |
| Text.RemoveSpacesAppend | app.py:78 | removal works piece by piece over a concatenation and drops a single character exactly when it is `' '`, so the kept characters keep their order |
| Text.RemoveSpacesKeepsOthers | app.py:78 | every character other than `' '` keeps its count, and text without spaces is unchanged |
| Sorting.LeqTotal | app.py:360 | Python's string order compares any two strings |
| Sorting.LeqAntisymmetric | app.py:360 | two strings each ordered before the other are equal |
| Sorting.LeqTransitive | app.py:360 | the string order is transitive |
| Sorting.SortStrings | app.py:360 | `list.sort()` on strings returns a sorted permutation of its input |
| Sorting.SortStringsElements | app.py:360 | sorting keeps the length and exactly the elements |
| Worksheet.DateText | app.py:94 | `strftime('%d.%m.%Y')`: dots at positions 3 and 6, after two-digit day and month |
| Worksheet.DateTextReadsBack | app.py:94 | `strftime('%d.%m.%Y')` writes two-digit day and month and then the year, separated by dots, each reading back as written |
| Worksheet.IdsBelowHeader | app.py:90 | `col_values(1)[1:]` is column 1 of every row below the header |
| Worksheet.DigitIds | app.py:91 | the list holds exactly the `int()` values of the all-digit cells |
| Worksheet.Max | app.py:92 | `max` is an element and no element exceeds it |
| Worksheet.NextId | app.py:90-92 | the next id is at least 1, exceeds every all-digit id, is one more than such an id unless it is 1, and is 1 when no cell is all digits |
| Worksheet.NextIdIsFresh | app.py:90-95 | the new id's text differs from every id cell below the header |
| Worksheet.NextIdOfThreeIds | app.py:92 | ids 3, 1, 4 give 5; no ids give 1 |
| Worksheet.NextIdSkipsText | app.py:91 | `x7` and the empty cell are skipped; `007` reads as 7 |
| Worksheet.FindRow | app.py:102 | `find(str(id), in_column=1)`: the first row whose column-1 cell equals the key, or none exactly when no row matches |
| Worksheet.Appended | app.py:88-96 | `append_row`: every earlier row is kept in place and one row is added at the end, under the next id |
| Worksheet.Updated | app.py:108-118 | `update_cell` on columns 2-6: the table keeps its length and every id cell |
| Worksheet.Deleted | app.py:121-126 | `delete_rows`: nothing changes when no row holds `str(id)`; otherwise exactly one row goes |
| Worksheet.AppendedKeepsIdsDistinct | app.py:94-95 | append keeps every earlier row and adds one row at the end under the new id, so the ids stay distinct |
| Worksheet.UpdatedChangesOnlyTheFoundRow | app.py:108-117 | a missing id changes nothing; otherwise only columns 2-6 of the first matching row change, and every id cell stays |
| Worksheet.UpdatedIsIdempotent | app.py:108-117 | updating twice with the same values equals updating once |
| Worksheet.DeletedRemovesOnlyTheFoundRow | app.py:121-125 | a missing id changes nothing; otherwise the first row whose id cell is `str(id)` is removed and the others keep their order |
| Worksheet.DeletedKeepsIdsDistinct | app.py:121-125 | deleting a row keeps the ids distinct |
| Worksheet.DeleteUndoesAppend | app.py:88-96 | deleting the id just added restores the table |
| Worksheet.Sheet.constructor | app.py:89 | the table starts with the given rows |
| Worksheet.Sheet.GetKebapRowById | app.py:99-105 | the 1-based sheet row of the first match, or None exactly when no row holds `str(id)` |
| Worksheet.Sheet.AddKebap | app.py:88-96 | the new table is the old one plus the new row, and distinct ids stay distinct |
| Worksheet.Sheet.UpdateKebap | app.py:108-118 | the new table is the updated one; length and all id cells are kept; distinct ids stay distinct |
| Worksheet.Sheet.DeleteKebap | app.py:121-126 | the new table is the old one without the found row; distinct ids stay distinct |
| Normalize.NormalizeHeaders | app.py:52 | each column name is lower-cased and stripped, position by position |
| Normalize.IdHeaderVariants | app.py:52-53 | any case of `id` with surrounding whitespace is read as the `id` column |
| Normalize.IdHeaderShape | app.py:52-53 | a name read as `id` is `id` in some case, with only whitespace around it |
| Normalize.ColumnIndex | app.py:53 | the column found has that name, and none is found exactly when the name is absent |
| Normalize.ColumnOf | app.py:57-58 | `df[name]` exists exactly when the name does, and holds each row's cell of that column |
| Normalize.KeepRowsWithId | app.py:57-58 | every kept row has a present, non-empty id, and every such row is kept as often as it occurs |
| Normalize.ToNumeric | app.py:63-65 | `pd.to_numeric` succeeds exactly when every cell is blank or integer text, and then converts each cell |
| Normalize.Combine | app.py:70 | `datum + ' ' + uhrzeit` per row, NaN when either part is NaN |
| Normalize.ParseDateTimes | app.py:69-72 | every text parsed when all parse; otherwise every row NaT |
| Normalize.GermanDay | app.py:80-81 | `map(weekday_german)`: a label is one of Mo..So, and there is one exactly for the seven English day names |
| Normalize.GermanDayLabels | app.py:80-81 | the weekday label is one of Mo..So or missing; it is present exactly for the seven English names, mapped in order |
| Normalize.HourOfDay | app.py:75 | `Stunde` lies in `[hour, hour + 1)` |
| Normalize.CleanKey | app.py:78 | `Zubereitet_Clean` never holds a `' '` |
| Normalize.CleanKeyIdempotent | app.py:78 | cleaning a cleaned preparer key changes nothing |
| Normalize.CleanKeyEmpty | app.py:78 | the key is empty exactly when the label holds only `' '` |
| Normalize.CleanKeyAliases | app.py:78 | `og`, ` m ` and `O G` become `OG1`, `CHEF`, `OG1` |
| Normalize.CleanKeyWholeValue | app.py:78 | only the whole values `OG` and `M` are aliased: `Chef` gives `CHEF`, `og 2` gives `OG2` |
| Normalize.MakeKebap | app.py:69-81 | a record keeps its six cells; its weekday, hour and `Stunde` come from its timestamp or are NaN; its key is the cleaned label |
| Normalize.CoerceNumbers | app.py:62-67 | ids stay present; each column holds its `to_numeric` values exactly when it and every earlier column converted, otherwise its text; a missing column leaves NaN; a later column converts only if every earlier one did |
| Normalize.CellValue | app.py:62-67 | one cell after the try block: text only in an unconverted column, a number only as the `int()` of integer text in a converted one, NaN exactly for a NaN cell or a blank converted cell |
| Normalize.CoerceKept | app.py:62-67 | the try block on the kept rows, cell by cell: each id, weight and persons cell is the row's text or its number, as its column and the earlier columns converted |
| Normalize.DateTimes | app.py:69-72 | with both columns present and every text parsing, every row holds its own parse (NaT where its date or time is NaN); one parsed timestamp means every row holds its own parse; one text that fails means every row is NaT; a missing column means every row is NaT |
| Normalize.Assemble | app.py:62-81 | the records carry the converted columns, row by row, with their derived columns consistent |
| Normalize.CoercionCarriesOver | app.py:62-67 | the stop-at-first-failure order of the columns holds for the records |
| Normalize.StampsCarryOver | app.py:69-72 | the all-or-nothing parse holds for the records, both the all-parse and the one-fails direction |
| Normalize.LoadedStampsParsed | app.py:69-72 | on the loaded columns, every row holds its own parse whenever every text parses, also when a column is missing |
| Normalize.BuildFrame | app.py:62-83 | KeyError exactly when `zubereitet` is missing; otherwise one record per kept row with its date, time and preparer cells, its id, weight and persons as the try block leaves them (number or text, cell by cell), ordered coercion, timestamps that are every row's own parse when every text parses and NaT everywhere when one fails, and consistent derived columns |
| Normalize.LoadKebaps | app.py:49-83 | empty exactly when there is no header, no `id` column after cleaning, or no row with an id; KeyError exactly when `zubereitet` is missing; otherwise everything BuildFrame states for the kept rows, including each record's id, weight and persons values |
| Registry.UpperCells | app.py:357 | `str.upper()` on each cell, NaN staying NaN |
| Registry.Unique | app.py:357 | `unique()`: exactly the input's values, each once |
| Registry.Merge | app.py:358-359 | the loop's result holds exactly the seed's and the new values, starts with the seed, and has no repeats if the seed has none |
| Registry.ListSort | app.py:360 | `list.sort()` raises exactly when the list mixes NaN and text; otherwise it keeps the length and exactly the elements |
| Registry.KnownPreparersAsWritten | app.py:355-360 | when the list is built without raising, it holds every one of the five seed names |
| Registry.MissingPreparerRaises | app.py:357-360 | as written, any row with an empty `zubereitet` cell makes the sort raise |
| Registry.EmptyPreparerExample | app.py:357-360 | a one-row frame whose preparer cell is empty raises |
| Registry.PresentUppers | app.py:357 | the upper-cased labels of exactly the non-empty cells, equal to `UpperCells` exactly when no cell is empty |
| Registry.KnownPreparers | app.py:355-360 | the seed list for an empty frame; otherwise sorted; holds exactly the seed and every upper-cased label, each once |
| Registry.AsWrittenAgreesWithoutMissing | app.py:355-360 | without empty cells the code as written does not raise and sorts the list the corrected loop builds |
| Stats.WeightsOf | app.py:261-262 | every weight selected belongs to a row carrying that key, and there are never more than rows |
| Stats.WeightsOfAppend | app.py:261-262 | the selection works row by row in frame order: a row gives its weight exactly when it carries the key |
| Stats.WeightsOfCountsRows | app.py:268 | `len(data_a)` is the number of rows carrying the key, counting NaN weights |
| Stats.Numbers | app.py:265-266 | `mean()` averages the numeric weights, each as often as it occurs, and skips NaN |
| Stats.MeanBetween | app.py:265-266 | a mean lies between the smallest and the largest weight averaged |
| Stats.ComparePair | app.py:258-277 | the same key never compares; a key named heavier is A or B and needs a p-value below 0.05 |
| Stats.PairGates | app.py:258-275 | the same key never compares; distinct keys need two rows each; a p-value of at least 0.05, or NaN, is not significant |
| Stats.HeavierIsTheLargerMean | app.py:273-274 | the key named is A exactly when A's mean is larger; equal or NaN means name B |
| Stats.PairSymmetric | app.py:273-274 | with distinct means, swapping A and B names the same key |
| Stats.Anova | app.py:282-291 | skipped exactly when at most one group forms; once two groups form, failure exactly when the test raised and an effect exactly for a p-value below 0.05 |
| Stats.AnovaRunsIffTwoKeys | app.py:283-285 | the test runs exactly when two rows carry different present keys |
| Stats.AnovaByPreparer | app.py:282-291 | the preparer test runs exactly when two rows carry different present preparer keys |
| Stats.AnovaByWeekday | app.py:293-302 | the weekday test runs exactly when two rows carry different present weekdays |
| Stats.AnovaByHour | app.py:304-313 | the hour test runs exactly when two rows carry different present hours |
| Stats.Active | app.py:318 | every row keeps its multiplicity except the `IDIOT` rows, which all go; rows without a key stay |
| Stats.CrossPairs | app.py:321 | each counted pair comes from a row with both a weekday and a key |
| Stats.CrossPairsMembers | app.py:321 | a pair is counted exactly when some row has that weekday and that key |
| Stats.CrossPairsCounts | app.py:321 | the crosstab's cell count is the number of rows with that weekday and key, and its row total the number of rows with that weekday and some key |
| Stats.CrosstabCounts | app.py:318-321 | after dropping `IDIOT`, a cell counts the frame's rows with that weekday and key (none for `IDIOT`), and a day's total counts its rows with a key other than `IDIOT` |
| Stats.NoIdiotColumn | app.py:318-327 | the table has no `IDIOT` column, and its columns are sorted and distinct |
| Stats.ColumnsAreTheKeys | app.py:327 | the columns are exactly the keys counted, sorted, each once |
| Stats.PercentTable | app.py:327-330 | every row of the table is a German weekday, and there is one row of shares per day |
| Stats.Contingency | app.py:320-340 | the table is shown exactly when the chi-square test did not raise, and it is the percentage table |
| Stats.TableDays | app.py:327-330 | a weekday has a row exactly when it is one of Mo..So and the frame has a row on that day with a key other than `IDIOT` |
| Stats.TableCells | app.py:327 | each cell is 100 times the frame's rows with that day and key over the day's rows with a key other than `IDIOT` |
| Stats.TableKeys | app.py:321-327 | a column exists exactly for each key other than `IDIOT` that some row of the frame carries together with a weekday |
| Stats.RowsInWeekOrder | app.py:329-330 | the rows are exactly the days of Mo..So with data, in that order |
| Stats.CountsAddUp | app.py:327 | over distinct columns covering every key, a row's counts add up to the day's total |
| Stats.RowsSumTo100 | app.py:327-330 | every row has one share per column, each share is in [0, 100], and each row sums to exactly 100 |
| Stats.HourLabel | app.py:408 | `f"{int(h):02d}:00"`: five characters ending in `:00` for hours below 100 |
| Stats.HourLabelReadsBack | app.py:408 | `HH:00` has five characters, ends in `:00`, and its first two digits read back as the hour |
| Stats.HourLabelInjective | app.py:408 | two hours never share a label |

## Left out

- Google authentication, opening the spreadsheet, and the gspread calls are network I/O. `Sheet` replaces them.
- The reader's own choices (`header=1`, the first six columns, `dtype=str`) are left out. Its output is the input of `LoadKebaps`: a header and rows of optional cells.
- Streamlit caching and `st.cache_data.clear()`, all widgets, forms, messages and every plot are UI.
- scipy's Welch t-test, ANOVA and chi-square are floating-point library calls. Their p-values, or their exception, are parameters. Means are exact `real` values rather than float64.
- Calendar parsing by `pd.to_datetime(..., dayfirst=True)`, `strftime('%a')` and the edit form's date fallbacks are library code. The parser is the parameter `parse`, and a timestamp carries its day name, hour and minute.
- Text: upper- and lower-casing, whitespace and digits cover ASCII only. Unicode case mapping is left out. `IsDigits` accepts only `0`-`9`, while Python's `str.isdigit` also accepts characters such as `²`; for such a cell `int()` at app.py:91 raises ValueError, where the model's `NextId` skips the cell.
- Normalize.ToNumeric: reads only integer text (optional sign, digits). pandas also accepts decimals, exponents, surrounding whitespace and words such as `nan`, and keeps floats.
- Normalize.ColumnIndex: two columns whose names clean to the same text resolve to the first. pandas would then select both.
- Worksheet.DateText: writes the year without padding. It matches `%Y` for years 1000 and later.
- Normalize.CoerceNumbers: a missing `gewicht_g` or `personen` column becomes a column of NaN here. The dashboard leaves the column absent (the KeyError at app.py:64-65 is swallowed) and raises an uncaught KeyError at its next use (app.py:133 and app.py:261 for `gewicht_g`, app.py:165 for `personen`), where the model's statistics still give verdicts.
- Stats.Numbers: a weight column left as text after a failed conversion is averaged over its numbers only. pandas would raise on text.
- Stats.ComparePair: the selectable list and default indices of the two selectboxes (app.py:247-256) are left out. The two keys are parameters. That list is built with `unique()` and `sort()` on `Zubereitet_Clean`, so it raises on an empty preparer cell in the same way as the Findings row below.
- Stats.Anova: the message shown when the preparer test raises, and the silence of the other two tests, are display only. All three give `Failed`.
- Stats.Contingency: the chi-square p-value itself and the colour styling are left out. Only whether the test raised matters: if it raised, the table is not shown.
- The edit screen (app.py:420-465), the hourly table's means and the rankings' sort order are UI over the same frame.

## Findings

| source | as written | input that shows it | evidently intended | confidence | as-written member | corrected member |
|---|---|---|---|---|---|---|
| app.py:357-360 | `df['zubereitet'].str.upper().unique()` keeps NaN. The loop appends it to the list of names, and `known_preparers.sort()` then compares a float with a str and raises TypeError. | a loaded frame with one row whose `zubereitet` cell is empty | skip the empty cells and sort only the names | not executed | Registry.MissingPreparerRaises | Registry.KnownPreparers |
