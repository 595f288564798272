# Dues lookup: a verified model

`app.py` is a one-page Streamlit application for checking whether a student
has paid society dues. A student types a student id (학번), and the page
looks the id up in a roster loaded from a spreadsheet or a CSV file. It
answers with the student's name (성명), or says the id is not on the paid
list. An administrator who knows a configured password can upload a
replacement roster, and the replacement takes effect at once.

This project models the logic under the widgets and proves its properties:

- `Strings`: the Python string operations the script relies on. These are
  `str.isspace`, `str.strip`, `str.endswith`, ASCII `str.lower`, and
  `re.sub` deleting a character class.
- `Normalize`: `normalize_sid`, which turns any id text into a string of
  ASCII digits. It models Python's `$` exactly, so `"12.0\n"` becomes `"12"`.
- `Paths`: the three candidate data files, the order they are tried in, and
  `Path.suffix`, which decides which parser reads a file.
- `Loader`: `load_df` without its cache. The filesystem is a map from paths
  to bytes, and the parsers are a function parameter. The row clean-up is
  modelled twice:
  - `CleanRoster`, a specification over sequences;
  - `CleanInPlace`, the in-place column overwrite over an array of rows,
    proved against `CleanRoster`.
- `Lookup`: the query branch of `main`.
- `Cache`: the `@st.cache_data(ttl=60)` memo, as a class with a stored
  value, a store time and a validity flag. The current time is a parameter.
- `Admin`: the password-gated upload, its decision table, its effect on the
  files and the cache, and which file the next load then reads.
- `App`: one run of the page. A further method shows that an upload is
  picked up by the next run, however soon it follows.

Where the code and its intended behaviour could be read differently, the
model follows the code:

- A file that cannot be parsed gives `(None, None)` (app.py:38-40). It does
  not give the path.
- The `dropna` at app.py:49 never removes a row. `astype(str)` has already
  turned a missing cell into the text `"nan"`, and `normalize_sid("nan")`
  is `""`. Rows with an empty id are kept, and the lookup never matches them.
  This is how `astype(str)` treats a missing value in an object column in
  pandas 1.x and 2.x, the versions the model assumes. The script pins no
  version. Under pandas 3.0, whose default string dtype keeps missing values
  missing, a missing id still becomes `""`: `.map(normalize_sid)` passes the
  missing value to `normalize_sid`, where `str()` gives `"nan"`. A missing
  name, however, would stay missing through `.str.strip()`, and `dropna`
  would then remove that row.
- The upload target test at app.py:71 uses `endswith(("xlsx", "xls"))` on
  the lowercased name, with no dot. The loader tests the path suffix against
  `.xlsx` and `.xls` (app.py:31). A name such as `dataxls` is therefore
  stored as the spreadsheet by app.py:71, although the uploader's
  `type=["xlsx", "xls", "csv"]` filter (app.py:68) keeps such a name from
  reaching that line through the widget. A `.xls` upload is stored under
  `/tmp/students.xlsx`, which the loader reads with the spreadsheet reader.
- A CSV upload is ignored by later loads whenever `/tmp/students.xlsx`
  exists, because that path is tried first (`Admin.CsvUploadIsRead`).
- The cache window counts from when an entry was stored, not from its last
  use (`Cache.GetTwice`).

## Model

| member | source | states |
|---|---|---|
| Strings.IsSpace | app.py:19-21 | the `\s` class of `re` and `str.isspace`: the ASCII whitespace, the separator controls `\x1c`-`\x1f`, `\x85`, and the Unicode space separators, line and paragraph separators |
| Strings.EndsWith | app.py:71 | `str.endswith`: the text finishes with the given suffix |
| Strings.Keep | app.py:19-20 | deleting every character outside a class keeps exactly the characters of the class: none longer than the input, every kept character in the class |
| Strings.KeepCompose | app.py:19-20 | deleting a class, then deleting a larger class, is the same as deleting the larger class alone |
| Strings.KeepIsSubsequence | app.py:19-20 | the kept characters are a subsequence of the input: they appear in the input's order |
| Strings.KeepCounts | app.py:20 | each character kept occurs as often as in the input |
| Strings.SkipSpaces | app.py:21 | the scan from the front stops at the first non-space, having passed only whitespace |
| Strings.SkipSpacesBack | app.py:21 | the scan from the back stops just after the last non-space, having passed only whitespace |
| Strings.Strip | app.py:21 | `str.strip` leaves no whitespace at either end |
| Strings.StripSlice | app.py:21 | `str.strip` is the slice of the input between its leading and its trailing whitespace, and removes only whitespace |
| Strings.StripNoSpace | app.py:21 | a string without whitespace is its own strip |
| Strings.Lower | app.py:71 | the lowercasing keeps the length and maps each ASCII capital to its small letter |
| Normalize.DollarAt | app.py:18 | Python's `$` (without MULTILINE) matches at the end of the text or just before a final newline |
| Normalize.FloatSuffixAt | app.py:18 | the pattern `\.0$` matches at `i`: a `.` and a `0` at `i`, then `$`; the reference that `Normalize.DropFloatSuffix` is proved against |
| Normalize.FloatSuffixUnique | app.py:18 | `\.0$` can match at no more than one place, so one substitution removes at most one `.0` |
| Normalize.DropFloatSuffix | app.py:18 | a `.0` at the end, or just before one final newline, is removed; with no such match the text is unchanged |
| Normalize.DropSpaces | app.py:19 | `re.sub(r"\s+", "", s)`: no whitespace is left, and nothing is added |
| Normalize.Digits | app.py:20 | `re.sub(r"[^0-9]", "", s)`: only ASCII digits are left, and nothing is added |
| Normalize.NormalizeSid | app.py:16-21 | the result consists of ASCII digits only |
| Normalize.RedundantSteps | app.py:19-21 | removing whitespace before removing non-digits, and stripping after, change nothing |
| Normalize.NormalizeSidIsDigits | app.py:18-21 | the result is exactly the digits left after the `.0` removal, in their order, each as often as there |
| Normalize.NormalizeSidOfDigits | app.py:16-21 | a string of digits is returned unchanged |
| Normalize.NormalizeSidIdempotent | app.py:16-21 | normalizing twice gives the same as normalizing once |
| Normalize.DropFloatSuffixOf | app.py:18 | `p + ".0"` loses the `.0`, and `p + ".0\n"` keeps only `p` and the newline |
| Normalize.NormalizeSidFloatSuffix | app.py:18 | `p + ".0"` and `p + ".0\n"` both normalize to the digits of `p` |
| Normalize.NormalizeSidOfFloatDigits | app.py:18 | a float-formatted id cell such as `"2023320033.0"` gives back the id |
| Normalize.NormalizeSidNoFloatSuffix | app.py:18-20 | text not ending in `0` or a newline normalizes to its digits |
| Normalize.NormalizeSidOfNan | app.py:47-49 | the `"nan"` that `astype(str)` writes for a missing cell normalizes to the empty id |
| Normalize.DigitsOfNonDigits | app.py:20 | text without digits leaves nothing |
| Normalize.DigitsExtend | app.py:20 | appending non-digits and then digits adds exactly those digits |
| Normalize.DigitsPrepend | app.py:20 | putting a non-digit run and a digit run in front of a text puts exactly that digit run in front of its digits |
| Normalize.DigitsOfRuns | app.py:20 | for any number of runs, each non-digits followed by digits, the digits of the whole text are the digit runs, concatenated |
| Normalize.NormalizeSidOfRuns | app.py:18-20 | the same for `normalize_sid`, followed by any non-digit tail, when there is no float suffix |
| NormalizeExamples.ExampleFloatCell | app.py:16-21 | `"2023320033.0"` gives `"2023320033"` |
| NormalizeExamples.ExampleFloatCellNewline | app.py:18 | `"12.0\n"` gives `"12"` (Python `$` matches before a final newline) |
| NormalizeExamples.ExampleSpaced | app.py:16-21 | `" 2023 3200 33 "` gives `"2023320033"` |
| NormalizeExamples.ExamplePunctuation | app.py:16-21 | `"abc-123"` gives `"123"` |
| NormalizeExamples.ExampleEmpty | app.py:16-21 | `""` gives `""` |
| NormalizeExamples.ExampleDashed | app.py:16-21 | `" 2023-320033 "` gives `"2023320033"` |
| Paths.FirstIndex | app.py:26 | the position of the first existing candidate: all earlier ones are absent |
| Paths.FirstExisting | app.py:26 | the chosen path exists, and every candidate before it is absent; nothing is chosen exactly when no candidate exists |
| Paths.FirstExistingOfThree | app.py:26 | with three candidates, the result is the first of them that exists |
| Paths.Join | app.py:11 | `Path /`: the name appended after one separator |
| Paths.LocalXlsx | app.py:11 | `BASE.parent / "dues_app" / "Flask_py" / "학생이름_학번v2.xlsx"`, with `root` for `BASE.parent`; its suffix is proved in `Paths.LocalSuffix` |
| Paths.Candidates | app.py:12-14 | `CANDIDATES`: the uploaded spreadsheet, the uploaded CSV, then the bundled spreadsheet; their formats are proved in `Paths.CandidateFormats` |
| Paths.SelectSource | app.py:26-28 | the order is `/tmp/students.xlsx`, `/tmp/students.csv`, then the bundled spreadsheet |
| Paths.LastIndexOf | app.py:31 | the last occurrence of a character, or -1 when it does not occur |
| Paths.LastIndexOfIs | app.py:31 | a character at `k` with none after it is found at `k` |
| Paths.LastIndexOfAfter | app.py:31 | a character followed by text without it is the last occurrence |
| Paths.Name | app.py:31 | `PurePath.name`: a tail of the path that holds no separator |
| Paths.Suffix | app.py:31 | `PurePath.suffix`: empty, or a dot followed by at least one character, none of them a dot or a separator |
| Paths.NameOfJoin | app.py:31 | the name of `dir/name` is `name` |
| Paths.SuffixIs | app.py:31 | with the last separator and the last dot of the name located, the suffix runs from that dot to the end |
| Paths.SuffixOfJoin | app.py:31 | the suffix of `dir/name` is the name from its last dot on, when that dot is strictly inside the name |
| Paths.LowerOfLowercase | app.py:31 | lowercasing text without capitals changes nothing |
| Paths.FormatOf | app.py:31 | `data_path.suffix.lower() in (".xlsx", ".xls")` picks the spreadsheet reader, anything else the CSV readers; its value on each suffix is proved in `Paths.FormatOfXlsx` and `Paths.FormatOfCsv` |
| Paths.FormatOfXlsx | app.py:31 | a `.xlsx` suffix selects the spreadsheet reader |
| Paths.FormatOfCsv | app.py:31 | a `.csv` suffix selects the CSV reader |
| Paths.TmpXlsxSuffix | app.py:12 | the uploaded spreadsheet's suffix is `.xlsx` |
| Paths.TmpCsvSuffix | app.py:13 | the uploaded CSV's suffix is `.csv` |
| Paths.LocalSuffix | app.py:11 | the bundled file's suffix is `.xlsx`, wherever the script is installed |
| Paths.CandidateFormats | app.py:31 | both spreadsheet candidates are read as spreadsheets and the CSV candidate as CSV |
| Loader.ReadTable | app.py:30-40 | a spreadsheet is read once; a CSV is read as UTF-8, and as CP949 only after a decode failure; any other failure gives no table |
| Loader.StripHeaders | app.py:42 | every header stripped, in place and order |
| Loader.FindColumn | app.py:43 | the first column with the header, found exactly when it is present |
| Loader.AsStr | app.py:47-48 | `astype(str)` of a cell: a string is kept, a missing value becomes `"nan"` (pandas 1.x and 2.x); its effect on the id is proved in `Normalize.NormalizeSidOfNan` |
| Loader.CellAt | app.py:47-48 | the cell in a column; a row shorter than the header row is padded with missing values, as pandas pads a short CSV line |
| Loader.SidCell | app.py:47 | the id cell after cleaning is present and consists of ASCII digits only |
| Loader.NameCell | app.py:48 | the name cell after cleaning is present and has no whitespace at either end |
| Loader.CleanPair | app.py:47-48 | after cleaning, both cells of a row are present, and the id is digits only |
| Loader.Pairs | app.py:50 | projects each row, in order, to its name cell and its id cell |
| Loader.CleanColumns | app.py:47-48 | each row's id cell is normalized and its name cell stripped, in order |
| Loader.DropNa | app.py:49 | keeps only rows with both cells present, and removes nothing when all are present |
| Loader.Project | app.py:50 | keeps the row count and order, with the name first, then the id |
| Loader.CleanRoster | app.py:47-50 | the cleaned roster has exactly one entry per row of the table |
| Loader.RosterIdsAreDigits | app.py:47-50 | every id in a cleaned roster consists of ASCII digits only |
| Loader.CleanRosterRows | app.py:47-50 | the roster has as many rows as the table, in order, each the stripped name and the normalized id of its row |
| Loader.MissingIdKept | app.py:47-49 | a row whose id cell is missing stays in the roster, with the empty id |
| Loader.LoadFile | app.py:30-50 | any source returned is the file read; a roster comes only with its source; a parse failure gives neither |
| Loader.LoadDf | app.py:24-50 | any source returned is the first existing candidate, and a roster comes only with a source |
| Loader.LoadDfSource | app.py:26-40 | no candidate file, or a parse failure, gives `(None, None)`; otherwise the source is the first existing candidate |
| Loader.LoadDfMissingColumn | app.py:42-45 | a table lacking `학번` or `성명` after header stripping gives `(None, path)`, never a partial roster |
| Loader.LoadDfRoster | app.py:42-50 | with both columns, the roster is the table's rows cleaned, one entry per row, in order |
| Loader.Overwrite | app.py:47-48 | the column assignments `df["학번"] = …` and `df["성명"] = …` on one row: the two cells replaced by their cleaned values |
| Loader.PairsOfOverwritten | app.py:47-48 | overwriting the two columns in place and then projecting gives the cleaned pairs |
| Loader.MapColumn | app.py:47-48 | one column of every row is replaced by the cell function's value, and nothing else changes |
| Loader.CleanInPlace | app.py:47-50 | the rows are overwritten with their cleaned cells, and the roster returned is the specification's clean roster of the original rows |
| Lookup.FirstMatch | app.py:99-101 | the first row whose id equals the query; none exactly when no row matches |
| Lookup.Search | app.py:94-104 | nothing is shown exactly when the button is not pressed and the box is empty; an answer, found or not, carries the non-empty, all-digit normalized query |
| Lookup.MainView | app.py:82-104 | the no-data notice, with the bundled path, is shown exactly when no roster was loaded; otherwise the page searches |
| Lookup.SearchPrompt | app.py:94-97 | a query that normalizes to `""` only prompts, and only such a query does |
| Lookup.SearchFound | app.py:98-102 | the first row whose id equals the normalized query gives `Found` with that row's name |
| Lookup.SearchAnswer | app.py:98-104 | a non-empty normalized query is answered only by `Found`, for the first row that has it, or by `NotFound(q)` when no row has it |
| Lookup.SearchAbsent | app.py:103-104 | a query no row has is reported as not on the list |
| Lookup.NeverMatchesEmptyId | app.py:95-102 | a found answer has a non-empty normalized query and a row carrying it, so a row with an empty id is never matched |
| Lookup.SearchNormalized | app.py:94-95 | ids that normalize alike get the same answer, whether or not the button was pressed |
| LookupExamples.ExampleFound | app.py:94-102 | a listed id is found with its name |
| LookupExamples.ExampleFoundDashed | app.py:94-102 | the same id typed with spaces and a dash is found too |
| LookupExamples.ExampleNotFound | app.py:103-104 | an unlisted id is reported with its normalized form |
| LookupExamples.ExampleBlank | app.py:94-97 | a box holding only spaces prompts |
| LookupExamples.ExampleNothingTyped | app.py:94-97 | an empty box prompts when the button is pressed, and shows nothing otherwise |
| Cache.RosterCache.constructor | app.py:23 | the memo starts empty |
| Cache.RosterCache.Fresh | app.py:23 | an entry can be served while it is not cleared and less than 60 s have passed since it was stored; how `Get` uses it is stated in `Cache.RosterCache.Get` and `Cache.GetTwice` |
| Cache.RosterCache.Get | app.py:23-24 | a fresh entry (less than 60 s old and not cleared) is returned without loading; otherwise the loader runs and its result is stored with the time |
| Cache.RosterCache.Invalidate | app.py:74 | clearing makes the entry unusable and changes nothing else |
| Cache.GetTwice | app.py:23 | a second call within 60 s of the load returns the same value without loading; it loads exactly when the stored entry's window has passed |
| Cache.GetAfterInvalidate | app.py:74 | after clearing, the next call loads |
| Admin.UploadTarget | app.py:71 | an upload is stored either as `/tmp/students.xlsx` or as `/tmp/students.csv`; which one, by name, is proved in `Admin.UploadRouting` |
| Admin.Decide | app.py:61-77 | a file is written only for an upload with the exact, non-empty configured password, to the upload's target; an error is shown only for an upload with a non-empty wrong password |
| Admin.DecisionTable | app.py:61-77 | `Hidden` exactly when no password is configured; `Written` exactly for a file and the exact password; `AuthError` exactly for a file and a non-empty wrong password; `NoOp` for no file or an empty password |
| Admin.UploadRouting | app.py:71 | the slot an upload is stored in is read by the spreadsheet reader exactly when the lowercased name ends in `xlsx` or `xls` |
| Admin.SpreadsheetUploadIsRead | app.py:71-72 | after a spreadsheet upload, the next load reads exactly the uploaded bytes, as a spreadsheet |
| Admin.CsvUploadIsRead | app.py:71-72 | after a CSV upload, the next load reads it only if no uploaded spreadsheet exists, and otherwise reads the old spreadsheet |
| Admin.FileSystem.constructor | app.py:26 | the files that `p.exists()` consults are exactly the given ones |
| Admin.FileSystem.WriteBytes | app.py:72 | one file is created or replaced, and no other changes |
| Admin.AdminPanel | app.py:59-77 | the outcome is the decision table's; only `Written` changes the files (the target gets the bytes) and clears the cache; every other outcome leaves both untouched |
| AdminExamples.ExampleDotless | app.py:71 | `dataxls` is stored as the spreadsheet |
| AdminExamples.ExampleUpperXls | app.py:71 | `ROSTER.XLS` is stored as the spreadsheet |
| AdminExamples.ExampleCsv | app.py:71 | `roster.csv` is stored as the CSV |
| App.Served | app.py:23-24 | what `load_df` returns through the cache: the stored result while it is fresh, otherwise a load of the current files; used by `App.Page` |
| App.Page | app.py:79-108 | a run shows the view for what the cache serves, or for a fresh load; then the admin panel runs with the effects above; without a write, the cache holds what was served, stamped with the old store time on a hit and with `now` on a load |
| App.UploadThenRerun | app.py:72-82 | after an accepted upload, the next run reloads and shows the view for the updated files, however soon it comes, whatever that run's password box and uploader hold |
| App.RerunWithinTtl | app.py:79-108 | two runs, the first one loading with no upload, then any change to the files on disk, then a second run less than 60 s after the first with any admin inputs: the second shows the same view, because the cache serves it (app.py:23) |

## Left out

- Streamlit rendering: page setup, titles, captions, expanders and the message boxes. The model keeps only the outcome values they would show (`View`, `AdminOutcome`).
- The caption that names the data file in use (app.py:91) is not part of `View`.
- Parsing by pandas and openpyxl, and UTF-8 and CP949 decoding, are foreign library calls. They appear as the `read` parameter. Only the order the readers are tried in, and what each result leads to, is modelled. `pd.read_excel` with openpyxl cannot read a true `.xls` file; that parse failure is whatever `read` returns.
- Headers that are not strings would make app.py:42 raise outside the `try`. The model's headers are strings, so this crash is not modelled.
- Duplicate headers: pandas would select several columns. The model uses the first column with each header.
- The filesystem is a map from paths to contents. `Path.exists` is membership in that map, and `write_bytes` replaces one entry. I/O errors are not modelled.
- The script's install location is the parameter `root`, not `Path(__file__).resolve()`.
- `st.secrets` is the `configured` parameter. A secret that is not a string is not modelled.
- `str()` of arbitrary cell objects (app.py:17): cells are strings or missing. A missing cell becomes `"nan"`; the model assumes pandas 1.x or 2.x here, and does not model pandas 3.0's string dtype, under which a missing id would still become `""` but a missing name would stay missing and `dropna` at app.py:49 would remove that row.
- Strings.Lower: lowercases ASCII letters only. This is exact for every comparison the script makes with it, which are against ASCII suffixes.
- `max_chars=20` on the query box, and the uploader's file-type filter (app.py:68), restrict the widgets only. The model accepts any query text and any upload name.
- Wall-clock time is the `now` parameter.
- The cache is shared across sessions without synchronization. Concurrency is not modelled.
