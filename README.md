# Multiple-choice quiz: loaders and quiz sessions

This project models the non-graphical core of a small Flet quiz app in Dafny, in two versions.

**`src/main.py`**
- `load_questions_from_excel` picks a table: the remote service's JSON when it answers 200, otherwise a `.xlsx`/`.ods` spreadsheet, otherwise the embedded CSV table.
- It returns `[]` when a mandatory column is missing.
- It keeps only the rows whose answer cell, stripped and upper-cased, is a letter A-D, and maps that letter to the label `"option X"`.
- It strips the question and option texts and parses `QN` as an integer.
- The quiz state lives in `nonlocal` variables that the nested handlers update.

**`src/main_class.py`**
- Its loader reads a spreadsheet only for a `.xlsx` path, otherwise the embedded table.
- It turns every row into a record with no validation, so the answer text is stored verbatim.
- The quiz state lives in the fields of the `McqQuiz` control.

Modules:
- `Common`: `Option`, `Result`, and the screen both quizzes show.
- `PyText`: the Python string built-ins the loaders call: `strip`, `upper`, `endswith`, `int()`, `str()`, truthiness.
- `Frames`: a DataFrame as column labels plus rows of cell texts, `row[name]`, and the options dictionary both loaders build.
- `MainLoader` and `MainLoaderFacts`: the loader of `src/main.py`.
- `MainSession`: the quiz session of `src/main.py`.
- `ClassLoader` and `ClassLoaderFacts`: the loader of `src/main_class.py`.
- `ClassQuiz`: the `McqQuiz` control.

Both row loops are `method`s with `for` loops, proved equal to the functions that specify them (`Normalize`, `Convert`). The properties are lemmas about those functions. The two quiz states are classes whose methods update `index`, `score` and `checked`. `checked` records which handler the action button currently calls: "Check Answer" before a check, "Next Question" after one. Their contracts state every new state, and they preserve an invariant that bounds the score by the number of questions checked.

Three behaviours of the code worth knowing, all modelled as written:
- **`QN` is not a mandatory column (`src/main.py:82`).** A kept row without a `QN` column, or with text that `int()` rejects, makes the loader raise (`MissingQnColumn`, `BadQn`). It does not fall back to the row's position.
- **A `ConnectionError` is not a fallback.** The handler only sets a flag, so `response` is unbound at line 62 and the loader raises (`UnboundResponse`). It does not fall through to the file or to the embedded table.
- **The two versions differ.** `src/main_class.py` reads `.xlsx` only, and its score line shows `index + 1` without clamping. Its check handler raises `KeyError` (line 222) when a wrong selection meets an answer text that is not an option key.

## Model

| member | source | states |
|---|---|---|
| PyText.Trim | src/main.py:91 | `str.strip()` leaves no whitespace at either end |
| PyText.TrimKeepsMiddle | src/main.py:103-109 | `strip()` keeps a contiguous middle part of the text and removes only whitespace before and after it |
| PyText.TrimOfTrimmed | src/main.py:103-109 | a text with no whitespace at either end is unchanged by `strip()` |
| PyText.TrimIdempotent | src/main_class.py:46-54 | stripping twice is stripping once |
| PyText.Upper | src/main.py:91 | `str.upper()` keeps the length, character by character |
| PyText.UpperIsLetter | src/main.py:91-95 | the upper-cased answer is the letter X exactly when the cell is `X` or its lower-case form |
| PyText.ParseInt | src/main.py:102 | `int()` accepts exactly an optional sign, then digits with single underscores between digits; the value is that of the digits, negated after `-`; anything else raises (None) |
| PyText.ParseShow | src/main.py:102 | `int(str(n)) == n` for every integer |
| PyText.EndsWith | src/main.py:70 | `str.endswith(suffix)` |
| PyText.Truthy | src/main.py:180 | `not radio_options.value`: no selection, or the empty text |
| Frames.ColumnIndex | src/main.py:91 | for distinct labels, `row[name]` finds the column labelled `name`, and finds none exactly when no column has that label |
| Frames.Field | src/main.py:91 | `row[name]` is the row's cell under a column labelled `name` (the only one, for distinct labels) |
| Frames.Options | src/main.py:104-109 | the options dictionary literal (also src/main_class.py lines 47-52): its keys are exactly the four labels `option A`-`option D` |
| MainLoader.HasRequiredColumns | src/main.py:83 | the schema check `all(col in df.columns ...)` over the six mandatory columns |
| MainLoader.HasRequiredColumnsIff | src/main.py:82-83 | the schema check holds exactly when every mandatory column is among the headers |
| MainLoader.Normalize | src/main.py:82-85 | without a mandatory column, the result is `[]` whatever the rows are |
| MainLoader.AnswerKey | src/main.py:91 | the answer code is the stripped answer cell upper-cased, of the same length |
| MainLoader.ValidAnswerIff | src/main.py:91-94 | a row is kept exactly when its stripped answer cell is one of `A`-`D` or `a`-`d` |
| MainLoader.ValidAnswer | src/main.py:95 | the test `answer_key in ['A', 'B', 'C', 'D']` |
| MainLoader.ConvertRow | src/main.py:89-112 | a row is skipped exactly when its stripped, upper-cased answer is not A-D; with no `QN` column a kept row raises; a raising `QN` text is the row's stripped `QN` cell, one that `int()` rejects; a kept question has the parsed `QN`, the stripped cells positionally and answer `"option " + letter`, and is well formed |
| MainLoader.BuiltQuestionIsWellFormed | src/main.py:95-96 | a question built from stripped cells and a letter A-D has four option keys, and its answer is one of them |
| MainLoader.RowResults | src/main.py:89 | one loop-body outcome per row of `df.iterrows()` |
| MainLoader.RowsUpToAt | src/main.py:89 | the per-row outcomes are in row order |
| MainLoader.RowsUpToPrefix | src/main.py:89 | the outcomes of the first `n` rows do not depend on later rows |
| MainLoader.RowResultsAt | src/main.py:89 | outcome `i` is that of row `i` |
| MainLoader.Kept | src/main.py:95-99 | the positions of the rows not skipped, strictly increasing, numbering the rows less the skipped ones |
| MainLoader.Gather | src/main.py:87-114 | the loop over the per-row outcomes returns at most one question per row |
| MainLoader.GatherIsKeptInOrder | src/main.py:87-114 | a completed loop returns exactly the questions of the rows not skipped, in row order |
| MainLoader.GatherFailsAtFirstBadRow | src/main.py:87-114 | the loop raises exactly when some row raises, with the error of the first such row |
| MainLoader.GatherErrSticks | src/main.py:87-114 | once the loop has raised, later rows change nothing |
| MainLoader.GatherIsWellFormed | src/main.py:101-112 | every question the loop returns is well formed |
| MainLoader.NormalizeKeepsValidRowsInOrder | src/main.py:87-114 | one question per row with a valid answer, in row order; the length is the row count less the skipped rows; every answer is an option key |
| MainLoader.NormalizeFailsIff | src/main.py:87-114 | the loader raises exactly when some row with a valid answer code has no `QN` column, or a stripped `QN` cell that `int()` rejects |
| MainLoader.StopsAtError | src/main.py:102 | the first error raised is the loader's result |
| MainLoader.NormalizeFrame | src/main.py:81-114 | the schema check followed by the loop that skips bad answers and appends the rest computes `Normalize` |
| MainLoader.Pad | src/main.py:67 | a data row no longer than the header keeps its cells and is padded with missing cells to the header's width |
| MainLoader.FirstTooLong | src/main.py:67 | finds the first data row longer than the header, and finds none exactly when no row is |
| MainLoader.RemoteFrame | src/main.py:64-67 | the first row labels the columns and the rest are the data, padded; it raises on an empty list, on a data row longer than the header, and when there are data rows but all are shorter than the header; it succeeds exactly when no data row is longer than the header and there is no data row or one of the header's width |
| MainLoader.RemoteFrameOfRectangular | src/main.py:64-67 | a rectangular table becomes exactly its first row as headers and the rest as rows |
| MainLoader.IsSpreadsheetPath | src/main.py:70 | the `elif` guard: a path ending in `.xlsx` or `.ods` |
| MainLoader.SelectSource | src/main.py:48-79 | a connection error raises; on status 200 it succeeds exactly when there is a body whose table `pd.DataFrame` accepts, and then uses exactly that frame (first row as headers, the rest as padded data); a missing body raises `UnusableBody` and a refused table raises the frame's error; otherwise a readable spreadsheet at a `.xlsx`/`.ods` path is used; otherwise the embedded table is used |
| MainLoader.Load | src/main.py:41-114 | a connection error raises `UnboundResponse`; without a 200 answer, choosing the table never raises |
| MainLoader.LoadQuestionsFromExcel | src/main.py:41-114 | choosing the table and then running the row loop computes `Load` |
| MainLoader.CleanLetter | src/main.py:91 | an upper-case letter A-D is its own stripped, upper-cased form |
| MainLoader.CleanRowKept | src/main.py:89-112 | a row with stripped cells, a letter A-D and an integer's spelling under `QN` becomes exactly the question of those cells |
| MainLoader.GatherKeeps | src/main.py:87-114 | when every row is kept, the loop returns exactly their questions |
| MainLoader.MockFrame | src/main.py:16-22 | `MOCK_EXCEL_DATA` as `pd.read_csv` parses it: the header row and four data rows |
| MainLoader.MockColumns | src/main.py:17 | the embedded header row's column positions |
| MainLoader.LaidOutRowKept | src/main.py:89-112 | under the embedded header row, a clean row becomes exactly its question |
| MainLoader.LaidOutNormalizes | src/main.py:81-114 | a table laid out as the embedded one, every row clean, returns exactly the questions of its rows |
| MainLoader.GatherSkipsOrFails | src/main.py:87-114 | outcomes that are all skips or one and the same error give `[]` or that error |
| MainLoader.NormalizeWithoutQnColumn | src/main.py:82-102 | without a `QN` column, the result is `[]` when every row is skipped, and otherwise the loader raises |
| MainLoaderFacts.MockRow1Clean | src/main.py:18 | the first embedded row is clean and makes the first question |
| MainLoaderFacts.MockRow2Clean | src/main.py:19 | the second embedded row is clean and makes the second question |
| MainLoaderFacts.MockRow3Clean | src/main.py:20 | the third embedded row is clean and makes the third question |
| MainLoaderFacts.MockRow4Clean | src/main.py:21 | the fourth embedded row is clean and makes the fourth question |
| MainLoaderFacts.MockTableClean | src/main.py:16-22 | the embedded table has the mandatory columns, the embedded layout, and four clean rows |
| MainLoaderFacts.MockNormalizes | src/main.py:16-22 | the embedded table loads as its four questions, with answers `option C`, `option B`, `option B`, `option C` |
| MainLoaderFacts.MainPathIsSpreadsheet | src/main.py:10 | the path `main` passes ends in `.ods`, so it takes the file branch |
| MainLoaderFacts.LoadFallsBackToMock | src/main.py:70-79 | with no 200 answer, and no readable spreadsheet at a spreadsheet path, the loader returns the embedded table's four questions |
| MainLoaderFacts.LoadFromMainPath | src/main.py:70-73 | with no 200 answer and a readable spreadsheet, `main` gets that sheet's normalisation |
| MainLoaderFacts.NormalizeIsWellFormed | src/main.py:87-114 | every question returned is well formed |
| MainLoaderFacts.LoadIsWellFormed | src/main.py:120-124 | whatever the loader returns is well formed, so a non-empty result meets the session's precondition |
| MainSession.Session.constructor | src/main.py:120-129 | the session starts at index 0 and score 0 on the loaded, non-empty list |
| MainSession.Session.Finished | src/main.py:223 | the final screen is reached once the index is past the last question |
| MainSession.Session.Check | src/main.py:177-205 | with no selection, nothing changes; a selection equal to the answer adds exactly 1, any other adds 0 and reports the correct option's text; the index never changes |
| MainSession.Session.Next | src/main.py:172-175 | the index goes up by exactly 1 and the score is unchanged |
| MainSession.Session.Restart | src/main.py:207-219 | index and score return to 0 |
| MainSession.Session.View | src/main.py:221-250 | the final screen is shown exactly when the index reaches the end, with the score out of the total; otherwise the current question is shown, and its answer is one of its options |
| MainSession.Session.QuestionNumber | src/main.py:145-147 | the number shown is `index + 1` clamped to the total, so it always lies between 1 and the total |
| ClassLoader.FirstMissing | src/main_class.py:45-54 | finds a missing column exactly when one of the six read is absent, and the column it names is absent |
| ClassLoader.FirstMissingIsFirst | src/main_class.py:45-54 | the missing column named is the first one read in evaluation order |
| ClassLoader.Record | src/main_class.py:45-55 | row `i`'s record: the stripped `Question` cell, option A-D from the stripped cells of columns A-D in that order, and the stripped `Answer` cell stored as it is, with no letter mapping; every text stripped and the four option keys present |
| ClassLoader.Stripped | src/main_class.py:45-55 | every text of the record is stripped |
| ClassLoader.Records | src/main_class.py:43-56 | the list the loop builds: entry `i` is row `i`'s record, for every row and no other |
| ClassLoader.Convert | src/main_class.py:41-58 | an error names a column that is absent, and only when there is a row; success gives one record per row |
| ClassLoader.ConvertKeepsEveryRow | src/main_class.py:41-58 | it raises exactly when there is a row and a column is missing, naming that column; otherwise there is one record per row, in order, with nothing filtered, and entry `i` is built from row `i`'s stripped `Question`, `A`-`D` and `Answer` cells |
| ClassLoader.LoadFrame | src/main_class.py:41-58 | the append loop computes `Convert` |
| ClassLoader.SelectFrame | src/main_class.py:30-39 | a `.xlsx` path whose file reads uses that sheet; any other path, or a failed read, uses the embedded table |
| ClassLoader.Load | src/main_class.py:23-58 | only a `.xlsx` spreadsheet that reads can make the loader raise, and then it names a column absent from that sheet |
| ClassLoader.LoadQuestionsFromExcel | src/main_class.py:23-58 | choosing the table and converting its rows computes `Load` |
| ClassLoader.AnswerIsOptionIff | src/main_class.py:54 | the answer is stored verbatim: it is an option key exactly when the stripped cell is one of the four labels |
| ClassLoader.MockFrame | src/main_class.py:15-21 | `MOCK_EXCEL_DATA` as `pd.read_csv` parses it: the header row and four data rows |
| ClassLoader.MockColumns | src/main_class.py:16 | the embedded header row has every column, at these positions |
| ClassLoader.LaidOutRecord | src/main_class.py:45-55 | under the embedded header row, a row of stripped cells becomes exactly the record of those cells |
| ClassLoader.LaidOutConverts | src/main_class.py:41-58 | a table laid out as the embedded one, with stripped cells, converts to exactly the records of its rows |
| ClassLoaderFacts.MockRow1Clean | src/main_class.py:17 | the first embedded row is stripped and makes the first record |
| ClassLoaderFacts.MockRow2Clean | src/main_class.py:18 | the second embedded row is stripped and makes the second record |
| ClassLoaderFacts.MockRow3Clean | src/main_class.py:19 | the third embedded row is stripped and makes the third record |
| ClassLoaderFacts.MockRow4Clean | src/main_class.py:20 | the fourth embedded row is stripped and makes the fourth record |
| ClassLoaderFacts.MockTableClean | src/main_class.py:15-21 | the embedded table has the embedded layout and four stripped rows |
| ClassLoaderFacts.MockConverts | src/main_class.py:15-21 | the embedded table loads as its four records, with answers `option C`, `option B`, `option B`, `option C` |
| ClassLoaderFacts.MainPathIsNotXlsx | src/main_class.py:1 | the path `main` passes does not end in `.xlsx` |
| ClassLoaderFacts.MainPathLoadsMock | src/main_class.py:30-39 | whatever the file holds, `main` gets the embedded table's four records |
| ClassLoaderFacts.XlsxLoadsSheet | src/main_class.py:30-33 | a `.xlsx` spreadsheet that reads is converted row by row |
| ClassLoaderFacts.MockAnswersAreOptions | src/main_class.py:15-21 | every embedded answer is one of its record's option keys |
| ClassQuiz.McqQuiz.constructor | src/main_class.py:63-67 | a new control holds the given list unchanged, at index 0 with score 0 |
| ClassQuiz.McqQuiz.Finished | src/main_class.py:170 | the final screen is reached once the index is past the last question |
| ClassQuiz.McqQuiz.Check | src/main_class.py:202-232 | with no selection, nothing changes; a selection equal to the answer adds exactly 1; any other selection adds 0 and reports the correct option's text, or raises when the answer is not an option key and then changes nothing; the index never changes; with every answer an option key it never raises |
| ClassQuiz.McqQuiz.Next | src/main_class.py:240-243 | the index goes up by exactly 1 and the score is unchanged |
| ClassQuiz.McqQuiz.Restart | src/main_class.py:245-259 | index and score return to 0 |
| ClassQuiz.McqQuiz.View | src/main_class.py:168-196 | the final screen is shown exactly when the index reaches the end, with the score out of the total; otherwise the current question is shown |
| ClassQuiz.McqQuiz.QuestionNumber | src/main_class.py:198-200 | the number shown is not clamped: it exceeds the total exactly on the final screen, where it is the total plus one |

## Left out

- The Flet widgets, message texts, colours, icons, button labels and `page.update()`/`self.update()`. Only the state that decides what the next click does is modelled.
- The order of the radio buttons. Options are a map, and the key order of the Python dict is not modelled.
- The radio group's value is a parameter of the check handlers. The disabling of the options after a check is not modelled; it only prevents a new selection.
- `requests.get`, the URL, the query parameters and JSON decoding (`src/main.py:48-64`). The outcome is a parameter: a `ConnectionError`, or a status with an optional decoded list of rows. Other request exceptions are not modelled, and neither is a JSON list whose cells are not strings.
- `get_system_uuid` (`src/main.py:23-38`) is file I/O and UUID generation. Its only use is a query parameter.
- `pd.read_excel` and `pd.read_csv` are foreign calls. A readable spreadsheet is a given, rectangular table of cell texts, and an unreadable one is `None`. The sheet name and dtypes are not modelled. A missing cell appears as the text of `str()` of pandas' missing value (`"None"` after padding). The embedded tables are the parsed constants.
- `print` diagnostics, and the "Could not load any questions" page of both `main` functions.
- `McqQuiz.build`, which reads `questions[0]`. An empty list would make it raise when the control is built, which Flet does when `page.add` mounts it (line 283). The control's constructor itself accepts any list, as `__init__` does.
- `Frames.ColumnIndex`: duplicate column labels are not modelled. pandas returns every cell under a duplicated label, and the remote header row at `src/main.py:65-67` can repeat a label; the model reads the first such column.
- `PyText.Upper`: upper-casing is modelled for ASCII only. Other characters are unchanged, which is exact for the answer codes A-D the loader tests against.
- `PyText.ParseInt`: `int()` is modelled for ASCII digits only. Other Unicode decimal digits are not accepted. CPython's default limit of 4300 digits on `int()` of a text (a `ValueError` beyond it) is not modelled.
- `PyText.ParseShow`: holds for every integer of the model; CPython's `str()` and `int()` raise beyond 4300 digits, which a question number never approaches.
- `MainLoader.SelectSource`: a spreadsheet that reads is taken as given. Whether its cells would survive `dtype=str` unchanged is not modelled.
- src/test.py is a network probe script with no part in the quiz. It is not part of this model.
