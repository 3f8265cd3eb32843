# Timetable extraction — a verified model

This project models the core of a small timetable-extraction system. An
Excel timetable workbook holds several sheets. Each sheet has blocks of
weekday rows under "info rows" that name a semester, a section and a
classroom, and below them a roster of theory and practical subjects.

The core reads every sheet into two lists:

- the sessions: one record per lecture slot, with semester, section,
  classroom, day, time, period, subject, faculty and room;
- the subject roster: course code, abbreviation, type, faculty name and
  faculty abbreviation.

Two exporters regroup those records by day and by semester and print
them:

- a structured text file (`TimetableProcessor`);
- the sections of an HTML page that is later turned into a PDF.

An earlier pandas-based scanner reads one sheet into a plain
comma-separated text file.

The modules follow the program:

- `Grid`: the worksheet, its merged ranges, and the merge-aware cell
  lookup (`is_merged_cell`, `get_merged_cell_value`).
- `Header`: the info rows (`extract_section_classroom` and the semester
  cell).
- `Sessions`: the live `parse_timetable_sheet`, as a row loop over the
  sheet.
  - It is proved equal to a specification scan.
  - `SessionFacts` proves what its records are and in what order they come.
- `AnchoredSessions`: the earlier, shadowed `parse_timetable_sheet`, which
  expands merged anchors over the width of their range.
- `Roster`: `parse_subjects_section`.
- `Workbook`: the `parse_excel_file` sheet loop.
- `Reshape`: `process_data` and `organize_by_semester_day` (they have the
  same body), with the subject join and the abbreviation dictionary.
- `Layout`: the display order shared by both exporters.
- `TextExport`: the `TimetableProcessor` class and `generate_structured_text`.
- `PdfExport`: `organize_by_semester_day` and the section structure of
  `generate_html`.
- `Prototype`: the scanner in excelDataParser.py.
- `Text`, `Sorting`, `RowScan`, `Wrappers`: Python's string operations,
  `sorted` with a key, a generic row fold, and `Option`/`Result`.

Python's IndexError is the one error the parsers can raise on a sheet. It
is modelled as `Err(IndexError)` wherever the source can raise it: an
info-row lookup outside the grid, `parts[0]` of a whitespace-only cell, and
`row[1]`, `row[7]` or `row[8]` of a roster row that is too short.

Imperative code stays imperative:

- The loops of `parse_timetable_sheet`, `parse_subjects_section`,
  `parse_excel_file`, `process_data`, `organize_by_semester_day`,
  `generate_structured_text`, `generate_html` and the pandas scanner are
  `method`s with `while` loops, proved equal to recursive specification
  functions. The merged-range lookups of `is_merged_cell` and
  `get_merged_cell_value`, the `next(...)` search of the roster and the list
  comprehensions are modelled as recursive functions only
  (`Grid.FirstCovering`, `Reshape.FirstMatch`, `Sessions.NonBlank`,
  `Roster.RowCells`).
- The properties are proved about those functions.
- `TimetableProcessor` is a class whose fields `LoadJson` reassigns.

Where the specification text and the code differ, the model follows the
code:

- The live parser does not skip non-anchor cells of a merged range. Every
  covered period column re-reads the anchor's text and emits its own
  record (`SessionFacts.MergedLectureRepeats`). Only the shadowed parser
  expands anchors (`AnchoredSessions`).
- The faculty line loses every leading and trailing parenthesis
  (`str.strip("()")`), not one pair.
- A cell is skipped as empty before it is stripped. A whitespace-only cell
  is not skipped: `parts[0]` raises IndexError.
- The roster emits an entry when the course code and the abbreviation are
  non-empty before stripping, not after.
- An info row whose markers are absent overwrites the header with empty
  values. It does not carry the previous header forward.
- The info rows (4, 35, 69, 103, 136) and the period columns are the
  source's fixed constants, not parameters.
- A practical row raises IndexError when `ncols` is 7 and column 6 is
  filled. When `ncols` is 8 it raises only when columns 6 and 7 are both
  filled, because only then is `row[8]` read.

## Model

| member | source | states |
|---|---|---|
| Grid.FirstCovering | ExcelDataParserJson.py:20-25 | the index found is the first merged range, in list order, that covers the cell; None exactly when no range covers it |
| Grid.IsMergedCell | ExcelDataParserJson.py:20-25 | None exactly when no merged range covers the cell; otherwise the anchor (rlo, clo) of the first covering range |
| Grid.MergedCellValue | ExcelDataParserJson.py:175-180 | an uncovered cell reads its own value; a covered cell reads the anchor of the first covering range; a cell inside the grid always has a value |
| Grid.MergedCellReadsAnchor | ExcelDataParserJson.py:175-180 | with disjoint merged ranges, any cell of a range reads the same value as the range's anchor |
| Text.Strip | ExcelDataParserJson.py:257 | `str.strip()`: the result has no surrounding whitespace, is no longer than the input, and is empty exactly when the input is all whitespace |
| Text.StripShape | ExcelDataParserJson.py:257 | the stripped text is a slice of the input with only whitespace cut on either side |
| Text.StripIdempotent | ExcelDataParserJson.py:272-280 | stripping twice is stripping once, so the final `.strip()` calls change nothing already stripped |
| Text.StripIdentity | ExcelDataParserJson.py:272-280 | a text without surrounding whitespace is left unchanged by strip |
| Text.KeepAlnum | ExcelDataParserJson.py:209 | `re.sub(r'[^a-zA-Z0-9]', '', s)`: only ASCII letters and digits remain |
| Text.KeepAlnumIgnoresStrip | ExcelDataParserJson.py:198-209 | removing non-alphanumerics after a strip gives the same section as without the strip |
| Text.Find | ExcelDataParserJson.py:193-194 | `str.find`: -1 exactly when the marker never occurs, otherwise its first occurrence |
| Text.SplitOn | ExcelDataParserJson.py:257 | `str.split("\n")`: at least one piece, none containing the separator |
| Text.JoinSplitOn | ExcelDataParserJson.py:257 | joining the pieces of a split with the separator gives back the text |
| Text.Words | ExcelDataParserJson.py:210 | `str.split()`: non-empty pieces with no whitespace, none exactly when the text is all whitespace |
| Text.FirstWord | ExcelDataParserJson.py:210 | `split()[0]`: a word with no whitespace, empty exactly when the text is all whitespace |
| Text.FirstWordIsFirst | ExcelDataParserJson.py:210 | the first word is a maximal run of non-space characters with only whitespace before it |
| Text.WordsHead | ExcelDataParserJson.py:210 | the first element of `split()` is the first word |
| Text.FirstWordOfStripped | ExcelDataParserJson.py:200-210 | the classroom's first word does not depend on the strip before it |
| Text.RemoveAllAbsent | ExcelDataParserJson.py:226 | `replace("Semester :-", "")` leaves a text without the marker unchanged |
| Text.LexLeqTotalOrder | JsonToTextFile.py:80 | Python's string order is total, antisymmetric and transitive |
| Header.ExtractMarked | ExcelDataParserJson.py:183-212 | the section holds only ASCII letters and digits; the classroom has no whitespace; each marker combination gives the slice the source cuts: nothing when a marker is absent, and no section when the classroom marker comes first |
| Header.SectionText | ExcelDataParserJson.py:196-203 | the section slice: empty without its marker or when the markers are out of order, otherwise the text after the section marker and up to the classroom marker, if there is one |
| Header.ClassroomText | ExcelDataParserJson.py:196-206 | the classroom slice is stripped and has the first word of the text after the marker |
| Header.SemesterOf | ExcelDataParserJson.py:225-226 | the semester label is stripped, and equals the stripped cell when the cell has no marker |
| Header.HeaderContext | ExcelDataParserJson.py:223-231 | an info row reads exactly when columns 1 and 5 resolve; the semester is stripped and the section and classroom have no whitespace |
| Sessions.NonBlank | ExcelDataParserJson.py:257 | the kept lines are non-empty and stripped; none are kept exactly when every line is blank |
| Sessions.SplitOnBlank | ExcelDataParserJson.py:257 | every line of a cell is blank exactly when the whole cell is whitespace |
| Sessions.SplitCellFails | ExcelDataParserJson.py:257-258 | splitting a cell raises IndexError exactly when its text is whitespace only |
| Sessions.SubjectOf | ExcelDataParserJson.py:258 | the subject holds no ':'; it is the stripped text before the first ':', or the whole line when there is none |
| Sessions.FacultyOf | ExcelDataParserJson.py:260-266 | no second line gives ""; a second line without '(' is taken verbatim; one with '(' loses its surrounding parentheses |
| Sessions.FieldsOf | ExcelDataParserJson.py:257-269 | subject, faculty and room of a split cell; the room is line 3 when there is one, else the current classroom |
| Sessions.MakeSession | ExcelDataParserJson.py:271-281 | the record has period k and a classroom equal to its room |
| Sessions.SlotSession | ExcelDataParserJson.py:248-281 | a record emitted for period k has period k |
| Sessions.CellSession | ExcelDataParserJson.py:253-281 | a record emitted from a cell's text for period k has period k |
| Sessions.ParseSlot | ExcelDataParserJson.py:248-281 | one pass of the column loop gives the outcome of that period's column |
| Sessions.ParsePeriods | ExcelDataParserJson.py:248-281 | the column loop gives the records of the first n period columns in order; the first error raises |
| Sessions.ParseRow | ExcelDataParserJson.py:233-281 | a data row reads column 0, and for a weekday gives its period records |
| Sessions.ParseRowStep | ExcelDataParserJson.py:221-281 | one row of the scan: an info row replaces the header, any other row appends its records |
| Sessions.ParseTimetableSheet | ExcelDataParserJson.py:215-283 | the row loop returns the records of the whole scan, or the IndexError it raises |
| Sessions.GatherErr | ExcelDataParserJson.py:248-281 | once a period raises, the later columns do not change the outcome |
| Sessions.ScanErr | ExcelDataParserJson.py:221-283 | once a row raises, the rest of the sheet does not change the outcome |
| SessionFacts.GatherOk | ExcelDataParserJson.py:248-281 | a row's periods succeed exactly when every period column succeeds |
| SessionFacts.SlotSessionOutcome | ExcelDataParserJson.py:248-258 | a period raises exactly when its column is inside the sheet and either cannot be read or holds non-empty whitespace; it emits exactly when the column is inside the sheet, its text is not empty, not RECESS and not all whitespace |
| SessionFacts.MakeSessionWellFormed | ExcelDataParserJson.py:271-281 | a record built for a weekday is well formed (its period's time, classroom = room, subject without ':', every field stripped) and carries the row's header and day |
| SessionFacts.SlotSessionWellFormed | ExcelDataParserJson.py:248-281 | every record a weekday period emits is well formed and carries the row's header and day |
| SessionFacts.MergedLectureRepeats | ExcelDataParserJson.py:252 | two period columns in one merged range give the same outcome, and their records differ only in period and time |
| SessionFacts.CellSessionPeriods | ExcelDataParserJson.py:253-281 | the same cell text at two periods gives records that differ only in period and time |
| SessionFacts.RowSessionsWellFormed | ExcelDataParserJson.py:233-281 | a row's records are well formed; a row that emits has a weekday in column 0 and every record carries that day and the header |
| SessionFacts.PeriodsInOrder | ExcelDataParserJson.py:248 | a row's records come in strictly increasing period order, each from its own column, and every column that emits is among them |
| SessionFacts.PeriodsRaise | ExcelDataParserJson.py:248-281 | a row raises exactly when one of its period columns raises |
| SessionFacts.RowStepWellFormed | ExcelDataParserJson.py:221-281 | a scan step keeps every record well formed |
| SessionFacts.SheetSessionsWellFormed | ExcelDataParserJson.py:215-283 | every record of a sheet is well formed |
| SessionFacts.LatestInfoRow | ExcelDataParserJson.py:218 | the latest info row above a row, or none when no info row is above it |
| SessionFacts.ScanAgrees | ExcelDataParserJson.py:219-231 | after any number of rows the scan's header is the one of the latest info row above, and its records are those of a stateless row-by-row reading |
| SessionFacts.SheetSessionsByRows | ExcelDataParserJson.py:215-283 | the sheet's records are those of every weekday row read under the header of the closest info row above it (or the empty header) |
| SessionFacts.ContextAtStripped | ExcelDataParserJson.py:272-273 | the semester and section a row is read under are already stripped |
| AnchoredSessions.AnchorSession | ExcelDataParserJson.py:124-134 | a record of the shadowed parser has period k, that period's time and a classroom equal to its room |
| AnchoredSessions.MergedWidthFirst | ExcelDataParserJson.py:95-99 | the width is chi - clo of the first range anchored at the cell |
| AnchoredSessions.MergedWidthNone | ExcelDataParserJson.py:95-99 | with no range anchored at the cell the width is 1 |
| AnchoredSessions.Spread | ExcelDataParserJson.py:102-105 | an anchor has one outcome per column of its width |
| AnchoredSessions.FindMergedWidth | ExcelDataParserJson.py:95-99 | the search loop, with its `break`, computes the merged width |
| AnchoredSessions.ExpandAnchor | ExcelDataParserJson.py:102-134 | the expansion loop gathers the records of the anchor's columns that are period columns |
| AnchoredSessions.ParseAnchoredSlot | ExcelDataParserJson.py:79-165 | one pass of the column loop of the shadowed parser gives that column's records |
| AnchoredSessions.ParseAnchoredPeriods | ExcelDataParserJson.py:79-165 | the column loop chains the columns' records in order; the first error raises |
| AnchoredSessions.ParseAnchoredRow | ExcelDataParserJson.py:70-165 | a data row of the shadowed parser reads column 0, and for a weekday gives its columns' records |
| AnchoredSessions.ParseAnchoredRowStep | ExcelDataParserJson.py:60-165 | one row of the shadowed scan |
| AnchoredSessions.ParseAnchoredSheet | ExcelDataParserJson.py:54-167 | the shadowed parser's row loop returns the records of its whole scan |
| AnchoredSessions.AnchorRun | ExcelDataParserJson.py:102-134 | the records an anchor at period k can emit: one per period from k to the last, in order |
| AnchoredSessions.SpreadFills | ExcelDataParserJson.py:102-134 | an emitting anchor expands to the records of periods k, k+1, ..., cut at its width and at the last period column |
| AnchoredSessions.SpreadSkips | ExcelDataParserJson.py:107-108 | an empty or RECESS anchor emits nothing for any width |
| AnchoredSessions.AnchorFills | ExcelDataParserJson.py:84-134 | with disjoint ranges, an emitting anchor of width w gives exactly the records of periods k to min(k+w, 8)-1, all with the same subject, faculty and room |
| AnchoredSessions.NonAnchorSkipped | ExcelDataParserJson.py:84-89 | a covered cell that is not its range's anchor emits nothing |
| AnchoredSessions.AnchorFails | ExcelDataParserJson.py:107-111 | an anchor whose text is non-empty whitespace raises IndexError |
| AnchoredSessions.UnmergedAgrees | ExcelDataParserJson.py:136-165 | an unmerged cell gives the live parser's outcome (same error, same skip), except that its faculty is not stripped |
| Roster.RowCells | ExcelDataParserJson.py:293 | a row is read as one lookup per column |
| Roster.AllRead | ExcelDataParserJson.py:293 | the row's values exist exactly when every column lookup succeeds, and then they are those lookups |
| Roster.Staff | ExcelDataParserJson.py:339-346 | the staff are a left-to-right prefix of the filled columns 6, 7 and 8, ending at the first empty one; a row of 7 columns with column 6 filled, or of 8 with columns 6 and 7 filled, raises |
| Roster.Emit | ExcelDataParserJson.py:351-358 | an entry is emitted exactly when course code and abbreviation are non-empty (tested before stripping), with every field stripped and the type "theory" or "practical" |
| Roster.DataRowEntry | ExcelDataParserJson.py:314-358 | a data row raises exactly when it has one column or is a practical row whose staff raise; it emits exactly when column 3 is filled, with the "A: B" course code, the kind, and the faculty name followed by the staff |
| Roster.ParseRosterRow | ExcelDataParserJson.py:294-358 | the loop body: empty rows, marker rows, rows before a marker and sub-header rows emit nothing; a data row appends its entry |
| Roster.ParseSubjectsSection | ExcelDataParserJson.py:286-360 | the row loop returns the roster entries of the whole sheet, or the IndexError it raises |
| Roster.RosterScanErr | ExcelDataParserJson.py:292-358 | once a row raises, the rest of the sheet does not change the outcome |
| Roster.StaffSuffix | ExcelDataParserJson.py:348-349 | with staff, the faculty name ends in "(a, b, c)", the staff joined by ", " |
| Roster.RowStepKeeps | ExcelDataParserJson.py:298-308 | the type is set by the latest marker row; until a marker no entry is emitted; every entry is well formed |
| Roster.RosterScanKeeps | ExcelDataParserJson.py:292-358 | after any number of rows the scan's type is the latest marker's and its entries are well formed |
| Roster.SheetRosterWellFormed | ExcelDataParserJson.py:351-358 | every roster entry has stripped fields and the type "theory" or "practical" |
| Roster.NoMarkerNoRoster | ExcelDataParserJson.py:307-308 | a sheet with no marker row yields no entry |
| Workbook.Map | ExcelDataParserJson.py:369-378 | one result per sheet |
| Workbook.ParseSheet | ExcelDataParserJson.py:370-378 | the loop body gives sheet i's timetable and roster, or its error |
| Workbook.ParseExcelFile | ExcelDataParserJson.py:363-383 | the sheet loop returns the per-sheet results appended in sheet order, or the first error |
| Workbook.CollectStep | ExcelDataParserJson.py:369-378 | a sheet that succeeds extends both lists; a sheet that raises makes the whole file raise with its error |
| Workbook.ExcelDataAppend | ExcelDataParserJson.py:366-383 | a workbook of two parts gives the first part's lists followed by the second's |
| Workbook.ExcelDataOk | ExcelDataParserJson.py:363-387 | the file parses exactly when every sheet does |
| Workbook.ExcelDataWellFormed | ExcelDataParserJson.py:366-383 | every record and every roster entry of a parsed file is well formed |
| Reshape.FirstMatch | JsonToTextFile.py:27-35 | the first roster entry with the record's abbreviation, or none exactly when no entry has it |
| Reshape.ProcessGroups | JsonToTextFile.py:22-48 | the group filed under a day and a semester is the lectures of exactly the records with that day and semester, in record order |
| Reshape.OrganizeDays | JsonToTextFile.py:48 | a day is a key exactly when some record falls on it |
| Reshape.OrganizeSemesters | JsonToTextFile.py:24-48 | a semester is a key under a day exactly when some record of that day files under it ("Other" only when the key is absent) |
| Reshape.AbbreviationsDistinct | JsonToTextFile.py:51-57 | the abbreviation dictionary has each key once |
| Reshape.AbbreviationKeys | JsonToTextFile.py:51-57 | its keys are exactly the records' subjects |
| Reshape.AbbreviationsFromFirst | JsonToTextFile.py:51-57 | each line is built from the first record with that subject and is never overwritten |
| Sorting.SortByCorrect | JsonToTextFile.py:80-89 | `sorted` with a key: ordered by key, a permutation, and stable (the items of each key keep their order) |
| Sorting.StableSortUnique | JsonToTextFile.py:80 | two stable orderings of the same items are equal, so the sort is fully determined |
| Sorting.SortByStrict | JsonToTextFile.py:89 | sorting items whose keys are pairwise distinct puts the keys in strictly ascending order, so the tie-break on the values never applies |
| Layout.SortedAbbreviationsAscend | JsonToTextFile.py:89-90 | the abbreviation lines are printed once each, in strictly ascending order of abbreviation |
| Layout.KeptMembers | JsonToTextFile.py:72-77 | a key is printed exactly when it is in the display order and in the dictionary |
| Layout.KeptOrdered | JsonToTextFile.py:72-77 | the printed keys follow the display order |
| Layout.SectionsShape | JsonToTextFile.py:72-77 | one section per printed key, built from that key's value |
| Layout.OutlineDays | JsonToTextFile.py:66-74 | the printed days are the days Monday to Saturday that some record falls on, once each, in weekday order; other days are dropped |
| Layout.OutlineSemesters | JsonToTextFile.py:67-80 | under each day, the printed semesters are those of "3", "5", "7", "Other" that the day's records have, in that order, each listing exactly its records' lectures sorted by time |
| TextExport.TimetableProcessor.constructor | JsonToTextFile.py:6-8 | both lists start empty |
| TextExport.TimetableProcessor.LoadJson | JsonToTextFile.py:10-15 | the two fields hold the loaded documents |
| TextExport.TimetableProcessor.ProcessData | JsonToTextFile.py:17-59 | the loop files every record and builds the abbreviation dictionary as the grouping and table above |
| TextExport.TimetableProcessor.GenerateStructuredText | JsonToTextFile.py:61-92 | the text is the title, the day and semester sections in display order, the heading, and the sorted abbreviation lines, joined by newlines |
| TextExport.AddDays | JsonToTextFile.py:72-85 | the day loop appends the sections of the listed days present |
| TextExport.AddDay | JsonToTextFile.py:73-85 | one day: its heading, then its semesters in order |
| TextExport.AddSemesters | JsonToTextFile.py:76-85 | the semester loop appends the sections of the listed semesters present |
| TextExport.AddSemester | JsonToTextFile.py:77-85 | one semester: its heading, then one line per lecture |
| TextExport.AddAbbrevLines | JsonToTextFile.py:89-90 | one line per abbreviation, in the given order |
| PdfExport.HtmlWellNested | JsonToPDFFile.py:222-277 | every day, semester and abbreviation section that is opened is closed, and nothing is left open |
| PdfExport.OrganizeBySemesterDay | JsonToPDFFile.py:54-90 | the loop builds the same grouping and abbreviation dictionary as `process_data` |
| PdfExport.GenerateHtml | JsonToPDFFile.py:92-279 | the page is the day sections in display order, each with its semester sections and sorted lectures, then the sorted abbreviation items |
| PdfExport.AddDaySections | JsonToPDFFile.py:222-255 | the day loop appends the sections of the listed days present |
| PdfExport.AddDaySection | JsonToPDFFile.py:223-255 | one day: opened, its semester sections, closed |
| PdfExport.AddSemesterSections | JsonToPDFFile.py:229-252 | the semester loop appends the sections of the listed semesters present |
| PdfExport.AddSemesterSection | JsonToPDFFile.py:230-252 | one semester: opened, one item per lecture, closed |
| PdfExport.AddAbbrevItems | JsonToPDFFile.py:264-269 | one item per abbreviation, in the given order |
| Prototype.TableEnd | excelDataParser.py:21-27 | the mapping table runs up to the first row whose column 0 is NaN, or the end of the frame |
| Prototype.BuildFacultyMapping | excelDataParser.py:17-27 | the two nested loops build the faculty mapping, or raise when a table row has no column 2 or 3 |
| Prototype.ScanRow | excelDataParser.py:18-27 | one row of the outer loop keeps the mapping in step with the rows read so far |
| Prototype.ReadTable | excelDataParser.py:21-27 | the inner loop maps column 2 to column 3 for each row until the first NaN in column 0 |
| Prototype.AssignKeys | excelDataParser.py:23-25 | a key is in the mapping exactly when some visited table row has it in column 2 |
| Prototype.AssignLastWins | excelDataParser.py:25 | a key maps to column 3 of the last visited row with that key |
| Prototype.FacultyMappingLastWins | excelDataParser.py:17-27 | on a frame of four or more columns the mapping exists; its keys are the keys of the table rows, each mapped by the last row with that key |
| Prototype.FacultyMappingFails | excelDataParser.py:17-27 | the mapping scan raises exactly when the frame has fewer than four columns and some marker row has a table row below it |
| Prototype.ScanTimetable | excelDataParser.py:29-43 | the row loop collects the records of every day row, row by row |
| Prototype.ScanDayRow | excelDataParser.py:31-43 | the column loop appends one record per text cell of the row, in column order |
| Prototype.RecordsMembers | excelDataParser.py:29-43 | a record is produced exactly when some text cell in a day row, past column 0, gives it |
| Prototype.RecordsWellFormed | excelDataParser.py:31-43 | every record has a weekday, a stripped one-line subject and classroom, and the mapping's teacher for its subject or "Unknown Teacher" |
| Prototype.WriteLines | excelDataParser.py:50-52 | the write loop produces one line per record, each ended by a newline |
| Prototype.OutputLines | excelDataParser.py:51-52 | when no field of a record holds a newline, the file splits into exactly the records' lines, in order |
| Prototype.WellFormedOneLine | excelDataParser.py:38-52 | a well-formed record whose time and teacher have no newline writes one line |
| Prototype.ExtractTimetable | excelDataParser.py:17-52 | the scanner writes the file of the frame's records, or raises as the mapping scan does |
| Prototype.ExtractFails | excelDataParser.py:17-52 | the scanner raises exactly when the mapping scan does |

## Left out

- Opening the workbook (`xlrd.open_workbook`, `sheet_names`, `sheet_by_name`), `pd.read_excel`, and the exception wrapping of `parse_excel_file`: a sheet is given as a grid of cell texts with its merged ranges, and a workbook as its list of sheets.
- Numeric cell values from xlrd (`str(float)`, a falsy `0.0`): every cell is modelled as its text, and "" is the only falsy value. In the pandas scanner a number is kept as the text Python prints for it.
- Unicode whitespace: `strip` and `split` use the ASCII whitespace that Python's `str.isspace` accepts, and `upper` changes ASCII letters only.
- `save_uploaded_file`, `excelToJsonConverter` and the `__main__` blocks: file writes, JSON dumps, timestamps and a package install.
- `TextExport.TimetableProcessor.LoadJson`: takes the two decoded documents instead of reading and decoding two files.
- `TimetableGenerator.load_json`, `_find_wkhtmltopdf` and `generate_pdf`: file reading, OS probing, subprocesses and pdfkit.
- PdfExport.GenerateHtml: the page is modelled as its sequence of sections (day, semester, lecture, abbreviation items, and the closing of each section), not as its HTML markup and CSS text. Record text (subject, faculty, room, abbreviation) is inserted into the markup without escaping, so a name holding `<` or `&` could change the nesting of the real page; the nesting proved for the modelled sections does not cover that.
- appUpdated.py: a Streamlit interface with calls to an embedding store and a language model.
- The record keys `classroom` and `period` of the timetable JSON are not read by the exporters (`room` is read and kept). The exporter records keep only the keys they use, with `semester`, `faculty`, `room` and `section` optional.
- Prototype: pandas NaN keys in the faculty mapping are kept as one `Blank` key, since a string lookup can never find them.
- Prototype: `row[0] in days` holds only for a text cell (a number never equals a day name).
- Prototype: the time cell of row 0 is read from the last row, as `iloc[-1]` does.
- Prototype: an exception from `split` on a non-string cell cannot happen, because only string cells are split.
- AnchoredSessions.AnchorFills: assumes the merged ranges are non-empty and pairwise disjoint, as Excel guarantees; the shadowed parser on overlapping ranges is modelled but not characterised.
- AnchoredSessions.UnmergedAgrees: compares with the live parser only for a header, day and time that are already stripped, since the live parser strips them again and the shadowed one does not.
- Prototype.OutputLines: the one-line-per-record split is proved only when the time and teacher cells print without a newline, which the source does not guarantee.
