/** The live `parse_timetable_sheet` of ExcelDataParserJson.py (the second
    definition in the module, the one `parse_excel_file` calls): a forward
    scan over the rows of a timetable sheet that carries the header of the
    latest info row and emits one session per filled period cell of every
    weekday row. */
module Sessions {
  import opened Wrappers
  import opened Text
  import opened Grid
  import opened Header
  import opened RowScan

  /** The rows (0-based) that hold a block's semester/section/classroom. */
  const InfoRows: seq<nat> := [4, 35, 69, 103, 136]

  const Weekdays: seq<string> := ["Monday", "Tuesday", "Wednesday", "Thursday", "Friday"]

  /** The period columns are C..J (indexes 2..9); period k sits in column
      FirstSlotColumn + k and has time SlotTimes[k]. */
  const FirstSlotColumn: nat := 2
  const SlotTimes: seq<string> :=
    ["09:00-10:00", "10:00-11:00", "11:00-12:00", "12:00-1:00",
     "1:00-2:00", "2:00-3:00", "3:00-4:00", "4:00-5:00"]

  /** One timetable record as the parser emits it. */
  datatype Session = Session(
    semester: string, section: string, classroom: string, day: string,
    time: string, period: nat, subject: string, faculty: string, room: string)

  /** What a period cell says: subject, faculty and room. */
  datatype CellFields = CellFields(subject: string, faculty: string, room: string)

  // ---------------------------------------------------------------------
  // one period cell

  /** `[p.strip() for p in lines if p.strip()]`. */
  function NonBlank(lines: seq<string>): (r: seq<string>)
    ensures forall i :: 0 <= i < |r| ==> r[i] != "" && IsStripped(r[i])
    ensures r == [] <==> AllBlank(lines)
    ensures |r| <= |lines|
  {
    if lines == [] then []
    else if Strip(lines[0]) != "" then [Strip(lines[0])] + NonBlank(lines[1..])
    else
      assert forall i :: 1 <= i < |lines| ==> lines[i] == lines[1..][i - 1];
      NonBlank(lines[1..])
  }

  /** The non-blank lines of a cell, stripped. */
  function Parts(content: string): seq<string> {
    NonBlank(SplitOn(content, '\n'))
  }

  /** Every line is whitespace only. */
  ghost predicate AllBlank(lines: seq<string>) {
    forall i :: 0 <= i < |lines| ==> AllSpace(lines[i])
  }

  lemma AllBlankCons(x: string, rest: seq<string>)
    ensures AllBlank([x] + rest) <==> AllSpace(x) && AllBlank(rest)
  {
    var l := [x] + rest;
    assert l[0] == x;
    assert forall i :: 0 <= i < |rest| ==> rest[i] == l[i + 1];
    if AllSpace(x) && AllBlank(rest) {
      forall i | 0 <= i < |l| ensures AllSpace(l[i]) {
        if i > 0 {
          assert l[i] == rest[i - 1];
        }
      }
    }
  }

  /** A text cut at a whitespace character is blank exactly when both
      pieces are. */
  lemma AllSpaceAround(s: string, k: nat)
    requires k < |s| && IsSpace(s[k])
    ensures AllSpace(s) <==> AllSpace(s[..k]) && AllSpace(s[k + 1..])
  {
    if AllSpace(s[..k]) && AllSpace(s[k + 1..]) {
      forall i | 0 <= i < |s| ensures IsSpace(s[i]) {
        if i < k {
          assert s[i] == s[..k][i];
        } else if i > k {
          assert s[i] == s[k + 1..][i - k - 1];
        }
      }
    }
  }

  /** The lines of a text are all blank exactly when the text is. */
  lemma {:induction false} SplitOnBlank(content: string)
    ensures AllBlank(SplitOn(content, '\n')) <==> AllSpace(content)
    decreases |content|
  {
    var k := IndexOfChar(content, '\n', 0);
    if k != -1 {
      var rest := content[k + 1..];
      SplitOnBlank(rest);
      assert SplitOn(content, '\n') == [content[..k]] + SplitOn(rest, '\n');
      AllBlankCons(content[..k], SplitOn(rest, '\n'));
      AllSpaceAround(content, k);
    } else {
      assert SplitOn(content, '\n')[0] == content;
    }
  }

  /** A cell has no non-blank line exactly when it is all whitespace. */
  lemma PartsEmpty(content: string)
    ensures Parts(content) == [] <==> AllSpace(content)
  {
    SplitOnBlank(content);
  }

  /** `parts[0].split(":")[0].strip() if ":" in parts[0] else parts[0]`. */
  function SubjectOf(line: string): (subject: string)
    ensures ':' !in subject
    ensures ':' !in line ==> subject == line
    ensures ':' in line ==> subject == Strip(line[..IndexOfChar(line, ':', 0)])
  {
    if ':' in line then
      StripSubset(SplitOn(line, ':')[0], ':');
      Strip(SplitOn(line, ':')[0])
    else line
  }

  /** The faculty line: line 2 with its outer parentheses removed when it
      holds a "(", line 2 as it is otherwise, and "" without a line 2. */
  function FacultyOf(parts: seq<string>): (faculty: string)
    ensures |parts| <= 1 ==> faculty == ""
    ensures |parts| > 1 && '(' !in parts[1] ==> faculty == parts[1]
    ensures |parts| > 1 && '(' in parts[1] ==>
              faculty == StripParens(parts[1]) &&
              (faculty == "" || (!IsParen(faculty[0]) && !IsParen(faculty[|faculty| - 1])))
  {
    if |parts| > 1 && '(' in parts[1] then StripParens(parts[1])
    else if |parts| > 1 then parts[1]
    else ""
  }

  /** The fields of a cell whose non-blank lines are `parts`: subject from
      line 1, faculty from line 2, room from line 3 or else the classroom of
      the current block. */
  function FieldsOf(parts: seq<string>, classroom: string): (f: CellFields)
    requires parts != []
    ensures ':' !in f.subject
    ensures f.room == (if |parts| > 2 then parts[2] else classroom)
    ensures f.faculty == FacultyOf(parts)
    ensures f.subject == SubjectOf(parts[0])
  {
    CellFields(SubjectOf(parts[0]), FacultyOf(parts), if |parts| > 2 then parts[2] else classroom)
  }

  /** Splitting a cell's text; `parts[0]` raises IndexError when the text is
      whitespace only. */
  function SplitCell(content: string, classroom: string): Result<CellFields, ParseError> {
    if Parts(content) == [] then Err(IndexError)
    else Ok(FieldsOf(Parts(content), classroom))
  }

  /** Splitting raises exactly on a whitespace-only cell. */
  lemma SplitCellFails(content: string, classroom: string)
    ensures SplitCell(content, classroom).Err? <==> AllSpace(content)
  {
    PartsEmpty(content);
  }

  /** A period cell is skipped when empty or when it reads RECESS. */
  predicate Emits(value: string) {
    value != "" && Upper(Strip(value)) != "RECESS"
  }

  /** The record for period `k`, every field stripped as the source does. */
  function MakeSession(ctx: Context, day: string, k: nat, f: CellFields): (s: Session)
    requires k < |SlotTimes|
    ensures s.period == k && s.classroom == s.room
  {
    Session(Strip(ctx.semester), Strip(ctx.section), Strip(f.room), Strip(day),
            Strip(SlotTimes[k]), k, Strip(f.subject), Strip(f.faculty), Strip(f.room))
  }

  /** Period `k` of a weekday row: nothing when its column is past the sheet
      or its value does not emit, one session otherwise. */
  function SlotSession(sheet: Sheet, row: nat, ctx: Context, day: string, k: nat): (r: Result<Option<Session>, ParseError>)
    requires k < |SlotTimes|
    ensures r.Ok? && r.value.Some? ==> r.value.value.period == k
  {
    if FirstSlotColumn + k >= sheet.ncols then Ok(None)
    else match MergedCellValue(sheet, row, FirstSlotColumn + k)
      case None => Err(IndexError)
      case Some(value) => CellSession(value, ctx, day, k)
  }

  /** Period `k` of a weekday row whose cell reads `value`. */
  function CellSession(value: string, ctx: Context, day: string, k: nat): (r: Result<Option<Session>, ParseError>)
    requires k < |SlotTimes|
    ensures r.Ok? && r.value.Some? ==> r.value.value.period == k
  {
    if !Emits(value) then Ok(None)
    else match SplitCell(value, ctx.classroom)
      case Err(e) => Err(e)
      case Ok(f) => Ok(Some(MakeSession(ctx, day, k, f)))
  }

  /** The outcome of every period of a weekday row, in column order. */
  function RowSlots(sheet: Sheet, row: nat, ctx: Context, day: string): (r: seq<Result<Option<Session>, ParseError>>)
    ensures |r| == |SlotTimes|
  {
    seq(|SlotTimes|, k requires 0 <= k < |SlotTimes| => SlotSession(sheet, row, ctx, day, k))
  }

  /** The sessions of the first `n` period outcomes, in period order; the
      first error wins. */
  function Gather(slots: seq<Result<Option<Session>, ParseError>>, n: nat): Result<seq<Session>, ParseError>
    requires n <= |slots|
  {
    if n == 0 then Ok([])
    else Extend(Gather(slots, n - 1), slots[n - 1])
  }

  /** The sessions so far followed by one more period's outcome; the first
      error wins. */
  function Extend(acc: Result<seq<Session>, ParseError>, slot: Result<Option<Session>, ParseError>): Result<seq<Session>, ParseError> {
    match acc
    case Err(e) => Err(e)
    case Ok(prev) =>
      match slot
      case Err(e) => Err(e)
      case Ok(None) => Ok(prev)
      case Ok(Some(s)) => Ok(prev + [s])
  }

  /** What a row that is not an info row emits: column A read and stripped;
      a weekday gets its eight periods, any other text nothing. */
  function RowSessions(sheet: Sheet, row: nat, ctx: Context): Result<seq<Session>, ParseError> {
    match CellValue(sheet, row, 0)
    case None => Err(IndexError)
    case Some(cell) =>
      if Strip(cell) in Weekdays then Gather(RowSlots(sheet, row, ctx, Strip(cell)), |SlotTimes|)
      else Ok([])
  }

  /** The state the scan carries: the current header and the sessions so far. */
  datatype ScanState = ScanState(ctx: Context, sessions: seq<Session>)

  /** One row of the scan: an info row replaces the header, any other row
      appends what it emits. */
  function RowStep(sheet: Sheet, row: nat, st: ScanState): Result<ScanState, ParseError> {
    if row in InfoRows then
      match HeaderContext(sheet, row)
      case Err(e) => Err(e)
      case Ok(ctx) => Ok(ScanState(ctx, st.sessions))
    else
      match RowSessions(sheet, row, st.ctx)
      case Err(e) => Err(e)
      case Ok(out) => Ok(ScanState(st.ctx, st.sessions + out))
  }

  /** The body of the row loop as a function of the row and the state. */
  function ScanStep(sheet: Sheet): (nat, ScanState) -> Result<ScanState, ParseError> {
    (row: nat, st: ScanState) => RowStep(sheet, row, st)
  }

  const ScanStart := ScanState(NoContext, [])

  /** The scan over rows 0..n-1, from the empty header and no sessions. */
  function Scan(sheet: Sheet, n: nat): Result<ScanState, ParseError> {
    Fold(ScanStart, ScanStep(sheet), n)
  }

  /** `parse_timetable_sheet`'s result: the sessions of the whole scan. */
  function SheetSessions(sheet: Sheet): Result<seq<Session>, ParseError> {
    match Scan(sheet, sheet.nrows)
    case Err(e) => Err(e)
    case Ok(st) => Ok(st.sessions)
  }

  // ---------------------------------------------------------------------
  // the parser

  /** One period cell of a weekday row (the body of the column loop). */
  method ParseSlot(sheet: Sheet, row: nat, ctx: Context, day: string, k: nat) returns (r: Result<Option<Session>, ParseError>)
    requires k < |SlotTimes|
    ensures r == SlotSession(sheet, row, ctx, day, k)
  {
    var col := FirstSlotColumn + k;
    if col >= sheet.ncols {
      return Ok(None);
    }
    var value := MergedCellValue(sheet, row, col);
    if value.None? {
      return Err(IndexError);
    }
    if !Emits(value.value) {
      return Ok(None);
    }
    var fields := SplitCell(value.value, ctx.classroom);
    if fields.Err? {
      return Err(fields.error);
    }
    return Ok(Some(MakeSession(ctx, day, k, fields.value)));
  }

  /** The loop over the period columns of one weekday row
      (`for col_idx, time_slot in time_slots.items()`), over its first `n`
      periods. */
  method ParsePeriods(sheet: Sheet, row: nat, ctx: Context, day: string, n: nat) returns (r: Result<seq<Session>, ParseError>)
    requires n <= |SlotTimes|
    ensures r == Gather(RowSlots(sheet, row, ctx, day), n)
  {
    ghost var slots := RowSlots(sheet, row, ctx, day);
    var acc: Result<seq<Session>, ParseError> := Ok([]);
    var k := 0;
    while k < n && acc.Ok?
      invariant k <= n
      invariant Gather(slots, k) == acc
    {
      var slot := ParseSlot(sheet, row, ctx, day, k);
      assert slot == slots[k];
      acc := Extend(acc, slot);
      k := k + 1;
    }
    if acc.Err? {
      GatherErr(slots, k, n);
    }
    return acc;
  }

  /** Once a period raises, the whole row raises the same error. */
  lemma {:induction false} GatherErr(slots: seq<Result<Option<Session>, ParseError>>, m: nat, n: nat)
    requires m <= n <= |slots|
    requires Gather(slots, m).Err?
    ensures Gather(slots, n) == Gather(slots, m)
    decreases n - m
  {
    if m < n {
      GatherErr(slots, m, n - 1);
    }
  }

  /** A row that is not an info row: column A names the day; a weekday row
      gets its periods parsed, any other row contributes nothing. */
  method ParseRow(sheet: Sheet, row: nat, ctx: Context) returns (r: Result<seq<Session>, ParseError>)
    ensures r == RowSessions(sheet, row, ctx)
  {
    var cell := CellValue(sheet, row, 0);
    if cell.None? {
      return Err(IndexError);
    }
    var day := Strip(cell.value);
    if day in Weekdays {
      r := ParsePeriods(sheet, row, ctx, day, |SlotTimes|);
    } else {
      r := Ok([]);
    }
  }

  /** The body of the row loop: an info row replaces the header, any other
      row appends what it emits. */
  method ParseRowStep(sheet: Sheet, row: nat, st: ScanState) returns (r: Result<ScanState, ParseError>)
    ensures r == RowStep(sheet, row, st)
  {
    if row in InfoRows {
      var header := HeaderContext(sheet, row);
      if header.Err? {
        return Err(header.error);
      }
      return Ok(ScanState(header.value, st.sessions));
    }
    var out := ParseRow(sheet, row, st.ctx);
    if out.Err? {
      return Err(out.error);
    }
    return Ok(ScanState(st.ctx, st.sessions + out.value));
  }

  /** `parse_timetable_sheet`: the row loop with the three header variables
      and the accumulated list. */
  method ParseTimetableSheet(sheet: Sheet) returns (r: Result<seq<Session>, ParseError>)
    ensures r == SheetSessions(sheet)
  {
    var semester, section, classroom := "", "", "";
    var timetable: seq<Session> := [];
    var row := 0;
    while row < sheet.nrows
      invariant row <= sheet.nrows
      invariant Scan(sheet, row) == Ok(ScanState(Context(semester, section, classroom), timetable))
    {
      var next := ParseRowStep(sheet, row, ScanState(Context(semester, section, classroom), timetable));
      ScanNext(sheet, row, ScanState(Context(semester, section, classroom), timetable), next);
      if next.Err? {
        ScanErr(sheet, row + 1, sheet.nrows);
        return Err(next.error);
      }
      semester, section, classroom := next.value.ctx.semester, next.value.ctx.section, next.value.ctx.classroom;
      timetable := next.value.sessions;
      row := row + 1;
    }
    return Ok(timetable);
  }

  /** One more row of the scan. */
  lemma ScanNext(sheet: Sheet, row: nat, st: ScanState, next: Result<ScanState, ParseError>)
    requires Scan(sheet, row) == Ok(st) && next == RowStep(sheet, row, st)
    ensures Scan(sheet, row + 1) == next
  {
  }

  /** Once a row raises, the whole sheet raises the same error. */
  lemma ScanErr(sheet: Sheet, m: nat, n: nat)
    requires m <= n
    requires Scan(sheet, m).Err?
    ensures Scan(sheet, n) == Scan(sheet, m)
  {
    FoldErr(ScanStart, ScanStep(sheet), m, n);
  }
}
