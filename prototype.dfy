/** The first, pandas-based scanner (excelDataParser.py): a faculty mapping
    read from the "Course code: Course Name" table, then one record per
    text cell of every weekday row, written out one line per record. */
module Prototype {
  import opened Wrappers
  import opened Text
  import opened Grid

  /** A data-frame cell: empty (pandas NaN), text, or a number, kept as the
      text Python prints for it. */
  datatype Cell = Blank | Str(s: string) | Number(repr: string)

  /** `pd.notna(c)`. */
  predicate NotNa(c: Cell) {
    !c.Blank?
  }

  /** How an f-string prints a cell; NaN prints as "nan". */
  function Render(c: Cell): string {
    match c
    case Blank => "nan"
    case Str(s) => s
    case Number(r) => r
  }

  /** The sheet as `pd.read_excel(..., header=None)` returns it: rows of one
      common width, columns labelled 0, 1, 2, ... A frame with rows has at
      least one column. */
  datatype Frame = Frame(rows: seq<seq<Cell>>, width: nat) {
    predicate Valid() {
      (rows != [] ==> width > 0) && forall r :: 0 <= r < |rows| ==> |rows[r]| == width
    }
  }

  type DataFrame = f: Frame | f.Valid() witness Frame([], 0)

  const Days: seq<string> := ["Monday", "Tuesday", "Wednesday", "Thursday", "Friday", "Saturday"]
  const MappingMarker: string := "Course code: Course Name"
  const UnknownTeacher: string := "Unknown Teacher"

  type Mapping = map<Cell, Cell>

  // ---------------------------------------------------------------------
  // the faculty mapping

  /** A row whose first cell mentions the marker opens a mapping table. */
  predicate IsMarkerRow(f: DataFrame, i: nat)
    requires i < |f.rows|
  {
    NotNa(f.rows[i][0]) && Contains(Render(f.rows[i][0]), MappingMarker)
  }

  /** Where a table that starts at row `j` ends: the first row from `j` on
      whose first cell is empty, or the end of the frame. */
  function TableEnd(f: DataFrame, j: nat): (e: nat)
    requires j <= |f.rows|
    ensures j <= e <= |f.rows|
    ensures forall t :: j <= t < e ==> NotNa(f.rows[t][0])
    ensures e == |f.rows| || !NotNa(f.rows[e][0])
    decreases |f.rows| - j
  {
    if j == |f.rows| || !NotNa(f.rows[j][0]) then j else TableEnd(f, j + 1)
  }

  /** The row numbers lo, lo + 1, ..., hi - 1. */
  function Span(lo: nat, hi: nat): (r: seq<nat>)
    requires lo <= hi
    ensures |r| == hi - lo
  {
    if lo == hi then [] else Span(lo, hi - 1) + [hi - 1]
  }

  /** The rows of the table read from row `j` on. */
  function TableRows(f: DataFrame, j: nat): (ts: seq<nat>)
    requires j <= |f.rows|
  {
    Span(j, TableEnd(f, j))
  }

  /** The rows the mapping scan reads, in order, for the marker rows before
      `n`: a table is read once per marker row above it. */
  function Visits(f: DataFrame, n: nat): (vs: seq<nat>)
    requires n <= |f.rows|
  {
    if n == 0 then []
    else
      var more := if IsMarkerRow(f, n - 1) then TableRows(f, n) else [];
      Visits(f, n - 1) + more
  }

  /** `faculty_mapping[row[2]] = row[3]` for each visited row in turn,
      starting from `m` (row numbers past the frame, which the scan never
      visits, write nothing). */
  function Assign(f: DataFrame, m: Mapping, vs: seq<nat>): Mapping
    requires f.width >= 4
  {
    if vs == [] then m
    else
      var v, prior := vs[|vs| - 1], Assign(f, m, vs[..|vs| - 1]);
      if v < |f.rows| then prior[f.rows[v][2] := f.rows[v][3]] else prior
  }

  /** Writing one more row of a table. */
  lemma AssignSpanNext(f: DataFrame, m: Mapping, lo: nat, hi: nat)
    requires f.width >= 4 && lo <= hi < |f.rows|
    ensures Assign(f, m, Span(lo, hi + 1)) == Assign(f, m, Span(lo, hi))[f.rows[hi][2] := f.rows[hi][3]]
  {
    var vs := Span(lo, hi + 1);
    assert vs[..|vs| - 1] == Span(lo, hi);
  }

  lemma {:induction false} AssignAppend(f: DataFrame, m: Mapping, a: seq<nat>, b: seq<nat>)
    requires f.width >= 4
    ensures Assign(f, m, a + b) == Assign(f, Assign(f, m, a), b)
  {
    if b == [] {
      assert a + b == a;
    } else {
      var n := |b| - 1;
      assert (a + b)[..|a + b| - 1] == a + b[..n];
      AssignAppend(f, m, a, b[..n]);
    }
  }

  /** The mapping after the scan has passed the rows before `n`; reading
      columns 2 and 3 of a table row raises when the frame has fewer than
      four columns. */
  function MappingAfter(f: DataFrame, n: nat): Result<Mapping, ParseError>
    requires n <= |f.rows|
  {
    var vs := Visits(f, n);
    if vs == [] then Ok(map[])
    else if f.width < 4 then Err(IndexError)
    else Ok(Assign(f, map[], vs))
  }

  /** The mapping the first loop builds. */
  function FacultyMapping(f: DataFrame): Result<Mapping, ParseError> {
    MappingAfter(f, |f.rows|)
  }

  lemma {:induction false} VisitsPrefix(f: DataFrame, a: nat, b: nat)
    requires a <= b <= |f.rows|
    ensures Visits(f, a) <= Visits(f, b)
    decreases b - a
  {
    if a < b {
      VisitsPrefix(f, a, b - 1);
    }
  }

  /** Row `v` is a table row of a frame wide enough, with `k` in column 2. */
  predicate WritesKey(f: DataFrame, v: nat, k: Cell) {
    f.width >= 4 && v < |f.rows| && f.rows[v][2] == k
  }

  /** Some visited row has key `k`. */
  predicate Written(f: DataFrame, vs: seq<nat>, k: Cell) {
    exists t :: 0 <= t < |vs| && WritesKey(f, vs[t], k)
  }

  /** The last visited row with key `k` has `v` in column 3. */
  predicate LastWrite(f: DataFrame, vs: seq<nat>, k: Cell, v: Cell) {
    exists t :: 0 <= t < |vs| && WritesKey(f, vs[t], k) && f.rows[vs[t]][3] == v
      && forall u :: t < u < |vs| ==> !WritesKey(f, vs[u], k)
  }

  /** A key is in the mapping exactly when some visited row has it. */
  lemma {:induction false} AssignKeys(f: DataFrame, vs: seq<nat>, k: Cell)
    requires f.width >= 4
    ensures k in Assign(f, map[], vs) <==> Written(f, vs, k)
  {
    if vs != [] {
      var n := |vs| - 1;
      var prefix := vs[..n];
      AssignKeys(f, prefix, k);
      if Written(f, prefix, k) {
        var t :| 0 <= t < |prefix| && WritesKey(f, prefix[t], k);
        assert vs[t] == prefix[t];
      }
      if Written(f, vs, k) {
        var t :| 0 <= t < |vs| && WritesKey(f, vs[t], k);
        if t < n {
          assert prefix[t] == vs[t];
        }
      }
    }
  }

  /** The last write wins: the value under a key is that of the last
      visited row with the key. */
  lemma {:induction false} AssignLastWins(f: DataFrame, vs: seq<nat>, k: Cell)
    requires f.width >= 4
    requires k in Assign(f, map[], vs)
    ensures LastWrite(f, vs, k, Assign(f, map[], vs)[k])
  {
    var n := |vs| - 1;
    var prefix := vs[..n];
    if !WritesKey(f, vs[n], k) {
      AssignLastWins(f, prefix, k);
      var t :| 0 <= t < |prefix| && WritesKey(f, prefix[t], k) && f.rows[prefix[t]][3] == Assign(f, map[], prefix)[k]
        && forall u :: t < u < |prefix| ==> !WritesKey(f, prefix[u], k);
      assert vs[t] == prefix[t];
      forall u | t < u < |vs| ensures !WritesKey(f, vs[u], k) {
        if u < n {
          assert vs[u] == prefix[u];
        }
      }
    } else {
      assert WritesKey(f, vs[n], k);
    }
  }

  /** The mapping scan (excelDataParser.py, first loop): for each marker
      row, read the rows below it until one has an empty first cell,
      mapping column 2 to column 3. */
  method BuildFacultyMapping(f: DataFrame) returns (r: Result<Mapping, ParseError>)
    ensures r == FacultyMapping(f)
  {
    var facultyMapping: Mapping := map[];
    var i := 0;
    while i < |f.rows|
      invariant i <= |f.rows|
      invariant MappingAfter(f, i) == Ok(facultyMapping)
    {
      var step := ScanRow(f, i, facultyMapping);
      if step.Err? {
        return step;
      }
      facultyMapping := step.value;
      i := i + 1;
    }
    return Ok(facultyMapping);
  }

  /** One row of the mapping scan: a marker row has its table read. */
  method ScanRow(f: DataFrame, i: nat, m: Mapping) returns (r: Result<Mapping, ParseError>)
    requires i < |f.rows| && MappingAfter(f, i) == Ok(m)
    ensures r.Ok? ==> MappingAfter(f, i + 1) == r
    ensures r.Err? ==> FacultyMapping(f) == r
  {
    if NotNa(f.rows[i][0]) && Contains(Render(f.rows[i][0]), MappingMarker) {
      r := ReadTable(f, m, i + 1);
      if r.Err? {
        MarkerFails(f, i, m, r);
      } else {
        MarkerStep(f, i, m, r);
      }
    } else {
      assert Visits(f, i + 1) == Visits(f, i);
      r := Ok(m);
    }
  }

  /** Reading the table below a marker row takes the scan one row further. */
  lemma MarkerStep(f: DataFrame, i: nat, m: Mapping, read: Result<Mapping, ParseError>)
    requires i < |f.rows| && IsMarkerRow(f, i) && MappingAfter(f, i) == Ok(m)
    requires read == TableRead(f, m, i + 1)
    requires read.Ok?
    ensures MappingAfter(f, i + 1) == read
  {
    var done, table := Visits(f, i), TableRows(f, i + 1);
    assert Visits(f, i + 1) == done + table;
    if f.width >= 4 {
      AssignAppend(f, map[], done, table);
    }
  }

  /** ... or raises the error the whole scan ends with. */
  lemma MarkerFails(f: DataFrame, i: nat, m: Mapping, read: Result<Mapping, ParseError>)
    requires i < |f.rows| && IsMarkerRow(f, i)
    requires read == TableRead(f, m, i + 1)
    requires read.Err?
    ensures FacultyMapping(f) == read
  {
    assert Visits(f, i + 1) == Visits(f, i) + TableRows(f, i + 1);
    VisitsPrefix(f, i + 1, |f.rows|);
  }

  /** What reading the table from row `start` into `m` gives: nothing to
      read leaves `m` as it is; otherwise column 2 of the first row raises
      in a frame of fewer than four columns. */
  function TableRead(f: DataFrame, m: Mapping, start: nat): Result<Mapping, ParseError>
    requires start <= |f.rows|
  {
    var end := TableEnd(f, start);
    if end == start then Ok(m)
    else if f.width < 4 then Err(IndexError)
    else Ok(Assign(f, m, Span(start, end)))
  }

  /** The inner loop of the mapping scan: the rows from `start` down to the
      first one with an empty first cell, written into `m`. */
  method ReadTable(f: DataFrame, m: Mapping, start: nat) returns (r: Result<Mapping, ParseError>)
    requires start <= |f.rows|
    ensures r == TableRead(f, m, start)
  {
    var facultyMapping := m;
    var j := start;
    ghost var end := TableEnd(f, start);
    while j < |f.rows|
      invariant start <= j <= end
      invariant f.width < 4 ==> j == start && facultyMapping == m
      invariant f.width >= 4 ==> facultyMapping == Assign(f, m, Span(start, j))
    {
      if NotNa(f.rows[j][0]) {
        if f.width < 4 {
          return Err(IndexError);
        }
        AssignSpanNext(f, m, start, j);
        facultyMapping := facultyMapping[f.rows[j][2] := f.rows[j][3]];
        j := j + 1;
      } else {
        break;
      }
    }
    assert j == end;
    return Ok(facultyMapping);
  }

  /** Every key of the mapping is column 2 of a visited table row, and its
      teacher is column 3 of the last such row; with four columns or more
      the scan cannot fail. */
  lemma FacultyMappingLastWins(f: DataFrame, k: Cell)
    requires f.width >= 4
    ensures FacultyMapping(f).Ok?
    ensures k in FacultyMapping(f).value <==> Written(f, Visits(f, |f.rows|), k)
    ensures k in FacultyMapping(f).value ==> LastWrite(f, Visits(f, |f.rows|), k, FacultyMapping(f).value[k])
  {
    var vs := Visits(f, |f.rows|);
    assert FacultyMapping(f) == MappingAfter(f, |f.rows|);
    assert FacultyMapping(f).value == Assign(f, map[], vs);
    AssignKeys(f, vs, k);
    if k in Assign(f, map[], vs) {
      AssignLastWins(f, vs, k);
    }
  }

  /** Marker row `i` has a row with a first cell right below it. */
  predicate TableBelow(f: DataFrame, i: nat)
    requires i < |f.rows|
  {
    i + 1 < |f.rows| && IsMarkerRow(f, i) && NotNa(f.rows[i + 1][0])
  }

  /** Some marker row has a table row below it. */
  predicate HasTableRow(f: DataFrame) {
    exists i :: 0 <= i < |f.rows| && TableBelow(f, i)
  }

  /** A table is empty exactly when the row it would start at is past the
      end or has an empty first cell. */
  lemma TableRowsEmpty(f: DataFrame, j: nat)
    requires j <= |f.rows|
    ensures TableRows(f, j) == [] <==> j == |f.rows| || !NotNa(f.rows[j][0])
  {
    assert |TableRows(f, j)| == TableEnd(f, j) - j;
  }

  /** A non-empty visit list has a marker row with a table row below it. */
  lemma {:induction false} VisitsWitness(f: DataFrame, n: nat) returns (i: nat)
    requires n <= |f.rows| && Visits(f, n) != []
    ensures i < n && TableBelow(f, i)
  {
    var k := n - 1;
    if Visits(f, k) != [] {
      i := VisitsWitness(f, k);
    } else {
      TableRowsEmpty(f, n);
      i := k;
    }
  }

  /** A marker row with a table row below it is visited. */
  lemma VisitsBelow(f: DataFrame, i: nat, n: nat)
    requires i < n <= |f.rows| && TableBelow(f, i)
    ensures Visits(f, n) != []
  {
    TableRowsEmpty(f, i + 1);
    VisitsPrefix(f, i + 1, n);
  }

  lemma VisitsNonEmpty(f: DataFrame, n: nat)
    requires n <= |f.rows|
    ensures Visits(f, n) != [] <==> exists i :: 0 <= i < n && TableBelow(f, i)
  {
    if Visits(f, n) != [] {
      var i := VisitsWitness(f, n);
    }
    forall i | 0 <= i < n && TableBelow(f, i) ensures Visits(f, n) != [] {
      VisitsBelow(f, i, n);
    }
  }

  /** The scan raises exactly when the frame has fewer than four columns and
      some marker row has a table row below it. */
  lemma FacultyMappingFails(f: DataFrame)
    ensures FacultyMapping(f).Err? <==> f.width < 4 && HasTableRow(f)
  {
    VisitsNonEmpty(f, |f.rows|);
  }

  // ---------------------------------------------------------------------
  // the day rows

  /** `row[0] in days`: a text cell naming a weekday (NaN and numbers
      never compare equal to a day name). */
  predicate IsDayRow(f: DataFrame, i: nat)
    requires i < |f.rows|
  {
    f.rows[i][0].Str? && f.rows[i][0].s in Days
  }

  /** One extracted line: day, time cell, subject abbreviation, teacher
      cell and classroom. */
  datatype Record = Record(day: string, time: Cell, subject: string, teacher: Cell, classroom: string)

  /** `df.iloc[i - 1, j]`: the cell above, where the row above the first
      row is the last row (position -1). */
  function TimeCell(f: DataFrame, i: nat, j: nat): Cell
    requires i < |f.rows| && j < f.width
  {
    if i == 0 then f.rows[|f.rows| - 1][j] else f.rows[i - 1][j]
  }

  /** `faculty_mapping.get(subject, 'Unknown Teacher')`. */
  function Teacher(m: Mapping, subject: string): Cell {
    if Str(subject) in m then m[Str(subject)] else Str(UnknownTeacher)
  }

  /** The record of one text cell: its first line stripped is the subject,
      its third line stripped (if any) the classroom. */
  function CellRecord(day: string, time: Cell, text: string, m: Mapping): Record {
    var parts := SplitOn(text, '\n');
    var subject := Strip(parts[0]);
    Record(day, time, subject, Teacher(m, subject), if |parts| > 2 then Strip(parts[2]) else "")
  }

  /** How a text cell becomes a record, from its day, its time cell and
      its text. */
  type RecordMaker = (string, Cell, string) -> Record

  /** The scanner's way, with the faculty mapping at hand. */
  function MakeRecord(m: Mapping): RecordMaker {
    (day: string, time: Cell, text: string) => CellRecord(day, time, text, m)
  }

  /** The records of columns 1, ..., n - 1 of day row `i`: one per text
      cell. */
  function RowRecords(f: DataFrame, make: RecordMaker, i: nat, n: nat): seq<Record>
    requires i < |f.rows| && IsDayRow(f, i) && n <= f.width
  {
    if n <= 1 then []
    else
      var c := f.rows[i][n - 1];
      RowRecords(f, make, i, n - 1)
        + (if c.Str? then [make(f.rows[i][0].s, TimeCell(f, i, n - 1), c.s)] else [])
  }

  /** The records of the day rows before row `n`, row by row. */
  function Records(f: DataFrame, make: RecordMaker, n: nat): seq<Record>
    requires n <= |f.rows|
  {
    if n == 0 then []
    else Records(f, make, n - 1) + (if IsDayRow(f, n - 1) then RowRecords(f, make, n - 1, f.width) else [])
  }

  /** Cell (i, j) lies in a day row, past the day column, holds text, and
      gives record `r`. */
  predicate Yields(f: DataFrame, make: RecordMaker, i: nat, j: nat, r: Record) {
    && i < |f.rows| && IsDayRow(f, i) && 1 <= j < f.width && f.rows[i][j].Str?
    && r == make(f.rows[i][0].s, TimeCell(f, i, j), f.rows[i][j].s)
  }

  lemma {:induction false} RowRecordsWitness(f: DataFrame, make: RecordMaker, i: nat, n: nat, r: Record) returns (j: nat)
    requires i < |f.rows| && IsDayRow(f, i) && n <= f.width && r in RowRecords(f, make, i, n)
    ensures 1 <= j < n && Yields(f, make, i, j, r)
  {
    if r in RowRecords(f, make, i, n - 1) {
      j := RowRecordsWitness(f, make, i, n - 1, r);
    } else {
      j := n - 1;
    }
  }

  lemma {:induction false} RowRecordsHas(f: DataFrame, make: RecordMaker, i: nat, j: nat, n: nat, r: Record)
    requires Yields(f, make, i, j, r) && j < n <= f.width
    ensures r in RowRecords(f, make, i, n)
  {
    if j < n - 1 {
      RowRecordsHas(f, make, i, j, n - 1, r);
    }
  }

  lemma {:induction false} RecordsWitness(f: DataFrame, make: RecordMaker, n: nat, r: Record) returns (i: nat, j: nat)
    requires n <= |f.rows| && r in Records(f, make, n)
    ensures i < n && Yields(f, make, i, j, r)
  {
    if r in Records(f, make, n - 1) {
      i, j := RecordsWitness(f, make, n - 1, r);
    } else {
      i := n - 1;
      j := RowRecordsWitness(f, make, i, f.width, r);
    }
  }

  lemma {:induction false} RecordsHas(f: DataFrame, make: RecordMaker, i: nat, j: nat, n: nat, r: Record)
    requires Yields(f, make, i, j, r) && i < n <= |f.rows|
    ensures r in Records(f, make, n)
  {
    if i < n - 1 {
      RecordsHas(f, make, i, j, n - 1, r);
    } else {
      RowRecordsHas(f, make, i, j, f.width, r);
    }
  }

  /** A record is extracted exactly when some text cell of a day row, past
      the day column, gives it. */
  lemma RecordsMembers(f: DataFrame, make: RecordMaker, r: Record)
    ensures r in Records(f, make, |f.rows|) <==> exists i: nat, j: nat :: Yields(f, make, i, j, r)
  {
    if r in Records(f, make, |f.rows|) {
      var i, j := RecordsWitness(f, make, |f.rows|, r);
    }
    forall i: nat, j: nat | Yields(f, make, i, j, r) ensures r in Records(f, make, |f.rows|) {
      RecordsHas(f, make, i, j, |f.rows|, r);
    }
  }

  /** What every record satisfies: a weekday, a stripped one-line subject
      and classroom, and the teacher the mapping gives the subject, or
      "Unknown Teacher" when it has none. */
  predicate WellFormed(m: Mapping, r: Record) {
    && r.day in Days
    && IsStripped(r.subject) && '\n' !in r.subject
    && IsStripped(r.classroom) && '\n' !in r.classroom
    && (Str(r.subject) in m ==> r.teacher == m[Str(r.subject)])
    && (Str(r.subject) !in m ==> r.teacher == Str(UnknownTeacher))
  }

  lemma CellRecordWellFormed(day: string, time: Cell, text: string, m: Mapping)
    requires day in Days
    ensures WellFormed(m, CellRecord(day, time, text, m))
  {
    var parts := SplitOn(text, '\n');
    StripSubset(parts[0], '\n');
    if |parts| > 2 {
      StripSubset(parts[2], '\n');
    }
  }

  lemma RecordsWellFormed(f: DataFrame, m: Mapping, r: Record)
    requires r in Records(f, MakeRecord(m), |f.rows|)
    ensures WellFormed(m, r)
  {
    var i, j := RecordsWitness(f, MakeRecord(m), |f.rows|, r);
    CellRecordWellFormed(f.rows[i][0].s, TimeCell(f, i, j), f.rows[i][j].s, m);
  }

  /** The second loop of the scanner: every weekday row in turn. */
  method ScanTimetable(f: DataFrame, facultyMapping: Mapping) returns (timetableData: seq<Record>)
    ensures timetableData == Records(f, MakeRecord(facultyMapping), |f.rows|)
  {
    timetableData := [];
    var i := 0;
    while i < |f.rows|
      invariant i <= |f.rows|
      invariant timetableData == Records(f, MakeRecord(facultyMapping), i)
    {
      if f.rows[i][0].Str? && f.rows[i][0].s in Days {
        timetableData := ScanDayRow(f, MakeRecord(facultyMapping), i, timetableData);
      }
      i := i + 1;
    }
  }

  /** The body of the second loop for a weekday row: one record per text
      cell from column 1 on. */
  method ScanDayRow(f: DataFrame, make: RecordMaker, i: nat, data: seq<Record>) returns (r: seq<Record>)
    requires i < |f.rows| && IsDayRow(f, i)
    ensures r == data + RowRecords(f, make, i, f.width)
  {
    r := data;
    var day := f.rows[i][0].s;
    var j := 1;
    while j < f.width
      invariant 1 <= j <= f.width
      invariant r == data + RowRecords(f, make, i, j)
    {
      var cell := f.rows[i][j];
      if NotNa(cell) {
        var timeSlot := TimeCell(f, i, j);
        if cell.Str? {
          r := r + [make(day, timeSlot, cell.s)];
        }
      }
      j := j + 1;
    }
  }

  // ---------------------------------------------------------------------
  // the output file

  /** One line of the output file, without its newline:
      `f"{Day}, {Time}, {Subject}, {Teacher}, {Classroom}"`. */
  function LineBody(r: Record): string {
    r.day + ", " + Render(r.time) + ", " + r.subject + ", " + Render(r.teacher) + ", " + r.classroom
  }

  /** The text written: each record's line followed by a newline. */
  function Output(rs: seq<Record>): string {
    if rs == [] then "" else LineBody(rs[0]) + "\n" + Output(rs[1..])
  }

  function LineBodies(rs: seq<Record>): (r: seq<string>)
    ensures |r| == |rs|
  {
    if rs == [] then [] else [LineBody(rs[0])] + LineBodies(rs[1..])
  }

  /** Splitting at the first newline of a line that has no other. */
  lemma SplitOnLine(a: string, b: string)
    requires '\n' !in a
    ensures SplitOn(a + "\n" + b, '\n') == [a] + SplitOn(b, '\n')
  {
    var s := a + "\n" + b;
    assert s[|a|] == '\n';
    assert forall j :: 0 <= j < |a| ==> s[j] == a[j];
    var k := IndexOfChar(s, '\n', 0);
    assert k == |a|;
    assert s[..k] == a && s[k + 1..] == b;
  }

  /** A record's line holds no newline when none of its fields does. */
  predicate OneLine(r: Record) {
    '\n' !in LineBody(r)
  }

  /** The file splits at its newlines into exactly one line per record, in
      order, followed by the empty text after the last newline. */
  lemma {:induction false} OutputLines(rs: seq<Record>)
    requires forall k :: 0 <= k < |rs| ==> OneLine(rs[k])
    ensures SplitOn(Output(rs), '\n') == LineBodies(rs) + [""]
  {
    if rs == [] {
      assert IndexOfChar("", '\n', 0) == -1;
    } else {
      OutputLines(rs[1..]);
      SplitOnLine(LineBody(rs[0]), Output(rs[1..]));
    }
  }

  lemma DayOneLine(d: string)
    requires d in Days
    ensures '\n' !in d
  {
    var k :| 0 <= k < |Days| && Days[k] == d;
    if k == 0 {
      assert '\n' !in "Monday";
    } else if k == 1 {
      assert '\n' !in "Tuesday";
    } else if k == 2 {
      assert '\n' !in "Wednesday";
    } else if k == 3 {
      assert '\n' !in "Thursday";
    } else if k == 4 {
      assert '\n' !in "Friday";
    } else {
      assert '\n' !in "Saturday";
    }
  }

  /** A well-formed record whose time and teacher cells print on one line
      gives one line. */
  lemma WellFormedOneLine(m: Mapping, r: Record)
    requires WellFormed(m, r) && '\n' !in Render(r.time) && '\n' !in Render(r.teacher)
    ensures OneLine(r)
  {
    var sep := ", ";
    DayOneLine(r.day);
    assert '\n' !in sep;
    assert LineBody(r) == r.day + sep + Render(r.time) + sep + r.subject + sep + Render(r.teacher) + sep + r.classroom;
  }

  /** The writing loop: one line per record, in order. */
  method WriteLines(timetable: seq<Record>) returns (text: string)
    ensures text == Output(timetable)
  {
    text := "";
    var k := 0;
    while k < |timetable|
      invariant k <= |timetable|
      invariant text == Output(timetable[..k])
    {
      OutputSnoc(timetable[..k], timetable[k]);
      assert timetable[..k + 1] == timetable[..k] + [timetable[k]];
      text := text + LineBody(timetable[k]) + "\n";
      k := k + 1;
    }
    assert timetable[..k] == timetable;
  }

  /** One more record adds its line at the end. */
  lemma {:induction false} OutputSnoc(rs: seq<Record>, r: Record)
    ensures Output(rs + [r]) == Output(rs) + LineBody(r) + "\n"
  {
    if rs == [] {
      assert [r][1..] == [];
    } else {
      assert (rs + [r])[0] == rs[0] && (rs + [r])[1..] == rs[1..] + [r];
      OutputSnoc(rs[1..], r);
      Reassociate(LineBody(rs[0]) + "\n", Output(rs[1..]), LineBody(r), "\n");
    }
  }

  lemma Reassociate(a: string, b: string, c: string, d: string)
    ensures a + (b + c + d) == a + b + c + d
  {
  }

  // ---------------------------------------------------------------------
  // the whole scanner

  /** What the scanner writes for a frame, or the error it stops with. */
  function Extract(f: DataFrame): Result<string, ParseError> {
    match FacultyMapping(f)
    case Err(e) => Err(e)
    case Ok(m) => Ok(Output(Records(f, MakeRecord(m), |f.rows|)))
  }

  /** The scanner: the faculty mapping, then the records, then the file. */
  method ExtractTimetable(f: DataFrame) returns (r: Result<string, ParseError>)
    ensures r == Extract(f)
  {
    var mapping := BuildFacultyMapping(f);
    if mapping.Err? {
      return Err(mapping.error);
    }
    var timetableData := ScanTimetable(f, mapping.value);
    var text := WriteLines(timetableData);
    return Ok(text);
  }

  /** The scanner fails exactly when the mapping scan does. */
  lemma ExtractFails(f: DataFrame)
    ensures Extract(f).Err? <==> f.width < 4 && HasTableRow(f)
  {
    FacultyMappingFails(f);
  }
}
