/** The subject roster of a sheet (`parse_subjects_section` of
    ExcelDataParserJson.py): a scan that ignores everything before the first
    THEORY SUBJECT or PRACTICAL marker row and then reads one roster entry
    per data row, the marker rows switching the kind of the entries. */
module Roster {
  import opened Wrappers
  import opened Text
  import opened Grid
  import opened RowScan

  const TheoryMarker: string := "THEORY SUBJECT"
  const PracticalMarker: string := "PRACTICAL"
  const SubHeaderMarker: string := "Course code:"

  /** `current_type`: the kind of section the scan is in. */
  datatype Kind = Theory | Practical

  function KindName(kind: Kind): string {
    match kind
    case Theory => "theory"
    case Practical => "practical"
  }

  /** One roster record as the parser emits it. */
  datatype RosterEntry = RosterEntry(
    courseCode: string, subjectAbbreviation: string, subjectType: string,
    facultyName: string, facultyAbbreviation: string)

  /** Every field of an emitted record is stripped and its type is one of
      the two kinds. */
  predicate EntryWellFormed(e: RosterEntry) {
    && IsStripped(e.courseCode) && IsStripped(e.subjectAbbreviation)
    && IsStripped(e.facultyName) && IsStripped(e.facultyAbbreviation)
    && (e.subjectType == "theory" || e.subjectType == "practical")
  }

  /** The merge-aware lookups of every column of row `r`, left to right
      (None where a lookup raises). */
  function RowCells(sheet: Sheet, r: nat): (cells: seq<Option<string>>)
    ensures |cells| == sheet.ncols
  {
    seq(sheet.ncols, c requires 0 <= c < sheet.ncols => MergedCellValue(sheet, r, c))
  }

  /** The values of all the lookups, or None when one of them raised: the
      list comprehension over the row stops at its first error. */
  function AllRead(cells: seq<Option<string>>): (v: Option<seq<string>>)
    ensures v.Some? <==> forall i :: 0 <= i < |cells| ==> cells[i].Some?
    ensures v.Some? ==> |v.value| == |cells| && forall i :: 0 <= i < |cells| ==> cells[i] == Some(v.value[i])
  {
    if forall i | 0 <= i < |cells| :: cells[i].Some? then
      Some(seq(|cells|, i requires 0 <= i < |cells| => cells[i].value))
    else None
  }

  /** `[get_merged_cell_value(sheet, r, c) for c in range(sheet.ncols)]`. */
  function RowValues(sheet: Sheet, r: nat): Option<seq<string>> {
    AllRead(RowCells(sheet, r))
  }

  /** `any(row)`: some cell is non-empty. */
  predicate AnyFilled(row: seq<string>) {
    exists c | 0 <= c < |row| :: row[c] != ""
  }

  /** The supporting staff of a practical row (columns G, H, I): the
      longest run of filled cells from column G on, at most three. Reading
      column H of a 7-column row, or column I of an 8-column row, raises. */
  function Staff(row: seq<string>): (r: Result<seq<string>, ParseError>)
    requires |row| > 6
    ensures r.Err? <==> (|row| == 7 && row[6] != "") || (|row| == 8 && row[6] != "" && row[7] != "")
    ensures r.Ok? ==> (|r.value| <= 3 &&
              (forall i :: 0 <= i < |r.value| ==> 6 + i < |row| && r.value[i] == row[6 + i] && r.value[i] != "") &&
              (|r.value| < 3 && 6 + |r.value| < |row| ==> row[6 + |r.value|] == ""))
  {
    if row[6] == "" then Ok([])
    else if |row| == 7 then Err(IndexError)
    else if row[7] == "" then Ok([row[6]])
    else if |row| == 8 then Err(IndexError)
    else if row[8] == "" then Ok([row[6], row[7]])
    else Ok([row[6], row[7], row[8]])
  }

  /** The faculty name with the staff appended as " (a, b, c)" when there is any. */
  function WithStaff(name: string, staff: seq<string>): string {
    if staff == [] then name else name + " (" + Join(staff, ", ") + ")"
  }

  /** The entry for the collected fields: emitted only when the course code
      and the abbreviation are non-empty (before stripping), every field
      stripped. */
  function Emit(courseCode: string, abbr: string, kind: Kind, name: string, facultyAbbr: string): (r: Option<RosterEntry>)
    ensures r.Some? <==> courseCode != "" && abbr != ""
    ensures r.Some? ==> EntryWellFormed(r.value)
  {
    if courseCode != "" && abbr != "" then
      Some(RosterEntry(Strip(courseCode), Strip(abbr), KindName(kind), Strip(name), Strip(facultyAbbr)))
    else None
  }

  /** A data row of a section of `kind`: course code from columns A and B,
      abbreviation from D, faculty name and abbreviation from E and F, and
      for a practical the supporting staff. Reading column B of a one-column
      row raises. */
  function DataRowEntry(row: seq<string>, kind: Kind): (r: Result<Option<RosterEntry>, ParseError>)
    requires |row| > 0 && row[0] != ""
    ensures r.Err? <==> |row| == 1 || (kind.Practical? && |row| > 6 && Staff(row).Err?)
    ensures r.Ok? ==> (r.value.Some? <==> |row| > 3 && row[3] != "")
    ensures r.Ok? && r.value.Some? ==>
              && EntryWellFormed(r.value.value)
              && r.value.value.subjectType == KindName(kind)
              && r.value.value.courseCode == Strip(if row[1] != "" then row[0] + ": " + row[1] else row[0])
              && r.value.value.subjectAbbreviation == Strip(row[3])
              && r.value.value.facultyAbbreviation == Strip(if |row| > 5 then row[5] else "")
              && r.value.value.facultyName ==
                   Strip(WithStaff(if |row| > 4 then row[4] else "",
                                   if kind.Practical? && |row| > 6 then Staff(row).value else []))
  {
    if |row| == 1 then Err(IndexError)
    else
      var courseCode := if row[1] != "" then row[0] + ": " + row[1] else row[0];
      var abbr := if |row| > 3 then row[3] else "";
      var name := if |row| > 4 then row[4] else "";
      var facultyAbbr := if |row| > 5 then row[5] else "";
      if kind.Practical? && |row| > 6 then
        match Staff(row)
        case Err(e) => Err(e)
        case Ok(staff) => Ok(Emit(courseCode, abbr, kind, WithStaff(name, staff), facultyAbbr))
      else Ok(Emit(courseCode, abbr, kind, name, facultyAbbr))
  }

  /** The marker a filled row carries in column A, THEORY SUBJECT taking
      precedence over PRACTICAL. */
  function MarkerOf(row: seq<string>): Option<Kind> {
    if !AnyFilled(row) then None
    else if Contains(row[0], TheoryMarker) then Some(Theory)
    else if Contains(row[0], PracticalMarker) then Some(Practical)
    else None
  }

  /** What the scan carries: the current kind (None until the first marker
      row, `found_section` being `kind.Some?`) and the entries so far. */
  datatype RosterState = RosterState(kind: Option<Kind>, entries: seq<RosterEntry>)

  /** One row of the scan, its cells already read. */
  function RosterRowStep(row: seq<string>, st: RosterState): Result<RosterState, ParseError> {
    if !AnyFilled(row) then Ok(st)
    else if MarkerOf(row).Some? then Ok(st.(kind := MarkerOf(row)))
    else if st.kind.None? || row[0] == "" || Contains(row[0], SubHeaderMarker) then Ok(st)
    else
      match DataRowEntry(row, st.kind.value)
      case Err(e) => Err(e)
      case Ok(None) => Ok(st)
      case Ok(Some(entry)) => Ok(st.(entries := st.entries + [entry]))
  }

  /** Row `r` of the scan: its cells are read (every column, through the
      merged ranges) before anything else. */
  function RosterStep(sheet: Sheet, r: nat, st: RosterState): Result<RosterState, ParseError> {
    match RowValues(sheet, r)
    case None => Err(IndexError)
    case Some(row) => RosterRowStep(row, st)
  }

  function RosterStepOf(sheet: Sheet): (nat, RosterState) -> Result<RosterState, ParseError> {
    (r: nat, st: RosterState) => RosterStep(sheet, r, st)
  }

  const RosterStart := RosterState(None, [])

  /** The scan over rows 0..n-1, before any marker and with no entries. */
  function RosterScan(sheet: Sheet, n: nat): Result<RosterState, ParseError> {
    Fold(RosterStart, RosterStepOf(sheet), n)
  }

  /** `parse_subjects_section`'s result. */
  function SheetRoster(sheet: Sheet): Result<seq<RosterEntry>, ParseError> {
    match RosterScan(sheet, sheet.nrows)
    case Err(e) => Err(e)
    case Ok(st) => Ok(st.entries)
  }

  // ---------------------------------------------------------------------
  // the parser

  /** The body of the row loop, on the row's cells. */
  method ParseRosterRow(row: seq<string>, currentType: Option<Kind>, subjectData: seq<RosterEntry>)
    returns (r: Result<RosterState, ParseError>)
    ensures r == RosterRowStep(row, RosterState(currentType, subjectData))
  {
    if !AnyFilled(row) {
      return Ok(RosterState(currentType, subjectData));
    }
    if Contains(row[0], TheoryMarker) {
      return Ok(RosterState(Some(Theory), subjectData));
    } else if Contains(row[0], PracticalMarker) {
      return Ok(RosterState(Some(Practical), subjectData));
    }
    if currentType.None? {
      return Ok(RosterState(currentType, subjectData));
    }
    if row[0] == "" || Contains(row[0], SubHeaderMarker) {
      return Ok(RosterState(currentType, subjectData));
    }
    var entry := DataRowEntry(row, currentType.value);
    if entry.Err? {
      return Err(entry.error);
    }
    if entry.value.Some? {
      return Ok(RosterState(currentType, subjectData + [entry.value.value]));
    }
    return Ok(RosterState(currentType, subjectData));
  }

  /** `parse_subjects_section`: the row loop with `current_type`,
      `found_section` and the accumulated list. */
  method ParseSubjectsSection(sheet: Sheet) returns (r: Result<seq<RosterEntry>, ParseError>)
    ensures r == SheetRoster(sheet)
  {
    var subjectData: seq<RosterEntry> := [];
    var currentType: Option<Kind> := None;
    var foundSection := false;
    var rowIdx := 0;
    while rowIdx < sheet.nrows
      invariant rowIdx <= sheet.nrows
      invariant foundSection <==> currentType.Some?
      invariant RosterScan(sheet, rowIdx) == Ok(RosterState(currentType, subjectData))
    {
      var row := RowValues(sheet, rowIdx);
      if row.None? {
        RosterScanNext(sheet, rowIdx, RosterState(currentType, subjectData));
        RosterScanErr(sheet, rowIdx + 1, sheet.nrows);
        return Err(IndexError);
      }
      var next := ParseRosterRow(row.value, currentType, subjectData);
      if next.Err? {
        RosterScanNext(sheet, rowIdx, RosterState(currentType, subjectData));
        RosterScanErr(sheet, rowIdx + 1, sheet.nrows);
        return Err(next.error);
      }
      RosterScanNext(sheet, rowIdx, RosterState(currentType, subjectData));
      currentType, subjectData := next.value.kind, next.value.entries;
      foundSection := currentType.Some?;
      rowIdx := rowIdx + 1;
    }
    return Ok(subjectData);
  }

  /** One more row of the scan. */
  lemma RosterScanNext(sheet: Sheet, r: nat, st: RosterState)
    requires RosterScan(sheet, r) == Ok(st)
    ensures RosterScan(sheet, r + 1) == RosterStep(sheet, r, st)
  {
  }

  /** Once a row raises, the whole scan raises. */
  lemma RosterScanErr(sheet: Sheet, m: nat, n: nat)
    requires m <= n
    requires RosterScan(sheet, m).Err?
    ensures RosterScan(sheet, n) == RosterScan(sheet, m)
  {
    FoldErr(RosterStart, RosterStepOf(sheet), m, n);
  }

  // ---------------------------------------------------------------------
  // properties

  /** The staff names of a practical row, joined with ", " in parentheses,
      end the stored faculty name: the final strip does not touch them. */
  lemma StaffSuffix(name: string, staff: seq<string>)
    requires staff != []
    ensures var tail := "(" + Join(staff, ", ") + ")";
            var s := Strip(WithStaff(name, staff));
            |tail| <= |s| && s[|s| - |tail|..] == tail
  {
    var tail := "(" + Join(staff, ", ") + ")";
    assert WithStaff(name, staff) == (name + " ") + tail;
    StripKeepsSuffix(name + " ", tail);
  }

  /** `", ".join` of three names. */
  lemma JoinThree(a: string, b: string, c: string)
    ensures Join([a, b, c], ", ") == a + ", " + b + ", " + c
  {
    JoinCons(b, [c], ", ");
    JoinCons(a, [b, c], ", ");
    assert [a] + [b, c] == [a, b, c];
  }

  /** The kind set by the latest marker row among rows 0..n-1 (None when
      there is none). */
  ghost function KindAt(sheet: Sheet, n: nat): Option<Kind> {
    if n == 0 then None
    else match RowValues(sheet, n - 1)
      case Some(row) => if MarkerOf(row).Some? then MarkerOf(row) else KindAt(sheet, n - 1)
      case None => KindAt(sheet, n - 1)
  }

  ghost predicate AllWellFormed(entries: seq<RosterEntry>) {
    forall i :: 0 <= i < |entries| ==> EntryWellFormed(entries[i])
  }

  /** What holds of the scan after each row: the kind is that of the latest
      marker row, nothing is collected before the first marker, and every
      record is well formed. */
  ghost predicate RosterInvariant(sheet: Sheet, n: nat, st: RosterState) {
    && st.kind == KindAt(sheet, n)
    && (st.kind.None? ==> st.entries == [])
    && AllWellFormed(st.entries)
  }

  /** One row: a marker row sets the kind, any other row keeps it; records
      are added only once a kind is set, and only well-formed ones. */
  lemma RowStepKeeps(row: seq<string>, st: RosterState)
    requires (st.kind.None? ==> st.entries == []) && AllWellFormed(st.entries)
    ensures RosterRowStep(row, st).Ok? ==>
              var next := RosterRowStep(row, st).value;
              && next.kind == (if MarkerOf(row).Some? then MarkerOf(row) else st.kind)
              && (next.kind.None? ==> next.entries == [])
              && AllWellFormed(next.entries)
  {
  }

  lemma RosterStepKeeps(sheet: Sheet)
    ensures forall r: nat, st: RosterState :: RosterInvariant(sheet, r, st) && RosterStep(sheet, r, st).Ok? ==>
              RosterInvariant(sheet, r + 1, RosterStep(sheet, r, st).value)
  {
    forall r: nat, st: RosterState | RosterInvariant(sheet, r, st) && RosterStep(sheet, r, st).Ok?
      ensures RosterInvariant(sheet, r + 1, RosterStep(sheet, r, st).value)
    {
      RowStepKeeps(RowValues(sheet, r).value, st);
    }
  }

  lemma RosterScanKeeps(sheet: Sheet, n: nat)
    ensures RosterScan(sheet, n).Ok? ==> RosterInvariant(sheet, n, RosterScan(sheet, n).value)
  {
    RosterStepKeeps(sheet);
    FoldInduct(RosterStart, RosterStepOf(sheet), n,
               (r: nat, res: Result<RosterState, ParseError>) => res.Ok? ==> RosterInvariant(sheet, r, res.value));
  }

  /** Every record `parse_subjects_section` returns is well formed. */
  lemma SheetRosterWellFormed(sheet: Sheet)
    ensures SheetRoster(sheet).Ok? ==> AllWellFormed(SheetRoster(sheet).value)
  {
    RosterScanKeeps(sheet, sheet.nrows);
  }

  /** A sheet with no THEORY SUBJECT or PRACTICAL marker row has an empty
      roster: everything before the first marker is ignored. */
  lemma NoMarkerNoRoster(sheet: Sheet)
    requires KindAt(sheet, sheet.nrows).None?
    ensures SheetRoster(sheet).Ok? ==> SheetRoster(sheet).value == []
  {
    RosterScanKeeps(sheet, sheet.nrows);
  }
}
