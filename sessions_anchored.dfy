/** The first definition of `parse_timetable_sheet` in ExcelDataParserJson.py,
    shadowed at import time by the second one (module Sessions) and so never
    called. It reads merged ranges differently: a period cell inside a merged
    range emits only at the range's top-left anchor, and there it emits one
    record for every period column the range spans; the faculty is not
    stripped a second time. */
module AnchoredSessions {
  import opened Wrappers
  import opened Text
  import opened Grid
  import opened Header
  import opened RowScan
  import opened Sessions

  /** The record this definition appends: the header, the room and the
      subject as they come, the faculty line without a second strip. */
  function AnchorSession(ctx: Context, day: string, k: nat, f: CellFields): (s: Session)
    requires k < |SlotTimes|
    ensures s.period == k && s.time == SlotTimes[k] && s.classroom == s.room
  {
    Session(ctx.semester, ctx.section, f.room, day, SlotTimes[k], k, f.subject, f.faculty, f.room)
  }

  /** Cell text `value` read for period `k`: nothing when it is empty or
      RECESS, IndexError when it is whitespace only, one record otherwise. */
  function PeriodOutcome(value: string, ctx: Context, day: string, k: nat): Result<Option<Session>, ParseError>
    requires k < |SlotTimes|
  {
    if !Emits(value) then Ok(None)
    else match SplitCell(value, ctx.classroom)
      case Err(e) => Err(e)
      case Ok(f) => Ok(Some(AnchorSession(ctx, day, k, f)))
  }

  /** `merged_width`: `chi - clo` of the first range in list order whose
      anchor is (rlo, clo), from position `from` on; 1 when there is none. */
  function MergedWidth(regions: seq<Region>, rlo: nat, clo: nat, from: nat := 0): int
    decreases |regions| - from
  {
    if from >= |regions| then 1
    else if regions[from].rlo == rlo && regions[from].clo == clo then regions[from].chi - regions[from].clo
    else MergedWidth(regions, rlo, clo, from + 1)
  }

  /** The width is that of the first range anchored at (rlo, clo). */
  lemma {:induction false} MergedWidthFirst(regions: seq<Region>, rlo: nat, clo: nat, from: nat, g: nat)
    requires from <= g < |regions| && regions[g].rlo == rlo && regions[g].clo == clo
    requires forall h :: from <= h < g ==> regions[h].rlo != rlo || regions[h].clo != clo
    ensures MergedWidth(regions, rlo, clo, from) == regions[g].chi - regions[g].clo
    decreases g - from
  {
    if from < g {
      MergedWidthFirst(regions, rlo, clo, from + 1, g);
    }
  }

  /** With no range anchored at (rlo, clo) the width is 1. */
  lemma {:induction false} MergedWidthNone(regions: seq<Region>, rlo: nat, clo: nat, from: nat)
    requires forall h :: from <= h < |regions| ==> regions[h].rlo != rlo || regions[h].clo != clo
    ensures MergedWidth(regions, rlo, clo, from) == 1
    decreases |regions| - from
  {
    if from < |regions| {
      MergedWidthNone(regions, rlo, clo, from + 1);
    }
  }

  /** The outcomes of `for i in range(merged_width)` at an anchor in period
      `k`: column `k + i` inside the eight periods reads `value` for that
      period, a column past them gives nothing. */
  function Spread(value: string, ctx: Context, day: string, k: nat, w: int): (r: seq<Result<Option<Session>, ParseError>>)
    requires k < |SlotTimes|
    ensures |r| == if w < 0 then 0 else w
  {
    seq(if w < 0 then 0 else w,
        i requires 0 <= i => if k + i < |SlotTimes| then PeriodOutcome(value, ctx, day, k + i) else Ok(None))
  }

  /** What period column `k` of a weekday row emits: nothing past the sheet
      or inside a merged range away from its anchor; at an anchor, the
      spread of the anchor's text; in an unmerged cell, that cell's record. */
  function ColumnSessions(sheet: Sheet, row: nat, ctx: Context, day: string, k: nat): Result<seq<Session>, ParseError>
    requires k < |SlotTimes|
  {
    var col := FirstSlotColumn + k;
    if col >= sheet.ncols then Ok([])
    else match IsMergedCell(sheet.mergedCells, row, col)
      case Some(anchor) =>
        if anchor != (row, col) then Ok([])
        else
          (match CellValue(sheet, row, col)
           case None => Err(IndexError)
           case Some(value) =>
             var spread := Spread(value, ctx, day, k, MergedWidth(sheet.mergedCells, row, col));
             Gather(spread, |spread|))
      case None =>
        match CellValue(sheet, row, col)
        case None => Err(IndexError)
        case Some(value) => Extend(Ok([]), PeriodOutcome(value, ctx, day, k))
  }

  /** The records so far followed by one column's; the first error wins. */
  function Chain(acc: Result<seq<Session>, ParseError>, out: Result<seq<Session>, ParseError>): Result<seq<Session>, ParseError> {
    match acc
    case Err(e) => Err(e)
    case Ok(prev) =>
      match out
      case Err(e) => Err(e)
      case Ok(more) => Ok(prev + more)
  }

  /** Period column `k` of a weekday row as a function of `k`. */
  function ColumnOf(sheet: Sheet, row: nat, ctx: Context, day: string): nat -> Result<seq<Session>, ParseError> {
    (k: nat) => if k < |SlotTimes| then ColumnSessions(sheet, row, ctx, day, k) else Ok([])
  }

  /** The records of the first `n` columns, in column order; the first error wins. */
  function ChainColumns(column: nat -> Result<seq<Session>, ParseError>, n: nat): Result<seq<Session>, ParseError> {
    if n == 0 then Ok([])
    else Chain(ChainColumns(column, n - 1), column(n - 1))
  }

  /** The records of the first `n` period columns of a weekday row. */
  function Columns(sheet: Sheet, row: nat, ctx: Context, day: string, n: nat): Result<seq<Session>, ParseError> {
    ChainColumns(ColumnOf(sheet, row, ctx, day), n)
  }

  /** What a row that is not an info row emits. */
  function AnchoredRowSessions(sheet: Sheet, row: nat, ctx: Context): Result<seq<Session>, ParseError> {
    match CellValue(sheet, row, 0)
    case None => Err(IndexError)
    case Some(cell) =>
      if Strip(cell) in Weekdays then Columns(sheet, row, ctx, Strip(cell), |SlotTimes|)
      else Ok([])
  }

  /** One row of the scan: an info row replaces the header, any other row
      appends what it emits. */
  function AnchoredRowStep(sheet: Sheet, row: nat, st: ScanState): Result<ScanState, ParseError> {
    if row in InfoRows then
      match HeaderContext(sheet, row)
      case Err(e) => Err(e)
      case Ok(ctx) => Ok(ScanState(ctx, st.sessions))
    else
      match AnchoredRowSessions(sheet, row, st.ctx)
      case Err(e) => Err(e)
      case Ok(out) => Ok(ScanState(st.ctx, st.sessions + out))
  }

  function AnchoredStep(sheet: Sheet): (nat, ScanState) -> Result<ScanState, ParseError> {
    (row: nat, st: ScanState) => AnchoredRowStep(sheet, row, st)
  }

  function AnchoredScan(sheet: Sheet, n: nat): Result<ScanState, ParseError> {
    Fold(ScanStart, AnchoredStep(sheet), n)
  }

  /** The first definition's result for a whole sheet. */
  function AnchoredSheetSessions(sheet: Sheet): Result<seq<Session>, ParseError> {
    match AnchoredScan(sheet, sheet.nrows)
    case Err(e) => Err(e)
    case Ok(st) => Ok(st.sessions)
  }

  // ---------------------------------------------------------------------
  // the parser

  /** The loop that looks for the first range anchored at (rlo, clo). */
  method FindMergedWidth(regions: seq<Region>, rlo: nat, clo: nat) returns (w: int)
    ensures w == MergedWidth(regions, rlo, clo)
  {
    var g := 0;
    while g < |regions|
      invariant g <= |regions|
      invariant MergedWidth(regions, rlo, clo) == MergedWidth(regions, rlo, clo, g)
    {
      if regions[g].rlo == rlo && regions[g].clo == clo {
        return regions[g].chi - regions[g].clo;
      }
      g := g + 1;
    }
    return 1;
  }

  /** The loop over the columns an anchor spans. */
  method ExpandAnchor(value: string, ctx: Context, day: string, k: nat, mergedWidth: int) returns (r: Result<seq<Session>, ParseError>)
    requires k < |SlotTimes|
    ensures r == Gather(Spread(value, ctx, day, k, mergedWidth), |Spread(value, ctx, day, k, mergedWidth)|)
  {
    ghost var slots := Spread(value, ctx, day, k, mergedWidth);
    var acc: Result<seq<Session>, ParseError> := Ok([]);
    var i: nat := 0;
    while i < mergedWidth && acc.Ok?
      invariant i <= |slots|
      invariant Gather(slots, i) == acc
    {
      var outcome: Result<Option<Session>, ParseError> := Ok(None);
      if k + i < |SlotTimes| {
        outcome := PeriodOutcome(value, ctx, day, k + i);
      }
      assert outcome == slots[i];
      acc := Extend(acc, outcome);
      i := i + 1;
    }
    if acc.Err? {
      GatherErr(slots, i, |slots|);
    }
    return acc;
  }

  /** One period column of a weekday row (the body of the column loop). */
  method ParseAnchoredSlot(sheet: Sheet, row: nat, ctx: Context, day: string, k: nat) returns (r: Result<seq<Session>, ParseError>)
    requires k < |SlotTimes|
    ensures r == ColumnSessions(sheet, row, ctx, day, k)
  {
    var col := FirstSlotColumn + k;
    if col >= sheet.ncols {
      return Ok([]);
    }
    var mergedInfo := IsMergedCell(sheet.mergedCells, row, col);
    if mergedInfo.Some? {
      var (mergedRlo, mergedClo) := mergedInfo.value;
      if row != mergedRlo || col != mergedClo {
        return Ok([]);
      }
      var cellValue := CellValue(sheet, mergedRlo, mergedClo);
      if cellValue.None? {
        return Err(IndexError);
      }
      var mergedWidth := FindMergedWidth(sheet.mergedCells, mergedRlo, mergedClo);
      r := ExpandAnchor(cellValue.value, ctx, day, k, mergedWidth);
    } else {
      var cellValue := CellValue(sheet, row, col);
      if cellValue.None? {
        return Err(IndexError);
      }
      r := Extend(Ok([]), PeriodOutcome(cellValue.value, ctx, day, k));
    }
  }

  /** A row that is not an info row. */
  method ParseAnchoredRow(sheet: Sheet, row: nat, ctx: Context) returns (r: Result<seq<Session>, ParseError>)
    ensures r == AnchoredRowSessions(sheet, row, ctx)
  {
    var cell := CellValue(sheet, row, 0);
    if cell.None? {
      return Err(IndexError);
    }
    var day := Strip(cell.value);
    if day in Weekdays {
      r := ParseAnchoredPeriods(sheet, row, ctx, day, |SlotTimes|);
    } else {
      r := Ok([]);
    }
  }

  /** The loop over the period columns of one weekday row, over its first
      `n` periods. */
  method ParseAnchoredPeriods(sheet: Sheet, row: nat, ctx: Context, day: string, n: nat) returns (r: Result<seq<Session>, ParseError>)
    requires n <= |SlotTimes|
    ensures r == Columns(sheet, row, ctx, day, n)
  {
    ghost var column := ColumnOf(sheet, row, ctx, day);
    var acc: Result<seq<Session>, ParseError> := Ok([]);
    var k := 0;
    while k < n && acc.Ok?
      invariant k <= n
      invariant ChainColumns(column, k) == acc
    {
      var out := ParseAnchoredSlot(sheet, row, ctx, day, k);
      assert out == column(k);
      acc := Chain(acc, out);
      k := k + 1;
    }
    if acc.Err? {
      ChainColumnsErr(column, k, n);
    }
    return acc;
  }

  /** Once a column raises, the whole row raises the same error. */
  lemma {:induction false} ChainColumnsErr(column: nat -> Result<seq<Session>, ParseError>, m: nat, n: nat)
    requires m <= n
    requires ChainColumns(column, m).Err?
    ensures ChainColumns(column, n) == ChainColumns(column, m)
    decreases n - m
  {
    if m < n {
      ChainColumnsErr(column, m, n - 1);
    }
  }

  /** The body of the row loop: an info row replaces the header, any other
      row appends what it emits. */
  method ParseAnchoredRowStep(sheet: Sheet, row: nat, st: ScanState) returns (r: Result<ScanState, ParseError>)
    ensures r == AnchoredRowStep(sheet, row, st)
  {
    if row in InfoRows {
      var header := HeaderContext(sheet, row);
      if header.Err? {
        return Err(header.error);
      }
      return Ok(ScanState(header.value, st.sessions));
    }
    var out := ParseAnchoredRow(sheet, row, st.ctx);
    if out.Err? {
      return Err(out.error);
    }
    return Ok(ScanState(st.ctx, st.sessions + out.value));
  }

  /** The first definition of `parse_timetable_sheet`. */
  method ParseAnchoredSheet(sheet: Sheet) returns (r: Result<seq<Session>, ParseError>)
    ensures r == AnchoredSheetSessions(sheet)
  {
    var semester, section, classroom := "", "", "";
    var timetable: seq<Session> := [];
    var row := 0;
    while row < sheet.nrows
      invariant row <= sheet.nrows
      invariant AnchoredScan(sheet, row) == Ok(ScanState(Context(semester, section, classroom), timetable))
    {
      var next := ParseAnchoredRowStep(sheet, row, ScanState(Context(semester, section, classroom), timetable));
      if next.Err? {
        FoldErr(ScanStart, AnchoredStep(sheet), row + 1, sheet.nrows);
        return Err(next.error);
      }
      semester, section, classroom := next.value.ctx.semester, next.value.ctx.section, next.value.ctx.classroom;
      timetable := next.value.sessions;
      row := row + 1;
    }
    return Ok(timetable);
  }

  // ---------------------------------------------------------------------
  // what the merged-range reading promises

  /** Merged ranges as Excel reports them: none empty, no two sharing a cell. */
  predicate WellMerged(regions: seq<Region>) {
    && (forall i :: 0 <= i < |regions| ==> regions[i].rlo < regions[i].rhi && regions[i].clo < regions[i].chi)
    && (forall i, j :: 0 <= i < j < |regions| ==> Disjoint(regions[i], regions[j]))
  }

  /** How many of `n` columns from period `k` on are period columns. */
  function Filled(k: nat, n: nat): nat
    requires k < |SlotTimes|
  {
    if k + n <= |SlotTimes| then n else |SlotTimes| - k
  }

  /** The lectures an emitting anchor at period `k` fills in, one for each
      period from `k` to the last. */
  function AnchorRun(ctx: Context, day: string, k: nat, f: CellFields): (run: seq<Session>)
    requires k < |SlotTimes|
    ensures |run| == |SlotTimes| - k
    ensures forall i :: 0 <= i < |run| ==> run[i] == AnchorSession(ctx, day, k + i, f)
  {
    seq(|SlotTimes| - k, i requires 0 <= i < |SlotTimes| - k => AnchorSession(ctx, day, k + i, f))
  }

  /** Outcomes that are the records of `run` followed by nothing gather
      into the first of those records. */
  lemma {:induction false} GatherRun(slots: seq<Result<Option<Session>, ParseError>>, run: seq<Session>, n: nat)
    requires n <= |slots|
    requires forall i :: 0 <= i < |slots| ==> slots[i] == if i < |run| then Ok(Some(run[i])) else Ok(None)
    ensures Gather(slots, n) == Ok(run[..if n < |run| then n else |run|])
  {
    if n > 0 {
      GatherRun(slots, run, n - 1);
      if n - 1 < |run| {
        assert run[..n] == run[..n - 1] + [run[n - 1]];
      }
    }
  }

  lemma PeriodOutcomeEmits(value: string, ctx: Context, day: string, k: nat)
    requires k < |SlotTimes| && Emits(value) && SplitCell(value, ctx.classroom).Ok?
    ensures PeriodOutcome(value, ctx, day, k) == Ok(Some(AnchorSession(ctx, day, k, SplitCell(value, ctx.classroom).value)))
  {
  }

  /** An anchor whose text emits fills each period column of its first `n`,
      from its own on, with the same lecture. */
  lemma SpreadFills(value: string, ctx: Context, day: string, k: nat, w: int, n: nat)
    requires k < |SlotTimes| && Emits(value) && SplitCell(value, ctx.classroom).Ok?
    requires n <= |Spread(value, ctx, day, k, w)|
    ensures Gather(Spread(value, ctx, day, k, w), n) == Ok(AnchorRun(ctx, day, k, SplitCell(value, ctx.classroom).value)[..Filled(k, n)])
  {
    var slots := Spread(value, ctx, day, k, w);
    var run := AnchorRun(ctx, day, k, SplitCell(value, ctx.classroom).value);
    forall i | 0 <= i < |slots| ensures slots[i] == if i < |run| then Ok(Some(run[i])) else Ok(None) {
      if i < |run| {
        PeriodOutcomeEmits(value, ctx, day, k + i);
      }
    }
    GatherRun(slots, run, n);
  }

  /** An anchor whose text is empty or RECESS emits nothing. */
  lemma {:induction false} SpreadSkips(value: string, ctx: Context, day: string, k: nat, w: int, n: nat)
    requires k < |SlotTimes| && !Emits(value)
    requires n <= |Spread(value, ctx, day, k, w)|
    ensures Gather(Spread(value, ctx, day, k, w), n) == Ok([])
  {
    if n > 0 {
      SpreadSkips(value, ctx, day, k, w, n - 1);
      var slots := Spread(value, ctx, day, k, w);
      if k + n - 1 < |SlotTimes| {
        assert slots[n - 1] == PeriodOutcome(value, ctx, day, k + n - 1) == Ok(None);
      } else {
        assert slots[n - 1] == Ok(None);
      }
    }
  }

  /** Under well-formed merges, the only range anchored at a cell is the
      one whose anchor it is, and it is the first that covers the cell. */
  lemma OnlyAnchor(regions: seq<Region>, g: nat, h: nat)
    requires WellMerged(regions) && g < |regions| && h < |regions|
    requires regions[h].rlo == regions[g].rlo && regions[h].clo == regions[g].clo
    ensures h == g
  {
    var a, b := regions[g], regions[h];
    assert a.Covers(a.rlo, a.clo) && b.Covers(a.rlo, a.clo);
    if h != g {
      assert false;
    }
  }

  /** A range covering a cell is the first one that covers it. */
  lemma FirstCover(regions: seq<Region>, g: nat, r: nat, c: nat)
    requires WellMerged(regions) && g < |regions| && regions[g].Covers(r, c)
    ensures IsMergedCell(regions, r, c) == Some((regions[g].rlo, regions[g].clo))
  {
    var i := FirstCovering(regions, r, c).value;
    if i != g {
      assert false;
    }
  }

  /** At the anchor of a merged range whose text emits, the column yields
      one record per period column the range spans, from the anchor's on,
      all with the anchor's lecture. */
  lemma AnchorFills(sheet: Sheet, row: nat, ctx: Context, day: string, k: nat, g: nat)
    requires sheet.Valid() && WellMerged(sheet.mergedCells)
    requires k < |SlotTimes| && row < sheet.nrows && FirstSlotColumn + k < sheet.ncols
    requires g < |sheet.mergedCells| && sheet.mergedCells[g].rlo == row && sheet.mergedCells[g].clo == FirstSlotColumn + k
    requires Emits(sheet.cells[row][FirstSlotColumn + k]) && !AllSpace(sheet.cells[row][FirstSlotColumn + k])
    ensures var out, w := ColumnSessions(sheet, row, ctx, day, k), sheet.mergedCells[g].chi - sheet.mergedCells[g].clo;
      var fields := SplitCell(sheet.cells[row][FirstSlotColumn + k], ctx.classroom);
      fields.Ok? && out == Ok(AnchorRun(ctx, day, k, fields.value)[..Filled(k, w)])
  {
    var regions, col := sheet.mergedCells, FirstSlotColumn + k;
    var value := sheet.cells[row][col];
    FirstCover(regions, g, row, col);
    forall h | 0 <= h < g && regions[h].rlo == row && regions[h].clo == col ensures false {
      OnlyAnchor(regions, g, h);
    }
    MergedWidthFirst(regions, row, col, 0, g);
    var w := MergedWidth(regions, row, col);
    SplitCellFails(value, ctx.classroom);
    SpreadFills(value, ctx, day, k, w, w);
  }

  /** Inside a merged range, every cell but the anchor yields nothing. */
  lemma NonAnchorSkipped(sheet: Sheet, row: nat, ctx: Context, day: string, k: nat, g: nat)
    requires WellMerged(sheet.mergedCells) && k < |SlotTimes|
    requires g < |sheet.mergedCells| && sheet.mergedCells[g].Covers(row, FirstSlotColumn + k)
    requires (row, FirstSlotColumn + k) != (sheet.mergedCells[g].rlo, sheet.mergedCells[g].clo)
    ensures ColumnSessions(sheet, row, ctx, day, k) == Ok([])
  {
    FirstCover(sheet.mergedCells, g, row, FirstSlotColumn + k);
  }

  /** At the anchor of a merged range, text that is whitespace only raises. */
  lemma AnchorFails(sheet: Sheet, row: nat, ctx: Context, day: string, k: nat, g: nat)
    requires sheet.Valid() && WellMerged(sheet.mergedCells)
    requires k < |SlotTimes| && row < sheet.nrows && FirstSlotColumn + k < sheet.ncols
    requires g < |sheet.mergedCells| && sheet.mergedCells[g].rlo == row && sheet.mergedCells[g].clo == FirstSlotColumn + k
    requires Emits(sheet.cells[row][FirstSlotColumn + k]) && AllSpace(sheet.cells[row][FirstSlotColumn + k])
    ensures ColumnSessions(sheet, row, ctx, day, k) == Err(IndexError)
  {
    var regions, col := sheet.mergedCells, FirstSlotColumn + k;
    var value := sheet.cells[row][col];
    FirstCover(regions, g, row, col);
    forall h | 0 <= h < g && regions[h].rlo == row && regions[h].clo == col ensures false {
      OnlyAnchor(regions, g, h);
    }
    MergedWidthFirst(regions, row, col, 0, g);
    SplitCellFails(value, ctx.classroom);
    var slots := Spread(value, ctx, day, k, MergedWidth(regions, row, col));
    assert |slots| > 0 && slots[0] == PeriodOutcome(value, ctx, day, k) == Err(IndexError);
    assert Gather(slots, 1) == Err(IndexError);
    GatherErr(slots, 1, |slots|);
  }

  lemma SlotTimesStripped(k: nat)
    requires k < |SlotTimes|
    ensures IsStripped(SlotTimes[k])
  {
  }

  /** The subject and room of a cell are stripped when the classroom is. */
  lemma FieldsStripped(content: string, classroom: string)
    requires IsStripped(classroom) && SplitCell(content, classroom).Ok?
    ensures var f := SplitCell(content, classroom).value;
      IsStripped(f.subject) && IsStripped(f.room)
  {
  }

  /** Outside merged ranges the first definition reads a period cell as the
      live one does, but for one strip of the faculty line: the same cells
      raise, the same cells give nothing, and a cell that emits gives the
      live record with the faculty line as it was before that strip. */
  lemma UnmergedAgrees(sheet: Sheet, row: nat, ctx: Context, day: string, k: nat)
    requires k < |SlotTimes| && FirstSlotColumn + k < sheet.ncols
    requires forall g :: 0 <= g < |sheet.mergedCells| ==> !sheet.mergedCells[g].Covers(row, FirstSlotColumn + k)
    requires IsStripped(ctx.semester) && IsStripped(ctx.section) && IsStripped(ctx.classroom) && IsStripped(day)
    ensures var live, out := SlotSession(sheet, row, ctx, day, k), ColumnSessions(sheet, row, ctx, day, k);
      && (out.Err? <==> live.Err?)
      && (out.Err? ==> out.error == live.error)
      && (out == Ok([]) <==> live == Ok(None))
      && (live.Ok? && live.value.Some? ==>
            && out.Ok? && |out.value| == 1
            && out.value[0].(faculty := live.value.value.faculty) == live.value.value
            && Strip(out.value[0].faculty) == live.value.value.faculty)
  {
    var col := FirstSlotColumn + k;
    var cell := CellValue(sheet, row, col);
    if cell.Some? && Emits(cell.value) && SplitCell(cell.value, ctx.classroom).Ok? {
      var f := SplitCell(cell.value, ctx.classroom).value;
      FieldsStripped(cell.value, ctx.classroom);
      SlotTimesStripped(k);
      StripIdentity(ctx.semester);
      StripIdentity(ctx.section);
      StripIdentity(day);
      StripIdentity(SlotTimes[k]);
      StripIdentity(f.subject);
      StripIdentity(f.room);
    }
  }
}
