/** What the live `parse_timetable_sheet` of ExcelDataParserJson.py promises
    about its records: their shape, which columns emit them and in what
    order, when the scan raises, which header they carry, and how a merged
    lecture repeats. */
module SessionFacts {
  import opened Wrappers
  import opened Text
  import opened Grid
  import opened Header
  import opened Sessions
  import opened RowScan

  // ---------------------------------------------------------------------
  // the two loops, generically

  ghost predicate AllSatisfy(ss: seq<Session>, q: Session -> bool) {
    forall i :: 0 <= i < |ss| ==> q(ss[i])
  }

  /** Every session among the period outcomes satisfies `q`. */
  ghost predicate SlotsSatisfy(slots: seq<Result<Option<Session>, ParseError>>, q: Session -> bool) {
    forall k :: 0 <= k < |slots| && slots[k].Ok? && slots[k].value.Some? ==> q(slots[k].value.value)
  }

  lemma AllSatisfyAppend(a: seq<Session>, b: seq<Session>, q: Session -> bool)
    requires AllSatisfy(a, q) && AllSatisfy(b, q)
    ensures AllSatisfy(a + b, q)
  {
    forall i | 0 <= i < |a + b| ensures q((a + b)[i]) {
      if i >= |a| {
        assert (a + b)[i] == b[i - |a|];
      }
    }
  }

  /** What every period outcome satisfies, the gathered row satisfies. */
  lemma {:induction false} GatherKeeps(slots: seq<Result<Option<Session>, ParseError>>, n: nat, q: Session -> bool)
    requires n <= |slots| && SlotsSatisfy(slots, q)
    ensures Gather(slots, n).Ok? ==> AllSatisfy(Gather(slots, n).value, q)
  {
    if n > 0 {
      GatherKeeps(slots, n - 1, q);
      var acc := Gather(slots, n - 1);
      if acc.Ok? && slots[n - 1].Ok? && slots[n - 1].value.Some? {
        AllSatisfyAppend(acc.value, [slots[n - 1].value.value], q);
      }
    }
  }

  /** A row raises exactly when one of its periods raises. */
  lemma {:induction false} GatherOk(slots: seq<Result<Option<Session>, ParseError>>, n: nat)
    requires n <= |slots|
    ensures Gather(slots, n).Ok? <==> forall k :: 0 <= k < n ==> slots[k].Ok?
  {
    if n > 0 {
      GatherOk(slots, n - 1);
    }
  }

  /** Outcome `k`, when it holds a session, holds the session of period `k`. */
  ghost predicate PeriodIndexed(slots: seq<Result<Option<Session>, ParseError>>) {
    forall k :: 0 <= k < |slots| && slots[k].Ok? && slots[k].value.Some? ==> slots[k].value.value.period == k
  }

  /** The gathered row holds exactly the sessions among the first `n`
      outcomes, each once, in increasing period order. */
  lemma {:induction false} GatherOrder(slots: seq<Result<Option<Session>, ParseError>>, n: nat)
    requires n <= |slots| && PeriodIndexed(slots) && Gather(slots, n).Ok?
    ensures forall i, j :: 0 <= i < j < |Gather(slots, n).value| ==>
              Gather(slots, n).value[i].period < Gather(slots, n).value[j].period
    ensures forall i :: 0 <= i < |Gather(slots, n).value| ==>
              Gather(slots, n).value[i].period < n &&
              slots[Gather(slots, n).value[i].period] == Ok(Some(Gather(slots, n).value[i]))
    ensures forall k :: 0 <= k < n && slots[k].Ok? && slots[k].value.Some? ==>
              slots[k].value.value in Gather(slots, n).value
  {
    if n > 0 {
      var prev := Gather(slots, n - 1).value;
      GatherOrder(slots, n - 1);
      if slots[n - 1].value.Some? {
        var s := slots[n - 1].value.value;
        var out := prev + [s];
        assert Gather(slots, n).value == out;
        assert s.period == n - 1;
        forall i | 0 <= i < |out| ensures out[i].period < n && slots[out[i].period] == Ok(Some(out[i])) {
          if i < |prev| {
            assert out[i] == prev[i];
          }
        }
        forall i, j | 0 <= i < j < |out| ensures out[i].period < out[j].period {
          assert out[i] == prev[i];
          if j < |prev| {
            assert out[j] == prev[j];
          }
        }
        forall k | 0 <= k < n && slots[k].Ok? && slots[k].value.Some? ensures slots[k].value.value in out {
          if k < n - 1 {
            assert slots[k].value.value in prev;
          } else {
            assert out[|prev|] == s;
          }
        }
      }
    }
  }

  // ---------------------------------------------------------------------
  // one period cell

  lemma TimesAreStripped(k: nat)
    requires k < |SlotTimes|
    ensures Strip(SlotTimes[k]) == SlotTimes[k]
  {
    StripIdentity(SlotTimes[k]);
  }

  lemma WeekdaysAreStripped(day: string)
    requires day in Weekdays
    ensures Strip(day) == day
  {
    StripIdentity(day);
  }

  /** Which period cells emit and which raise: a column past the sheet is
      skipped; a lookup outside the grid raises; an empty or RECESS cell is
      skipped; a non-empty whitespace-only cell raises on `parts[0]`; any
      other cell emits. */
  lemma SlotSessionOutcome(sheet: Sheet, row: nat, ctx: Context, day: string, k: nat)
    requires k < |SlotTimes|
    ensures var col := FirstSlotColumn + k;
      SlotSession(sheet, row, ctx, day, k).Err? <==>
        col < sheet.ncols && (MergedCellValue(sheet, row, col).None? ||
                              (MergedCellValue(sheet, row, col).value != "" && AllSpace(MergedCellValue(sheet, row, col).value)))
    ensures var col := FirstSlotColumn + k;
      (SlotSession(sheet, row, ctx, day, k).Ok? && SlotSession(sheet, row, ctx, day, k).value.Some?) <==>
        col < sheet.ncols && MergedCellValue(sheet, row, col).Some? &&
        Emits(MergedCellValue(sheet, row, col).value) && !AllSpace(MergedCellValue(sheet, row, col).value)
  {
    var col := FirstSlotColumn + k;
    if col < sheet.ncols && MergedCellValue(sheet, row, col).Some? {
      var value := MergedCellValue(sheet, row, col).value;
      SplitCellFails(value, ctx.classroom);
      if value != "" && AllSpace(value) {
        assert |Upper(Strip(value))| == 0;
      }
    }
  }

  /** A record as the live parser can emit it: a period 0..7 with that
      period's time, a weekday, `classroom` equal to `room`, a subject with
      no ':' and every text field stripped. */
  ghost predicate WellFormed(s: Session) {
    && s.period < |SlotTimes|
    && s.time == SlotTimes[s.period]
    && s.day in Weekdays
    && s.classroom == s.room
    && ':' !in s.subject
    && IsStripped(s.semester) && IsStripped(s.section) && IsStripped(s.subject)
    && IsStripped(s.faculty) && IsStripped(s.room)
  }

  /** A record of a row carries the header it was read under and the row's day. */
  ghost predicate Carries(s: Session, ctx: Context, day: string) {
    s.semester == Strip(ctx.semester) && s.section == Strip(ctx.section) && s.day == day
  }

  /** A record built for a weekday and a split cell is well formed and
      carries its header. */
  lemma MakeSessionWellFormed(ctx: Context, day: string, k: nat, f: CellFields)
    requires k < |SlotTimes| && day in Weekdays && ':' !in f.subject
    ensures WellFormed(MakeSession(ctx, day, k, f))
    ensures Carries(MakeSession(ctx, day, k, f), ctx, day)
  {
    TimesAreStripped(k);
    WeekdaysAreStripped(day);
    StripSubset(f.subject, ':');
  }

  lemma SlotSessionWellFormed(sheet: Sheet, row: nat, ctx: Context, day: string, k: nat)
    requires k < |SlotTimes| && day in Weekdays
    ensures SlotSession(sheet, row, ctx, day, k).Ok? && SlotSession(sheet, row, ctx, day, k).value.Some? ==>
              WellFormed(SlotSession(sheet, row, ctx, day, k).value.value) &&
              Carries(SlotSession(sheet, row, ctx, day, k).value.value, ctx, day)
  {
    if FirstSlotColumn + k < sheet.ncols && MergedCellValue(sheet, row, FirstSlotColumn + k).Some? {
      var value := MergedCellValue(sheet, row, FirstSlotColumn + k).value;
      if Emits(value) && SplitCell(value, ctx.classroom).Ok? {
        MakeSessionWellFormed(ctx, day, k, SplitCell(value, ctx.classroom).value);
      }
    }
  }

  /** With non-overlapping merged ranges, two period columns of one merged
      lecture both emit or both do not, and their records differ only in
      period and time. */
  lemma MergedLectureRepeats(sheet: Sheet, row: nat, ctx: Context, day: string, g: nat, k1: nat, k2: nat)
    requires forall i, j :: 0 <= i < j < |sheet.mergedCells| ==> Disjoint(sheet.mergedCells[i], sheet.mergedCells[j])
    requires k1 < |SlotTimes| && k2 < |SlotTimes|
    requires FirstSlotColumn + k1 < sheet.ncols && FirstSlotColumn + k2 < sheet.ncols
    requires g < |sheet.mergedCells|
    requires sheet.mergedCells[g].Covers(row, FirstSlotColumn + k1) && sheet.mergedCells[g].Covers(row, FirstSlotColumn + k2)
    ensures SlotSession(sheet, row, ctx, day, k1).Ok? == SlotSession(sheet, row, ctx, day, k2).Ok?
    ensures SlotSession(sheet, row, ctx, day, k1).Ok? ==>
              SlotSession(sheet, row, ctx, day, k1).value.Some? == SlotSession(sheet, row, ctx, day, k2).value.Some?
    ensures SlotSession(sheet, row, ctx, day, k1).Ok? && SlotSession(sheet, row, ctx, day, k1).value.Some? ==>
              SlotSession(sheet, row, ctx, day, k1).value.value ==
              SlotSession(sheet, row, ctx, day, k2).value.value.(period := k1, time := SlotTimes[k1])
  {
    MergedCellReadsAnchor(sheet, g, row, FirstSlotColumn + k1);
    MergedCellReadsAnchor(sheet, g, row, FirstSlotColumn + k2);
    if MergedCellValue(sheet, row, FirstSlotColumn + k1).Some? {
      CellSessionPeriods(MergedCellValue(sheet, row, FirstSlotColumn + k1).value, ctx, day, k1, k2);
    }
  }

  /** One cell text read for two periods gives the same outcome up to
      period and time. */
  lemma CellSessionPeriods(value: string, ctx: Context, day: string, k1: nat, k2: nat)
    requires k1 < |SlotTimes| && k2 < |SlotTimes|
    ensures CellSession(value, ctx, day, k1).Ok? == CellSession(value, ctx, day, k2).Ok?
    ensures CellSession(value, ctx, day, k1).Ok? ==>
              CellSession(value, ctx, day, k1).value.Some? == CellSession(value, ctx, day, k2).value.Some?
    ensures CellSession(value, ctx, day, k1).Ok? && CellSession(value, ctx, day, k1).value.Some? ==>
              CellSession(value, ctx, day, k1).value.value ==
              CellSession(value, ctx, day, k2).value.value.(period := k1, time := SlotTimes[k1])
  {
    TimesAreStripped(k1);
  }

  // ---------------------------------------------------------------------
  // one weekday row

  lemma RowSlotsIndexed(sheet: Sheet, row: nat, ctx: Context, day: string)
    ensures PeriodIndexed(RowSlots(sheet, row, ctx, day))
  {
  }

  lemma RowSlotsWellFormed(sheet: Sheet, row: nat, ctx: Context, day: string)
    requires day in Weekdays
    ensures SlotsSatisfy(RowSlots(sheet, row, ctx, day), WellFormed)
    ensures SlotsSatisfy(RowSlots(sheet, row, ctx, day), s => Carries(s, ctx, day))
  {
    var slots := RowSlots(sheet, row, ctx, day);
    forall k | 0 <= k < |slots| && slots[k].Ok? && slots[k].value.Some?
      ensures WellFormed(slots[k].value.value) && Carries(slots[k].value.value, ctx, day)
    {
      SlotSessionWellFormed(sheet, row, ctx, day, k);
    }
  }

  /** What one row that is not an info row emits: records of the weekday
      named in column A, each well formed and carrying the header the row
      was read under. */
  lemma RowSessionsWellFormed(sheet: Sheet, row: nat, ctx: Context)
    ensures RowSessions(sheet, row, ctx).Ok? ==> AllSatisfy(RowSessions(sheet, row, ctx).value, WellFormed)
    ensures RowSessions(sheet, row, ctx).Ok? && RowSessions(sheet, row, ctx).value != [] ==>
              CellValue(sheet, row, 0).Some? && Strip(CellValue(sheet, row, 0).value) in Weekdays &&
              AllSatisfy(RowSessions(sheet, row, ctx).value, s => Carries(s, ctx, Strip(CellValue(sheet, row, 0).value)))
  {
    var cell := CellValue(sheet, row, 0);
    if cell.Some? && Strip(cell.value) in Weekdays {
      var slots := RowSlots(sheet, row, ctx, Strip(cell.value));
      RowSlotsWellFormed(sheet, row, ctx, Strip(cell.value));
      GatherKeeps(slots, |SlotTimes|, WellFormed);
      GatherKeeps(slots, |SlotTimes|, s => Carries(s, ctx, Strip(cell.value)));
    }
  }

  /** The first `n` periods of a weekday row give exactly their emitting
      periods' records, one each, in increasing period order. */
  lemma PeriodsInOrder(sheet: Sheet, row: nat, ctx: Context, day: string, n: nat)
    requires n <= |SlotTimes| && Gather(RowSlots(sheet, row, ctx, day), n).Ok?
    ensures var out := Gather(RowSlots(sheet, row, ctx, day), n).value;
      && (forall i, j :: 0 <= i < j < |out| ==> out[i].period < out[j].period)
      && (forall i :: 0 <= i < |out| ==> out[i].period < n &&
                                         RowSlots(sheet, row, ctx, day)[out[i].period] == Ok(Some(out[i])))
      && (forall k :: 0 <= k < n && RowSlots(sheet, row, ctx, day)[k].Ok? &&
                      RowSlots(sheet, row, ctx, day)[k].value.Some? ==>
                        RowSlots(sheet, row, ctx, day)[k].value.value in out)
  {
    RowSlotsIndexed(sheet, row, ctx, day);
    GatherOrder(RowSlots(sheet, row, ctx, day), n);
  }

  /** The first `n` periods of a weekday row raise exactly when one of them
      raises. */
  lemma PeriodsRaise(sheet: Sheet, row: nat, ctx: Context, day: string, n: nat)
    requires n <= |SlotTimes|
    ensures Gather(RowSlots(sheet, row, ctx, day), n).Err? <==>
              exists k :: 0 <= k < n && RowSlots(sheet, row, ctx, day)[k].Err?
  {
    GatherOk(RowSlots(sheet, row, ctx, day), n);
  }

  // ---------------------------------------------------------------------
  // the whole sheet

  lemma RowStepWellFormed(sheet: Sheet, row: nat, st: ScanState)
    requires AllSatisfy(st.sessions, WellFormed)
    ensures RowStep(sheet, row, st).Ok? ==> AllSatisfy(RowStep(sheet, row, st).value.sessions, WellFormed)
  {
    if row !in InfoRows {
      RowSessionsWellFormed(sheet, row, st.ctx);
      var out := RowSessions(sheet, row, st.ctx);
      if out.Ok? {
        AllSatisfyAppend(st.sessions, out.value, WellFormed);
      }
    }
  }

  /** Every record of a parsed sheet is well formed. */
  lemma SheetSessionsWellFormed(sheet: Sheet)
    ensures SheetSessions(sheet).Ok? ==> AllSatisfy(SheetSessions(sheet).value, WellFormed)
  {
    forall row: nat, st: ScanState | AllSatisfy(st.sessions, WellFormed)
      ensures RowStep(sheet, row, st).Ok? ==> AllSatisfy(RowStep(sheet, row, st).value.sessions, WellFormed)
    {
      RowStepWellFormed(sheet, row, st);
    }
    FoldInduct(ScanStart, ScanStep(sheet), sheet.nrows,
               (row: nat, r: Result<ScanState, ParseError>) => r.Ok? ==> AllSatisfy(r.value.sessions, WellFormed));
  }

  /** The latest info row among rows 0..n-1. */
  function LatestInfoRow(n: nat): (h: Option<nat>)
    ensures h.Some? ==> h.value < n && h.value in InfoRows && forall j :: h.value < j < n ==> j !in InfoRows
    ensures h.None? ==> forall j :: 0 <= j < n ==> j !in InfoRows
  {
    if n == 0 then None
    else if n - 1 in InfoRows then Some(n - 1)
    else LatestInfoRow(n - 1)
  }

  /** The header in force at `row`: the one read from the latest info row
      above it, or the empty header when there is none. */
  ghost function ContextAt(sheet: Sheet, row: nat): Context {
    match LatestInfoRow(row)
    case None => NoContext
    case Some(h) =>
      match HeaderContext(sheet, h)
      case Ok(ctx) => ctx
      case Err(_) => NoContext
  }

  /** The sheet read row by row with no carried state: every row that is
      not an info row is read under the header of the latest info row
      above it. */
  ghost function ByRows(sheet: Sheet, n: nat): Result<seq<Session>, ParseError> {
    if n == 0 then Ok([])
    else match ByRows(sheet, n - 1)
      case Err(e) => Err(e)
      case Ok(prev) =>
        if n - 1 in InfoRows then
          match HeaderContext(sheet, n - 1)
          case Err(e) => Err(e)
          case Ok(_) => Ok(prev)
        else
          match RowSessions(sheet, n - 1, ContextAt(sheet, n - 1))
          case Err(e) => Err(e)
          case Ok(out) => Ok(prev + out)
  }

  /** The scan after `row` rows agrees with the stateless reading. */
  ghost predicate Agrees(sheet: Sheet, row: nat, r: Result<ScanState, ParseError>) {
    match r
    case Err(_) => ByRows(sheet, row).Err?
    case Ok(st) => st.ctx == ContextAt(sheet, row) && ByRows(sheet, row) == Ok(st.sessions)
  }

  /** Each row of the scan keeps the agreement. */
  lemma RowStepAgrees(sheet: Sheet)
    ensures forall row: nat, st: ScanState :: Agrees(sheet, row, Ok(st)) ==> Agrees(sheet, row + 1, RowStep(sheet, row, st))
  {
  }

  lemma ScanAgrees(sheet: Sheet, n: nat)
    ensures Agrees(sheet, n, Scan(sheet, n))
  {
    RowStepAgrees(sheet);
    FoldInduct(ScanStart, ScanStep(sheet), n,
               (row: nat, r: Result<ScanState, ParseError>) => Agrees(sheet, row, r));
  }

  /** The header the scan carries is always that of the latest info row:
      parsing a sheet gives the same result as reading every row under the
      header of the closest info row above it (the empty header above the
      first one). */
  lemma SheetSessionsByRows(sheet: Sheet)
    ensures SheetSessions(sheet) == ByRows(sheet, sheet.nrows)
  {
    ScanAgrees(sheet, sheet.nrows);
    if Scan(sheet, sheet.nrows).Err? {
      assert Scan(sheet, sheet.nrows).error == ByRows(sheet, sheet.nrows).error == IndexError;
    }
  }

  /** The header in force is stripped, so records carry it unchanged. */
  lemma ContextAtStripped(sheet: Sheet, row: nat)
    ensures Strip(ContextAt(sheet, row).semester) == ContextAt(sheet, row).semester
    ensures Strip(ContextAt(sheet, row).section) == ContextAt(sheet, row).section
  {
    var ctx := ContextAt(sheet, row);
    StripIdentity(ctx.semester);
    assert IsStripped(ctx.section);
    StripIdentity(ctx.section);
  }
}
