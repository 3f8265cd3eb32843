/** `parse_excel_file` of ExcelDataParserJson.py: every sheet of the
    workbook, in `sheet_names()` order, is parsed for sessions and then for
    roster entries, and the two results are appended to two running lists. */
module Workbook {
  import opened Wrappers
  import opened Grid
  import opened Sessions
  import opened SessionFacts
  import opened Roster

  /** The `{"timetable": ..., "subjects": ...}` document. */
  datatype Extracted = Extracted(timetable: seq<Session>, subjects: seq<RosterEntry>)

  const NothingExtracted := Extracted([], [])

  /** What one sheet contributes; the sessions are read first, so a sheet
      whose timetable raises is not read for its roster. */
  function SheetResult(sheet: Sheet): Result<Extracted, ParseError> {
    var timetable :- SheetSessions(sheet);
    var subjects :- SheetRoster(sheet);
    Ok(Extracted(timetable, subjects))
  }

  /** The two lists extended by a later part. */
  function Combine(a: Extracted, b: Extracted): Extracted {
    Extracted(a.timetable + b.timetable, a.subjects + b.subjects)
  }

  /** `f` applied to every element of `s`, in order. */
  function Map<A, B>(f: A -> B, s: seq<A>): (r: seq<B>)
    ensures |r| == |s|
  {
    if s == [] then [] else Map(f, s[..|s| - 1]) + [f(s[|s| - 1])]
  }

  lemma {:induction false} MapAt<A, B>(f: A -> B, s: seq<A>, i: nat)
    requires i < |s|
    ensures Map(f, s)[i] == f(s[i])
  {
    if i < |s| - 1 {
      MapAt(f, s[..|s| - 1], i);
    }
  }

  lemma {:induction false} MapAppend<A, B>(f: A -> B, a: seq<A>, b: seq<A>)
    ensures Map(f, a + b) == Map(f, a) + Map(f, b)
  {
    if b != [] {
      var b' := b[..|b| - 1];
      assert (a + b)[..|a + b| - 1] == a + b';
      assert (a + b)[|a + b| - 1] == b[|b| - 1];
      MapAppend(f, a, b');
    } else {
      assert a + b == a;
    }
  }

  /** The first n per-sheet results appended in order; the first one that
      raised makes the whole raise. */
  function Collect(results: seq<Result<Extracted, ParseError>>, n: nat): Result<Extracted, ParseError>
    requires n <= |results|
  {
    if n == 0 then Ok(NothingExtracted)
    else
      var prev :- Collect(results, n - 1);
      var last :- results[n - 1];
      Ok(Combine(prev, last))
  }

  /** The workbook: the sheets parsed in order. */
  function ExcelData(sheets: seq<Sheet>): Result<Extracted, ParseError> {
    Collect(Map(SheetResult, sheets), |sheets|)
  }

  /** The body of `parse_excel_file`'s loop for sheet `i` of the workbook:
      its sessions, then its roster. */
  method ParseSheet(sheets: seq<Sheet>, i: nat) returns (r: Result<Extracted, ParseError>)
    requires i < |sheets|
    ensures r == Map(SheetResult, sheets)[i]
  {
    MapAt(SheetResult, sheets, i);
    var sheet := sheets[i];
    var timetableData := ParseTimetableSheet(sheet);
    if timetableData.Err? {
      return Err(timetableData.error);
    }
    var subjectData := ParseSubjectsSection(sheet);
    if subjectData.Err? {
      return Err(subjectData.error);
    }
    return Ok(Extracted(timetableData.value, subjectData.value));
  }

  /** `parse_excel_file`'s loop over the sheets, extending the two lists. */
  method ParseExcelFile(sheets: seq<Sheet>) returns (r: Result<Extracted, ParseError>)
    ensures r == ExcelData(sheets)
  {
    ghost var results := Map(SheetResult, sheets);
    var allTimetableData: seq<Session> := [];
    var allSubjectData: seq<RosterEntry> := [];
    var i := 0;
    while i < |sheets|
      invariant i <= |sheets|
      invariant Collect(results, i) == Ok(Extracted(allTimetableData, allSubjectData))
    {
      var data := ParseSheet(sheets, i);
      CollectStep(results, i, Extracted(allTimetableData, allSubjectData));
      if data.Err? {
        return Err(data.error);
      }
      allTimetableData := allTimetableData + data.value.timetable;
      allSubjectData := allSubjectData + data.value.subjects;
      i := i + 1;
    }
    return Ok(Extracted(allTimetableData, allSubjectData));
  }

  /** One more sheet: its lists are appended, or it raises and so does
      the whole workbook. */
  lemma CollectStep(results: seq<Result<Extracted, ParseError>>, i: nat, x: Extracted)
    requires i < |results| && Collect(results, i) == Ok(x)
    ensures results[i].Ok? ==> Collect(results, i + 1) == Ok(Combine(x, results[i].value))
    ensures results[i].Err? ==> Collect(results, |results|) == results[i]
  {
    if results[i].Err? {
      CollectErr(results, i + 1, |results|);
    }
  }

  /** Once a sheet raises, the whole workbook raises. */
  lemma {:induction false} CollectErr(results: seq<Result<Extracted, ParseError>>, m: nat, n: nat)
    requires m <= n <= |results| && Collect(results, m).Err?
    ensures Collect(results, n) == Collect(results, m)
    decreases n - m
  {
    if m < n {
      CollectErr(results, m, n - 1);
    }
  }

  /** Appending the results of `a` and of `b`: `b`'s lists follow `a`'s. */
  lemma {:induction false} CollectAppend(ra: seq<Result<Extracted, ParseError>>, rb: seq<Result<Extracted, ParseError>>, n: nat)
    requires n <= |rb|
    ensures Collect(ra + rb, |ra| + n) == Then(Collect(ra, |ra|), Collect(rb, n))
  {
    if n == 0 {
      CollectPrefix(ra, rb, |ra|);
      if Collect(ra, |ra|).Ok? {
        var x := Collect(ra, |ra|).value;
        assert Combine(x, NothingExtracted) == x;
      }
    } else {
      CollectAppend(ra, rb, n - 1);
      assert (ra + rb)[|ra| + n - 1] == rb[n - 1];
      if Collect(ra, |ra|).Ok? && Collect(rb, n - 1).Ok? && rb[n - 1].Ok? {
        var x, y, z := Collect(ra, |ra|).value, Collect(rb, n - 1).value, rb[n - 1].value;
        assert Combine(Combine(x, y), z) == Combine(x, Combine(y, z));
      }
      if Collect(ra, |ra|).Err? {
        assert Collect(ra, |ra|).error == IndexError;
      } else if Collect(rb, n - 1).Err? {
        assert Collect(rb, n - 1).error == IndexError;
      }
    }
  }

  /** Collecting only looks at the first n results. */
  lemma {:induction false} CollectPrefix(ra: seq<Result<Extracted, ParseError>>, rb: seq<Result<Extracted, ParseError>>, n: nat)
    requires n <= |ra|
    ensures Collect(ra + rb, n) == Collect(ra, n)
  {
    if n > 0 {
      CollectPrefix(ra, rb, n - 1);
      assert (ra + rb)[n - 1] == ra[n - 1];
    }
  }

  /** Two parts parsed one after the other: the first error, or both
      parts' lists appended. */
  function Then(first: Result<Extracted, ParseError>, second: Result<Extracted, ParseError>): Result<Extracted, ParseError> {
    match first
    case Err(e) => Err(e)
    case Ok(x) =>
      match second
      case Err(e) => Err(e)
      case Ok(y) => Ok(Combine(x, y))
  }

  lemma CollectMapAppend<T>(f: T -> Result<Extracted, ParseError>, a: seq<T>, b: seq<T>)
    ensures Collect(Map(f, a + b), |a + b|) == Then(Collect(Map(f, a), |a|), Collect(Map(f, b), |b|))
  {
    var ra, rb := Map(f, a), Map(f, b);
    MapAppend(f, a, b);
    CollectAppend(ra, rb, |rb|);
    assert |a + b| == |ra| + |rb|;
  }

  /** Parsing is a homomorphism from sheet lists to the pair of lists:
      parsing `a + b` parses `a`, then `b`, and appends each list. */
  lemma ExcelDataAppend(a: seq<Sheet>, b: seq<Sheet>)
    ensures ExcelData(a + b) == Then(ExcelData(a), ExcelData(b))
  {
    CollectMapAppend(SheetResult, a, b);
  }

  /** The first n results collect exactly when none of them raised. */
  lemma {:induction false} CollectOk(results: seq<Result<Extracted, ParseError>>, n: nat)
    requires n <= |results|
    ensures Collect(results, n).Ok? <==> forall i :: 0 <= i < n ==> results[i].Ok?
  {
    if n > 0 {
      CollectOk(results, n - 1);
    }
  }

  /** The workbook parses exactly when every sheet does. */
  lemma ExcelDataOk(sheets: seq<Sheet>)
    ensures ExcelData(sheets).Ok? <==> forall i :: 0 <= i < |sheets| ==> SheetResult(sheets[i]).Ok?
  {
    var results := Map(SheetResult, sheets);
    CollectOk(results, |sheets|);
    forall i | 0 <= i < |sheets| ensures results[i] == SheetResult(sheets[i]) {
      MapAt(SheetResult, sheets, i);
    }
  }

  /** Every record of a parsed workbook is well formed. */
  lemma {:induction false} CollectWellFormed(results: seq<Result<Extracted, ParseError>>, n: nat)
    requires n <= |results|
    requires forall i :: 0 <= i < n && results[i].Ok? ==>
               AllSatisfy(results[i].value.timetable, WellFormed) && AllWellFormed(results[i].value.subjects)
    ensures Collect(results, n).Ok? ==>
              AllSatisfy(Collect(results, n).value.timetable, WellFormed) && AllWellFormed(Collect(results, n).value.subjects)
  {
    if n > 0 && Collect(results, n).Ok? {
      CollectWellFormed(results, n - 1);
      var x, y := Collect(results, n - 1).value, results[n - 1].value;
      AllSatisfyAppend(x.timetable, y.timetable, WellFormed);
    }
  }

  lemma ExcelDataWellFormed(sheets: seq<Sheet>)
    ensures ExcelData(sheets).Ok? ==>
              AllSatisfy(ExcelData(sheets).value.timetable, WellFormed) && AllWellFormed(ExcelData(sheets).value.subjects)
  {
    var results := Map(SheetResult, sheets);
    forall i | 0 <= i < |sheets| && results[i].Ok?
      ensures AllSatisfy(results[i].value.timetable, WellFormed) && AllWellFormed(results[i].value.subjects)
    {
      MapAt(SheetResult, sheets, i);
      SheetSessionsWellFormed(sheets[i]);
      SheetRosterWellFormed(sheets[i]);
    }
    CollectWellFormed(results, |sheets|);
  }
}
