/** The plain-text export (JsonToTextFile.py): `TimetableProcessor` holds
    the two loaded JSON documents, reshapes them and prints them as
    structured text lines. */
module TextExport {
  import opened Wrappers
  import opened Text
  import opened Sorting
  import opened Roster
  import opened Reshape
  import opened Layout

  const Title: string := "TIMETABLE STRUCTURED DATA\n"
  const AbbreviationsHeading: string := "\n\nABBREVIATIONS:"

  function DayHeading(day: string): string {
    "\n=== " + Upper(day) + " ==="
  }

  function SemesterHeading(semester: string): string {
    "\nSemester " + semester + ":"
  }

  /** " (Section X)", or nothing for an empty section. */
  function SectionSuffix(section: string): string {
    if section != "" then " (Section " + section + ")" else ""
  }

  function LectureLine(l: Lecture): string {
    l.time + ": " + l.subject + " - " + l.facultyFull + " - Room " + l.room + SectionSuffix(l.section)
  }

  function AbbrevLine(line: (string, AbbrevInfo)): string {
    line.0 + ": " + line.1.fullForm + " - " + line.1.faculty
  }

  function LectureLines(ls: seq<Lecture>): seq<string> {
    if ls == [] then [] else LectureLines(ls[..|ls| - 1]) + [LectureLine(ls[|ls| - 1])]
  }

  function SemesterLines(bs: seq<SemesterBlock>): seq<string> {
    if bs == [] then [] else
    var b := bs[|bs| - 1];
    SemesterLines(bs[..|bs| - 1]) + [SemesterHeading(b.semester)] + LectureLines(b.lectures)
  }

  function DayLines(bs: seq<DayBlock>): seq<string> {
    if bs == [] then [] else
    var b := bs[|bs| - 1];
    DayLines(bs[..|bs| - 1]) + [DayHeading(b.day)] + SemesterLines(b.semesters)
  }

  function AbbrevLines(a: Abbreviations): seq<string> {
    if a == [] then [] else AbbrevLines(a[..|a| - 1]) + [AbbrevLine(a[|a| - 1])]
  }

  lemma LectureLinesNext(ls: seq<Lecture>, k: nat)
    requires k < |ls|
    ensures LectureLines(ls[..k + 1]) == LectureLines(ls[..k]) + [LectureLine(ls[k])]
  {
    assert ls[..k + 1][..k] == ls[..k];
  }

  lemma AbbrevLinesNext(a: Abbreviations, k: nat)
    requires k < |a|
    ensures AbbrevLines(a[..k + 1]) == AbbrevLines(a[..k]) + [AbbrevLine(a[k])]
  {
    assert a[..k + 1][..k] == a[..k];
  }

  lemma SemesterLinesAppend(bs: seq<SemesterBlock>, b: SemesterBlock)
    ensures SemesterLines(bs + [b]) == SemesterLines(bs) + [SemesterHeading(b.semester)] + LectureLines(b.lectures)
  {
    assert (bs + [b])[..|bs|] == bs;
  }

  lemma DayLinesAppend(bs: seq<DayBlock>, b: DayBlock)
    ensures DayLines(bs + [b]) == DayLines(bs) + [DayHeading(b.day)] + SemesterLines(b.semesters)
  {
    assert (bs + [b])[..|bs|] == bs;
  }

  /** The lines `generate_structured_text` joins. */
  function StructuredLines(p: Processed): seq<string> {
    [Title] + DayLines(Outline(p.organized)) + [AbbreviationsHeading]
      + AbbrevLines(SortedAbbreviations(p.abbreviations))
  }

  function StructuredText(p: Processed): string {
    Join(StructuredLines(p), "\n")
  }

  class TimetableProcessor {
    var timetableData: seq<Entry>
    var subjectsData: seq<RosterEntry>

    constructor ()
      ensures timetableData == [] && subjectsData == []
    {
      timetableData, subjectsData := [], [];
    }

    /** `load_json`, with the two decoded documents passed in. */
    method LoadJson(timetable: seq<Entry>, subjects: seq<RosterEntry>)
      modifies this
      ensures timetableData == timetable && subjectsData == subjects
    {
      timetableData, subjectsData := timetable, subjects;
    }

    /** `process_data`: one pass over the records, filing each lecture and
        recording the first abbreviation line of each subject. */
    method ProcessData() returns (organized: Organized, abbreviations: Abbreviations)
      ensures organized == Organize(timetableData, subjectsData)
      ensures abbreviations == AbbrevTable(timetableData, subjectsData)
    {
      organized, abbreviations := map[], [];
      var n := 0;
      while n < |timetableData|
        invariant n <= |timetableData|
        invariant organized == Organize(timetableData[..n], subjectsData)
        invariant abbreviations == AbbrevTable(timetableData[..n], subjectsData)
      {
        var entry := timetableData[n];
        var semester := entry.semester.GetOr(OtherSemester);
        var info := InfoFor(subjectsData, entry);
        var lecture := Lecture(entry.time, entry.subject, info.courseCode, info.facultyAbbreviation,
                               info.facultyName, entry.room.GetOr(""), entry.section.GetOr(""));
        var groups := if entry.day in organized then organized[entry.day] else map[];
        var group := if semester in groups then groups[semester] else [];
        organized := organized[entry.day := groups[semester := group + [lecture]]];
        if !HasKey(abbreviations, entry.subject) {
          var facultyDisplay := if info.facultyName != "" then info.facultyName + " (" + info.facultyAbbreviation + ")"
                                else info.facultyAbbreviation;
          abbreviations := abbreviations + [(entry.subject, AbbrevInfo(info.courseCode, facultyDisplay))];
        }
        assert timetableData[..n + 1][..n] == timetableData[..n];
        n := n + 1;
      }
      assert timetableData[..n] == timetableData;
    }

    /** `generate_structured_text`: the title, then each weekday present
        with each listed semester present and its lectures by time, then
        the abbreviation lines by abbreviation, joined by newlines. */
    method GenerateStructuredText() returns (text: string)
      ensures text == StructuredText(Process(timetableData, subjectsData))
    {
      var organized, abbreviations := ProcessData();
      var outputLines := AddDays([Title], organized, DayOrder);
      outputLines := outputLines + [AbbreviationsHeading];
      var sorted := SortedAbbreviations(abbreviations);
      outputLines := AddAbbrevLines(outputLines, sorted);
      text := Join(outputLines, "\n");
    }
  }

  /** The lines one more day of `order` adds after `lines`. */
  lemma DayLinesNext(lines: seq<string>, order: seq<string>, i: nat, organized: Organized)
    requires i < |order|
    ensures var before := lines + DayLines(Sections(order[..i], organized, MakeDay));
      lines + DayLines(Sections(order[..i + 1], organized, MakeDay)) ==
        if order[i] in organized
        then before + [DayHeading(order[i])] + SemesterLines(MakeDay(order[i], organized[order[i]]).semesters)
        else before
  {
    SectionsNext(order, i, organized, MakeDay);
    var done := Sections(order[..i], organized, MakeDay);
    if order[i] in organized {
      var b := MakeDay(order[i], organized[order[i]]);
      DayLinesAppend(done, b);
      assert lines + (DayLines(done) + [DayHeading(b.day)] + SemesterLines(b.semesters))
          == lines + DayLines(done) + [DayHeading(b.day)] + SemesterLines(b.semesters);
    } else {
      assert Sections(order[..i + 1], organized, MakeDay) == done;
    }
  }

  /** The lines one more semester of `order` adds after `lines`. */
  lemma SemesterLinesNext(lines: seq<string>, order: seq<string>, j: nat, groups: Groups)
    requires j < |order|
    ensures var before := lines + SemesterLines(Sections(order[..j], groups, MakeSemester));
      lines + SemesterLines(Sections(order[..j + 1], groups, MakeSemester)) ==
        if order[j] in groups
        then before + [SemesterHeading(order[j])] + LectureLines(MakeSemester(order[j], groups[order[j]]).lectures)
        else before
  {
    SectionsNext(order, j, groups, MakeSemester);
    var done := Sections(order[..j], groups, MakeSemester);
    if order[j] in groups {
      var b := MakeSemester(order[j], groups[order[j]]);
      SemesterLinesAppend(done, b);
      assert lines + (SemesterLines(done) + [SemesterHeading(b.semester)] + LectureLines(b.lectures))
          == lines + SemesterLines(done) + [SemesterHeading(b.semester)] + LectureLines(b.lectures);
    } else {
      assert Sections(order[..j + 1], groups, MakeSemester) == done;
    }
  }

  /** The day loop, over the days of `order`: each day present gets its
      heading and its semesters. */
  method AddDays(lines: seq<string>, organized: Organized, order: seq<string>) returns (r: seq<string>)
    ensures r == lines + DayLines(Sections(order, organized, MakeDay))
  {
    r := lines;
    var i := 0;
    while i < |order|
      invariant i <= |order|
      invariant r == lines + DayLines(Sections(order[..i], organized, MakeDay))
    {
      var day := order[i];
      DayLinesNext(lines, order, i, organized);
      if day in organized {
        r := AddDay(r, day, organized[day]);
      }
      i := i + 1;
    }
    assert order[..i] == order;
  }

  /** The body of the day loop: the day heading, then each listed semester
      present with its lectures by time. */
  method AddDay(lines: seq<string>, day: string, groups: Groups) returns (r: seq<string>)
    ensures r == lines + [DayHeading(day)] + SemesterLines(MakeDay(day, groups).semesters)
  {
    r := AddSemesters(lines + [DayHeading(day)], groups, SemesterOrder);
  }

  /** The semester loop, over the semesters of `order`. */
  method AddSemesters(lines: seq<string>, groups: Groups, order: seq<string>) returns (r: seq<string>)
    ensures r == lines + SemesterLines(Sections(order, groups, MakeSemester))
  {
    r := lines;
    var j := 0;
    while j < |order|
      invariant j <= |order|
      invariant r == lines + SemesterLines(Sections(order[..j], groups, MakeSemester))
    {
      var semester := order[j];
      SemesterLinesNext(lines, order, j, groups);
      if semester in groups {
        r := AddSemester(r, MakeSemester(semester, groups[semester]));
      }
      j := j + 1;
    }
    assert order[..j] == order;
  }

  /** The body of the semester loop: the semester heading, then one line
      per lecture. */
  method AddSemester(lines: seq<string>, b: SemesterBlock) returns (r: seq<string>)
    ensures r == lines + [SemesterHeading(b.semester)] + LectureLines(b.lectures)
  {
    r := lines + [SemesterHeading(b.semester)];
    var k := 0;
    while k < |b.lectures|
      invariant k <= |b.lectures|
      invariant r == lines + [SemesterHeading(b.semester)] + LectureLines(b.lectures[..k])
    {
      r := r + [LectureLine(b.lectures[k])];
      LectureLinesNext(b.lectures, k);
      k := k + 1;
    }
    assert b.lectures[..k] == b.lectures;
  }

  /** The abbreviation loop: one line per abbreviation. */
  method AddAbbrevLines(lines: seq<string>, sorted: Abbreviations) returns (r: seq<string>)
    ensures r == lines + AbbrevLines(sorted)
  {
    r := lines;
    var k := 0;
    while k < |sorted|
      invariant k <= |sorted|
      invariant r == lines + AbbrevLines(sorted[..k])
    {
      r := r + [AbbrevLine(sorted[k])];
      AbbrevLinesNext(sorted, k);
      k := k + 1;
    }
    assert sorted[..k] == sorted;
  }
}
