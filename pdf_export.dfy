/** The HTML/PDF export (JsonToPDFFile.py): the same reshaping as the text
    export, then an HTML document with one section per day, one
    sub-section per semester and one list item per lecture, followed by the
    abbreviation list. The document is modelled as the sequence of its
    structural items; the markup and styling around them are left out. */
module PdfExport {
  import opened Wrappers
  import opened Sorting
  import opened Roster
  import opened Reshape
  import opened Layout

  datatype HtmlItem =
    | DayOpen(day: string)
    | SemesterOpen(semester: string)
    /** A lecture list item; the "Sec X" badge is shown only for a non-empty section. */
    | LectureItem(time: string, subject: string, faculty: string, room: string, badge: Option<string>)
    | SemesterClose
    | DayClose
    | AbbrevOpen
    | AbbrevItem(abbrev: string, fullForm: string, faculty: string)
    | AbbrevClose

  function LectureItemOf(l: Lecture): HtmlItem {
    LectureItem(l.time, l.subject, l.facultyFull, l.room, if l.section != "" then Some(l.section) else None)
  }

  function LectureItems(ls: seq<Lecture>): seq<HtmlItem> {
    if ls == [] then [] else LectureItems(ls[..|ls| - 1]) + [LectureItemOf(ls[|ls| - 1])]
  }

  function SemesterItems(bs: seq<SemesterBlock>): seq<HtmlItem> {
    if bs == [] then [] else
    var b := bs[|bs| - 1];
    SemesterItems(bs[..|bs| - 1]) + [SemesterOpen(b.semester)] + LectureItems(b.lectures) + [SemesterClose]
  }

  function DayItems(bs: seq<DayBlock>): seq<HtmlItem> {
    if bs == [] then [] else
    var b := bs[|bs| - 1];
    DayItems(bs[..|bs| - 1]) + [DayOpen(b.day)] + SemesterItems(b.semesters) + [DayClose]
  }

  function AbbrevItemOf(line: (string, AbbrevInfo)): HtmlItem {
    AbbrevItem(line.0, line.1.fullForm, line.1.faculty)
  }

  function AbbrevItems(a: Abbreviations): seq<HtmlItem> {
    if a == [] then [] else AbbrevItems(a[..|a| - 1]) + [AbbrevItemOf(a[|a| - 1])]
  }

  lemma AbbrevItemsNext(a: Abbreviations, k: nat)
    requires k < |a|
    ensures AbbrevItems(a[..k + 1]) == AbbrevItems(a[..k]) + [AbbrevItemOf(a[k])]
  {
    assert a[..k + 1][..k] == a[..k];
  }

  /** The items of the document `generate_html` builds. */
  function HtmlItems(org: Organized, abbreviations: Abbreviations): seq<HtmlItem> {
    DayItems(Outline(org)) + [AbbrevOpen] + AbbrevItems(SortedAbbreviations(abbreviations)) + [AbbrevClose]
  }

  /** Where a reader of the document is: at the top level, inside a day
      section, inside a semester sub-section, or inside the abbreviation list. */
  datatype Place = Top | InDay | InSemester | InAbbrev

  /** The place after `item`, or None when the item may not appear at `p`. */
  function Move(p: Place, item: HtmlItem): Option<Place> {
    match item
    case DayOpen(_) => if p == Top then Some(InDay) else None
    case SemesterOpen(_) => if p == InDay then Some(InSemester) else None
    case LectureItem(_, _, _, _, _) => if p == InSemester then Some(InSemester) else None
    case SemesterClose => if p == InSemester then Some(InDay) else None
    case DayClose => if p == InDay then Some(Top) else None
    case AbbrevOpen => if p == Top then Some(InAbbrev) else None
    case AbbrevItem(_, _, _) => if p == InAbbrev then Some(InAbbrev) else None
    case AbbrevClose => if p == InAbbrev then Some(Top) else None
  }

  /** Reads `items` from place `p`: the final place, or None at the first
      item that is out of place. */
  function Nest(items: seq<HtmlItem>, p: Place): Option<Place> {
    if items == [] then Some(p)
    else match Nest(items[..|items| - 1], p)
      case None => None
      case Some(q) => Move(q, items[|items| - 1])
  }

  lemma {:induction false} NestAppend(a: seq<HtmlItem>, b: seq<HtmlItem>, p: Place)
    ensures Nest(a + b, p) == (match Nest(a, p) case None => None case Some(q) => Nest(b, q))
    decreases |b|
  {
    if b != [] {
      assert (a + b)[..|a + b| - 1] == a + b[..|b| - 1];
      NestAppend(a, b[..|b| - 1], p);
    } else {
      assert a + b == a;
    }
  }

  lemma {:induction false} LectureItemsNest(ls: seq<Lecture>)
    ensures Nest(LectureItems(ls), InSemester) == Some(InSemester)
  {
    if ls != [] {
      LectureItemsNest(ls[..|ls| - 1]);
      NestAppend(LectureItems(ls[..|ls| - 1]), [LectureItemOf(ls[|ls| - 1])], InSemester);
    }
  }

  lemma {:induction false} SemesterItemsNest(bs: seq<SemesterBlock>)
    ensures Nest(SemesterItems(bs), InDay) == Some(InDay)
  {
    if bs != [] {
      var b := bs[|bs| - 1];
      var before := SemesterItems(bs[..|bs| - 1]);
      SemesterItemsNest(bs[..|bs| - 1]);
      LectureItemsNest(b.lectures);
      NestAppend(before, [SemesterOpen(b.semester)], InDay);
      NestAppend(before + [SemesterOpen(b.semester)], LectureItems(b.lectures), InDay);
      NestAppend(before + [SemesterOpen(b.semester)] + LectureItems(b.lectures), [SemesterClose], InDay);
    }
  }

  lemma {:induction false} DayItemsNest(bs: seq<DayBlock>)
    ensures Nest(DayItems(bs), Top) == Some(Top)
  {
    if bs != [] {
      var b := bs[|bs| - 1];
      var before := DayItems(bs[..|bs| - 1]);
      DayItemsNest(bs[..|bs| - 1]);
      SemesterItemsNest(b.semesters);
      NestAppend(before, [DayOpen(b.day)], Top);
      NestAppend(before + [DayOpen(b.day)], SemesterItems(b.semesters), Top);
      NestAppend(before + [DayOpen(b.day)] + SemesterItems(b.semesters), [DayClose], Top);
    }
  }

  lemma {:induction false} AbbrevItemsNest(a: Abbreviations)
    ensures Nest(AbbrevItems(a), InAbbrev) == Some(InAbbrev)
  {
    if a != [] {
      var last := a[|a| - 1];
      AbbrevItemsNest(a[..|a| - 1]);
      NestAppend(AbbrevItems(a[..|a| - 1]), [AbbrevItemOf(last)], InAbbrev);
    }
  }

  /** The generated document is well nested: every semester sub-section sits
      inside a day section, every lecture inside a semester sub-section,
      every abbreviation inside the abbreviation list, and every section
      that is opened is closed. */
  lemma HtmlWellNested(org: Organized, abbreviations: Abbreviations)
    ensures Nest(HtmlItems(org, abbreviations), Top) == Some(Top)
  {
    var days := DayItems(Outline(org));
    var abbrevs := AbbrevItems(SortedAbbreviations(abbreviations));
    DayItemsNest(Outline(org));
    AbbrevItemsNest(SortedAbbreviations(abbreviations));
    NestAppend(days, [AbbrevOpen], Top);
    NestAppend(days + [AbbrevOpen], abbrevs, Top);
    NestAppend(days + [AbbrevOpen] + abbrevs, [AbbrevClose], Top);
  }

  /** `organize_by_semester_day`: the same pass as the text export's
      `process_data`, over the documents passed in. */
  method OrganizeBySemesterDay(timetableData: seq<Entry>, subjectsData: seq<RosterEntry>)
    returns (organized: Organized, abbreviations: Abbreviations)
    ensures organized == Organize(timetableData, subjectsData)
    ensures abbreviations == AbbrevTable(timetableData, subjectsData)
  {
    organized, abbreviations := map[], [];
    var n := 0;
    while n < |timetableData|
      invariant n <= |timetableData|
      invariant organized == Organize(timetableData[..n], subjectsData)
      invariant abbreviations == AbbrevTable(timetableData[..n], subjectsData)
    {
      var entry := timetableData[n];
      var semester := entry.semester.GetOr(OtherSemester);
      var info := InfoFor(subjectsData, entry);
      var organizedEntry := Lecture(entry.time, entry.subject, info.courseCode, info.facultyAbbreviation,
                                    info.facultyName, entry.room.GetOr(""), entry.section.GetOr(""));
      var groups := if entry.day in organized then organized[entry.day] else map[];
      var group := if semester in groups then groups[semester] else [];
      organized := organized[entry.day := groups[semester := group + [organizedEntry]]];
      if !HasKey(abbreviations, entry.subject) {
        var facultyDisplay := if info.facultyName != "" then info.facultyName + " (" + info.facultyAbbreviation + ")"
                              else info.facultyAbbreviation;
        abbreviations := abbreviations + [(entry.subject, AbbrevInfo(info.courseCode, facultyDisplay))];
      }
      assert timetableData[..n + 1][..n] == timetableData[..n];
      n := n + 1;
    }
    assert timetableData[..n] == timetableData;
  }

  lemma SemesterItemsAppend(bs: seq<SemesterBlock>, b: SemesterBlock)
    ensures SemesterItems(bs + [b]) == SemesterItems(bs) + [SemesterOpen(b.semester)] + LectureItems(b.lectures) + [SemesterClose]
  {
    assert (bs + [b])[..|bs|] == bs;
  }

  lemma DayItemsAppend(bs: seq<DayBlock>, b: DayBlock)
    ensures DayItems(bs + [b]) == DayItems(bs) + [DayOpen(b.day)] + SemesterItems(b.semesters) + [DayClose]
  {
    assert (bs + [b])[..|bs|] == bs;
  }

  /** The items one more day of `order` adds after `items`. */
  lemma DayItemsNext(items: seq<HtmlItem>, order: seq<string>, i: nat, organized: Organized)
    requires i < |order|
    ensures var before := items + DayItems(Sections(order[..i], organized, MakeDay));
      items + DayItems(Sections(order[..i + 1], organized, MakeDay)) ==
        if order[i] in organized
        then before + [DayOpen(order[i])] + SemesterItems(MakeDay(order[i], organized[order[i]]).semesters) + [DayClose]
        else before
  {
    SectionsNext(order, i, organized, MakeDay);
    var done := Sections(order[..i], organized, MakeDay);
    if order[i] in organized {
      var b := MakeDay(order[i], organized[order[i]]);
      DayItemsAppend(done, b);
      assert items + (DayItems(done) + [DayOpen(b.day)] + SemesterItems(b.semesters) + [DayClose])
          == items + DayItems(done) + [DayOpen(b.day)] + SemesterItems(b.semesters) + [DayClose];
    } else {
      assert Sections(order[..i + 1], organized, MakeDay) == done;
    }
  }

  /** The items one more semester of `order` adds after `items`. */
  lemma SemesterItemsNext(items: seq<HtmlItem>, order: seq<string>, j: nat, groups: Groups)
    requires j < |order|
    ensures var before := items + SemesterItems(Sections(order[..j], groups, MakeSemester));
      items + SemesterItems(Sections(order[..j + 1], groups, MakeSemester)) ==
        if order[j] in groups
        then before + [SemesterOpen(order[j])] + LectureItems(MakeSemester(order[j], groups[order[j]]).lectures) + [SemesterClose]
        else before
  {
    SectionsNext(order, j, groups, MakeSemester);
    var done := Sections(order[..j], groups, MakeSemester);
    if order[j] in groups {
      var b := MakeSemester(order[j], groups[order[j]]);
      SemesterItemsAppend(done, b);
      assert items + (SemesterItems(done) + [SemesterOpen(b.semester)] + LectureItems(b.lectures) + [SemesterClose])
          == items + SemesterItems(done) + [SemesterOpen(b.semester)] + LectureItems(b.lectures) + [SemesterClose];
    } else {
      assert Sections(order[..j + 1], groups, MakeSemester) == done;
    }
  }

  /** `generate_html`: each weekday present, each listed semester present
      under it with its lectures by time, then the abbreviations by key. */
  method GenerateHtml(organized: Organized, abbreviations: Abbreviations) returns (html: seq<HtmlItem>)
    ensures html == HtmlItems(organized, abbreviations)
  {
    html := AddDaySections([], organized, DayOrder);
    html := html + [AbbrevOpen];
    var sorted := SortedAbbreviations(abbreviations);
    html := AddAbbrevItems(html, sorted);
    html := html + [AbbrevClose];
  }

  /** The day loop, over the days of `order`. */
  method AddDaySections(items: seq<HtmlItem>, organized: Organized, order: seq<string>) returns (r: seq<HtmlItem>)
    ensures r == items + DayItems(Sections(order, organized, MakeDay))
  {
    r := items;
    var i := 0;
    while i < |order|
      invariant i <= |order|
      invariant r == items + DayItems(Sections(order[..i], organized, MakeDay))
    {
      var day := order[i];
      DayItemsNext(items, order, i, organized);
      if day in organized {
        r := AddDaySection(r, day, organized[day]);
      }
      i := i + 1;
    }
    assert order[..i] == order;
  }

  /** The body of the day loop: a day section holding each listed semester
      present. */
  method AddDaySection(items: seq<HtmlItem>, day: string, groups: Groups) returns (r: seq<HtmlItem>)
    ensures r == items + [DayOpen(day)] + SemesterItems(MakeDay(day, groups).semesters) + [DayClose]
  {
    r := AddSemesterSections(items + [DayOpen(day)], groups, SemesterOrder);
    r := r + [DayClose];
  }

  /** The semester loop, over the semesters of `order`. */
  method AddSemesterSections(items: seq<HtmlItem>, groups: Groups, order: seq<string>) returns (r: seq<HtmlItem>)
    ensures r == items + SemesterItems(Sections(order, groups, MakeSemester))
  {
    r := items;
    var j := 0;
    while j < |order|
      invariant j <= |order|
      invariant r == items + SemesterItems(Sections(order[..j], groups, MakeSemester))
    {
      var semester := order[j];
      SemesterItemsNext(items, order, j, groups);
      if semester in groups {
        r := AddSemesterSection(r, MakeSemester(semester, groups[semester]));
      }
      j := j + 1;
    }
    assert order[..j] == order;
  }

  /** The body of the semester loop: a sub-section listing the lectures. */
  method AddSemesterSection(items: seq<HtmlItem>, b: SemesterBlock) returns (r: seq<HtmlItem>)
    ensures r == items + [SemesterOpen(b.semester)] + LectureItems(b.lectures) + [SemesterClose]
  {
    r := items + [SemesterOpen(b.semester)];
    var k := 0;
    while k < |b.lectures|
      invariant k <= |b.lectures|
      invariant r == items + [SemesterOpen(b.semester)] + LectureItems(b.lectures[..k])
    {
      var entry := b.lectures[k];
      var sectionDisplay := if entry.section != "" then Some(entry.section) else None;
      r := r + [LectureItem(entry.time, entry.subject, entry.facultyFull, entry.room, sectionDisplay)];
      assert b.lectures[..k + 1][..k] == b.lectures[..k];
      k := k + 1;
    }
    assert b.lectures[..k] == b.lectures;
    r := r + [SemesterClose];
  }

  /** The abbreviation loop: one list item per abbreviation. */
  method AddAbbrevItems(items: seq<HtmlItem>, sorted: Abbreviations) returns (r: seq<HtmlItem>)
    ensures r == items + AbbrevItems(sorted)
  {
    r := items;
    var k := 0;
    while k < |sorted|
      invariant k <= |sorted|
      invariant r == items + AbbrevItems(sorted[..k])
    {
      var (abbrev, details) := sorted[k];
      r := r + [AbbrevItem(abbrev, details.fullForm, details.faculty)];
      AbbrevItemsNext(sorted, k);
      k := k + 1;
    }
    assert sorted[..k] == sorted;
  }
}
