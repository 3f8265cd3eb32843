/** Reshaping the parsed timetable for the exporters: every record becomes a
    lecture filed under its day and semester, and every subject gets one
    abbreviation line (JsonToTextFile.py, `process_data`; JsonToPDFFile.py,
    `organize_by_semester_day`, which has the same body). */
module Reshape {
  import opened Wrappers
  import opened Roster
  import Sessions

  /** One record of the timetable JSON. The exporters index `day`, `time`
      and `subject` directly and read the other keys with a default, so
      only those three are required here. */
  datatype Entry = Entry(
    day: string, time: string, subject: string,
    semester: Option<string>, faculty: Option<string>, room: Option<string>, section: Option<string>)

  /** The record the workbook parser writes for a session: every key present. */
  function EntryOf(s: Sessions.Session): Entry {
    Entry(s.day, s.time, s.subject, Some(s.semester), Some(s.faculty), Some(s.room), Some(s.section))
  }

  const OtherSemester: string := "Other"

  /** The semester a record is filed under: "Other" only when the key is absent. */
  function SemesterKey(e: Entry): string {
    e.semester.GetOr(OtherSemester)
  }

  /** What the exporters take from the subject roster for one record. */
  datatype SubjectInfo = SubjectInfo(courseCode: string, facultyName: string, facultyAbbreviation: string)

  /** One lecture as filed under a day and a semester. */
  datatype Lecture = Lecture(
    time: string, subject: string, subjectFull: string, faculty: string,
    facultyFull: string, room: string, section: string)

  /** One line of the abbreviation table. */
  datatype AbbrevInfo = AbbrevInfo(fullForm: string, faculty: string)

  /** The index of the first roster entry whose abbreviation is `abbr`
      (the `next(...)` over the roster). */
  function FirstMatch(subjects: seq<RosterEntry>, abbr: string): (r: Option<nat>)
    ensures r.Some? ==> r.value < |subjects| && subjects[r.value].subjectAbbreviation == abbr
    ensures r.Some? ==> forall j :: 0 <= j < r.value ==> subjects[j].subjectAbbreviation != abbr
    ensures r.None? <==> forall j :: 0 <= j < |subjects| ==> subjects[j].subjectAbbreviation != abbr
  {
    if subjects == [] then None
    else if subjects[0].subjectAbbreviation == abbr then Some(0)
    else match FirstMatch(subjects[1..], abbr)
      case None => None
      case Some(i) => Some(i + 1)
  }

  /** The roster's course code and faculty for a record; a subject missing
      from the roster falls back to its own abbreviation and the record's
      faculty (or "" when the record has none). */
  function InfoFor(subjects: seq<RosterEntry>, e: Entry): SubjectInfo {
    match FirstMatch(subjects, e.subject)
    case Some(i) => SubjectInfo(subjects[i].courseCode, subjects[i].facultyName, subjects[i].facultyAbbreviation)
    case None => SubjectInfo(e.subject, e.faculty.GetOr(""), e.faculty.GetOr(""))
  }

  function LectureOf(subjects: seq<RosterEntry>, e: Entry): Lecture {
    var info := InfoFor(subjects, e);
    Lecture(e.time, e.subject, info.courseCode, info.facultyAbbreviation,
            info.facultyName, e.room.GetOr(""), e.section.GetOr(""))
  }

  /** "name (abbr)", or the bare abbreviation when the name is empty. */
  function FacultyDisplay(info: SubjectInfo): string {
    if info.facultyName != "" then info.facultyName + " (" + info.facultyAbbreviation + ")"
    else info.facultyAbbreviation
  }

  function AbbrevOf(subjects: seq<RosterEntry>, e: Entry): AbbrevInfo {
    var info := InfoFor(subjects, e);
    AbbrevInfo(info.courseCode, FacultyDisplay(info))
  }

  /** day -> semester -> lectures, each list in arrival order. */
  type Groups = map<string, seq<Lecture>>
  type Organized = map<string, Groups>

  /** The abbreviation dictionary as its items in insertion order. */
  type Abbreviations = seq<(string, AbbrevInfo)>

  datatype Processed = Processed(organized: Organized, abbreviations: Abbreviations)

  /** The group for `day` and `semester`, empty when either key is absent. */
  function Lookup(org: Organized, day: string, semester: string): seq<Lecture> {
    if day in org && semester in org[day] then org[day][semester] else []
  }

  /** `organized[day][semester].append(l)` on the nested default dictionaries. */
  function File(org: Organized, day: string, semester: string, l: Lecture): Organized {
    var groups := if day in org then org[day] else map[];
    org[day := groups[semester := Lookup(org, day, semester) + [l]]]
  }

  predicate HasKey(abbrevs: Abbreviations, k: string) {
    exists i | 0 <= i < |abbrevs| :: abbrevs[i].0 == k
  }

  /** The abbreviation line of a record whose subject has none yet. */
  function AddAbbrev(subjects: seq<RosterEntry>, a: Abbreviations, e: Entry): Abbreviations {
    if HasKey(a, e.subject) then a else a + [(e.subject, AbbrevOf(subjects, e))]
  }

  /** The grouping half of `process_data` over the records in order. */
  function Organize(entries: seq<Entry>, subjects: seq<RosterEntry>): Organized {
    if entries == [] then map[]
    else var e := entries[|entries| - 1];
      File(Organize(entries[..|entries| - 1], subjects), e.day, SemesterKey(e), LectureOf(subjects, e))
  }

  /** The abbreviation half of `process_data` over the records in order. */
  function AbbrevTable(entries: seq<Entry>, subjects: seq<RosterEntry>): Abbreviations {
    if entries == [] then []
    else AddAbbrev(subjects, AbbrevTable(entries[..|entries| - 1], subjects), entries[|entries| - 1])
  }

  /** `process_data`: both results of one pass over the records. */
  function Process(entries: seq<Entry>, subjects: seq<RosterEntry>): Processed {
    Processed(Organize(entries, subjects), AbbrevTable(entries, subjects))
  }

  /** The reference grouping: the lectures of the records with this day and
      semester, in record order. */
  function GroupOf(entries: seq<Entry>, subjects: seq<RosterEntry>, day: string, semester: string): seq<Lecture> {
    if entries == [] then [] else
    var e := entries[|entries| - 1];
    GroupOf(entries[..|entries| - 1], subjects, day, semester)
      + (if e.day == day && SemesterKey(e) == semester then [LectureOf(subjects, e)] else [])
  }

  /** Every group holds exactly the records filed under it, in order. */
  lemma {:induction false} ProcessGroups(entries: seq<Entry>, subjects: seq<RosterEntry>, day: string, semester: string)
    ensures Lookup(Organize(entries, subjects), day, semester) == GroupOf(entries, subjects, day, semester)
  {
    if entries != [] {
      ProcessGroups(entries[..|entries| - 1], subjects, day, semester);
    }
  }

  /** A day is a key exactly when some record falls on it. */
  lemma {:induction false} OrganizeDays(entries: seq<Entry>, subjects: seq<RosterEntry>, day: string)
    ensures day in Organize(entries, subjects) <==> exists i :: 0 <= i < |entries| && entries[i].day == day
  {
    if entries != [] {
      var prefix, e := entries[..|entries| - 1], entries[|entries| - 1];
      OrganizeDays(prefix, subjects, day);
      var org0 := Organize(prefix, subjects);
      assert Organize(entries, subjects) == File(org0, e.day, SemesterKey(e), LectureOf(subjects, e));
      if exists i :: 0 <= i < |entries| && entries[i].day == day {
        var i :| 0 <= i < |entries| && entries[i].day == day;
        if i < |prefix| {
          assert prefix[i] == entries[i];
        }
      }
      if day in org0 {
        var i :| 0 <= i < |prefix| && prefix[i].day == day;
        assert entries[i].day == day;
      }
    }
  }

  /** A semester is a key under a day exactly when some record has both. */
  lemma {:induction false} OrganizeSemesters(entries: seq<Entry>, subjects: seq<RosterEntry>, day: string, semester: string)
    requires day in Organize(entries, subjects)
    ensures semester in Organize(entries, subjects)[day] <==>
      exists i :: 0 <= i < |entries| && entries[i].day == day && SemesterKey(entries[i]) == semester
  {
    var prefix, e := entries[..|entries| - 1], entries[|entries| - 1];
    var org0 := Organize(prefix, subjects);
    assert Organize(entries, subjects) == File(org0, e.day, SemesterKey(e), LectureOf(subjects, e));
    if day in org0 {
      OrganizeSemesters(prefix, subjects, day, semester);
      if semester in org0[day] {
        var i :| 0 <= i < |prefix| && prefix[i].day == day && SemesterKey(prefix[i]) == semester;
        assert entries[i] == prefix[i];
      }
    } else {
      OrganizeDays(prefix, subjects, day);
    }
    if exists i :: 0 <= i < |entries| && entries[i].day == day && SemesterKey(entries[i]) == semester {
      var i :| 0 <= i < |entries| && entries[i].day == day && SemesterKey(entries[i]) == semester;
      if i < |prefix| {
        assert prefix[i] == entries[i];
        OrganizeDays(prefix, subjects, day);
      }
    }
  }

  /** No key is stored twice. */
  ghost predicate DistinctKeys(abbrevs: Abbreviations) {
    forall i, j :: 0 <= i < j < |abbrevs| ==> abbrevs[i].0 != abbrevs[j].0
  }

  /** `i` is the first record whose subject is `k`. */
  ghost predicate FirstWith(entries: seq<Entry>, k: string, i: nat) {
    i < |entries| && entries[i].subject == k && forall m :: 0 <= m < i ==> entries[m].subject != k
  }

  /** The abbreviation table never stores a subject twice. */
  lemma {:induction false} AbbreviationsDistinct(entries: seq<Entry>, subjects: seq<RosterEntry>)
    ensures DistinctKeys(AbbrevTable(entries, subjects))
  {
    if entries != [] {
      AbbreviationsDistinct(entries[..|entries| - 1], subjects);
    }
  }

  /** A subject has an abbreviation line exactly when some record names it. */
  lemma {:induction false} AbbreviationKeys(entries: seq<Entry>, subjects: seq<RosterEntry>, k: string)
    ensures HasKey(AbbrevTable(entries, subjects), k) <==> exists i :: 0 <= i < |entries| && entries[i].subject == k
  {
    if entries != [] {
      var prefix, e := entries[..|entries| - 1], entries[|entries| - 1];
      AbbreviationKeys(prefix, subjects, k);
      var a0 := AbbrevTable(prefix, subjects);
      var a := AbbrevTable(entries, subjects);
      assert a == AddAbbrev(subjects, a0, e);
      if exists i :: 0 <= i < |entries| && entries[i].subject == k {
        var i :| 0 <= i < |entries| && entries[i].subject == k;
        if i < |prefix| {
          assert prefix[i] == entries[i];
          var j :| 0 <= j < |a0| && a0[j].0 == k;
          assert a[j] == a0[j];
        } else if !HasKey(a0, e.subject) {
          assert a[|a0|].0 == k;
        }
      }
      if HasKey(a, k) {
        var j :| 0 <= j < |a| && a[j].0 == k;
        if j < |a0| {
          assert a[j] == a0[j];
          var i :| 0 <= i < |prefix| && prefix[i].subject == k;
          assert entries[i].subject == k;
        } else {
          assert a == a0 + [(e.subject, AbbrevOf(subjects, e))];
          assert entries[|prefix|].subject == k;
        }
      }
    }
  }

  /** `line` is the abbreviation line of the first record of its subject. */
  ghost predicate FromFirst(entries: seq<Entry>, subjects: seq<RosterEntry>, line: (string, AbbrevInfo)) {
    exists i: nat :: FirstWith(entries, line.0, i) && line.1 == AbbrevOf(subjects, entries[i])
  }

  lemma FromFirstExtends(entries: seq<Entry>, subjects: seq<RosterEntry>, line: (string, AbbrevInfo))
    requires entries != [] && FromFirst(entries[..|entries| - 1], subjects, line)
    ensures FromFirst(entries, subjects, line)
  {
    var prefix := entries[..|entries| - 1];
    var i: nat :| FirstWith(prefix, line.0, i) && line.1 == AbbrevOf(subjects, prefix[i]);
    assert prefix[i] == entries[i];
    assert FirstWith(entries, line.0, i);
  }

  /** Each abbreviation line is built from the first record of its subject:
      later records never overwrite it. */
  lemma {:induction false} AbbreviationsFromFirst(entries: seq<Entry>, subjects: seq<RosterEntry>)
    ensures forall j :: 0 <= j < |AbbrevTable(entries, subjects)| ==> FromFirst(entries, subjects, AbbrevTable(entries, subjects)[j])
  {
    if entries != [] {
      var prefix, e := entries[..|entries| - 1], entries[|entries| - 1];
      AbbreviationsFromFirst(prefix, subjects);
      var a0 := AbbrevTable(prefix, subjects);
      var a := AbbrevTable(entries, subjects);
      assert a == AddAbbrev(subjects, a0, e);
      forall j | 0 <= j < |a| ensures FromFirst(entries, subjects, a[j]) {
        if j < |a0| {
          assert a[j] == a0[j];
          FromFirstExtends(entries, subjects, a0[j]);
        } else {
          AbbreviationKeys(prefix, subjects, e.subject);
          assert FirstWith(entries, e.subject, |prefix|) by {
            forall m | 0 <= m < |prefix| ensures entries[m].subject != e.subject {
              assert prefix[m] == entries[m];
            }
          }
          assert a[j] == (e.subject, AbbrevOf(subjects, e));
        }
      }
    }
  }
}
