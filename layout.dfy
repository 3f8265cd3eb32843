/** The order both exporters print the reshaped timetable in: the days
    Monday to Saturday that have lectures, under each the semesters "3",
    "5", "7" and "Other" that have lectures, each group sorted by time,
    then the abbreviation lines sorted by abbreviation
    (JsonToTextFile.py, `generate_structured_text`; JsonToPDFFile.py,
    `generate_html`). */
module Layout {
  import opened Text
  import opened Sorting
  import opened Reshape
  import opened Roster

  const DayOrder: seq<string> := ["Monday", "Tuesday", "Wednesday", "Thursday", "Friday", "Saturday"]
  const SemesterOrder: seq<string> := ["3", "5", "7", OtherSemester]

  /** The keys of `order` that `m` has, in the order of `order`
      (`for key in order: if key in m`). */
  function Kept<V>(order: seq<string>, m: map<string, V>): seq<string> {
    if order == [] then []
    else Kept(order[..|order| - 1], m) + (if order[|order| - 1] in m then [order[|order| - 1]] else [])
  }

  /** One section per kept key, built from the key and its value. */
  function Sections<V, B>(order: seq<string>, m: map<string, V>, make: (string, V) -> B): seq<B> {
    if order == [] then []
    else
      var k := order[|order| - 1];
      Sections(order[..|order| - 1], m, make) + (if k in m then [make(k, m[k])] else [])
  }

  lemma SectionsNext<V, B>(order: seq<string>, i: nat, m: map<string, V>, make: (string, V) -> B)
    requires i < |order|
    ensures Sections(order[..i + 1], m, make)
      == Sections(order[..i], m, make) + (if order[i] in m then [make(order[i], m[order[i]])] else [])
  {
    assert order[..i + 1][..i] == order[..i];
  }

  datatype SemesterBlock = SemesterBlock(semester: string, lectures: seq<Lecture>)
  datatype DayBlock = DayBlock(day: string, semesters: seq<SemesterBlock>)

  function ByTime(l: Lecture): string {
    l.time
  }

  function ByAbbreviation(line: (string, AbbrevInfo)): string {
    line.0
  }

  /** A semester's lectures, sorted by time (`sorted(..., key=lambda x: x["time"])`). */
  function MakeSemester(semester: string, lectures: seq<Lecture>): SemesterBlock {
    SemesterBlock(semester, SortBy(lectures, ByTime))
  }

  function MakeDay(day: string, groups: Groups): DayBlock {
    DayBlock(day, Sections(SemesterOrder, groups, MakeSemester))
  }

  /** What both exporters print, day by day. */
  function Outline(org: Organized): seq<DayBlock> {
    Sections(DayOrder, org, MakeDay)
  }

  /** `sorted(abbreviations.items())`: the keys are distinct, so the items
      are ordered by key alone. */
  function SortedAbbreviations(a: Abbreviations): Abbreviations {
    SortBy(a, ByAbbreviation)
  }

  /** The abbreviation lines come out in strictly ascending key order:
      the table holds each subject once, and `sorted` keeps them apart. */
  lemma SortedAbbreviationsAscend(entries: seq<Entry>, subjects: seq<RosterEntry>)
    ensures var a := SortedAbbreviations(AbbrevTable(entries, subjects));
      forall i, j :: 0 <= i < j < |a| ==> LexLess(a[i].0, a[j].0)
  {
    AbbreviationsDistinct(entries, subjects);
    SortByStrict(AbbrevTable(entries, subjects), ByAbbreviation);
  }

  /** The position of `x` in `order`, or |order| when it is absent. */
  function Rank(order: seq<string>, x: string): nat {
    if order == [] then 0
    else if order[0] == x then 0
    else 1 + Rank(order[1..], x)
  }

  lemma {:induction false} RankPrefix(order: seq<string>, n: nat, x: string)
    requires n <= |order| && x in order[..n]
    ensures Rank(order, x) == Rank(order[..n], x) < n
  {
    if order[0] != x {
      assert order[1..][..n - 1] == order[..n][1..];
      RankPrefix(order[1..], n - 1, x);
    }
  }

  lemma {:induction false} RankOf(order: seq<string>, i: nat)
    requires i < |order|
    requires forall a, b :: 0 <= a < b < |order| ==> order[a] != order[b]
    ensures Rank(order, order[i]) == i
  {
    if i > 0 {
      assert order[0] != order[i];
      RankOf(order[1..], i - 1);
    }
  }

  /** A key is kept exactly when it is in the order and in the map. */
  lemma {:induction false} KeptMembers<V>(order: seq<string>, m: map<string, V>, x: string)
    ensures x in Kept(order, m) <==> x in order && x in m
  {
    if order != [] {
      var n := |order| - 1;
      KeptMembers(order[..n], m, x);
      assert order == order[..n] + [order[n]];
    }
  }

  /** The kept keys follow the order: their ranks strictly increase. */
  lemma {:induction false} KeptOrdered<V>(order: seq<string>, m: map<string, V>)
    requires forall a, b :: 0 <= a < b < |order| ==> order[a] != order[b]
    ensures forall i, j :: 0 <= i < j < |Kept(order, m)| ==> Rank(order, Kept(order, m)[i]) < Rank(order, Kept(order, m)[j])
  {
    if order != [] {
      var n := |order| - 1;
      var prefix := order[..n];
      KeptOrdered(prefix, m);
      var ks0, ks := Kept(prefix, m), Kept(order, m);
      forall i | 0 <= i < |ks0| ensures Rank(order, ks0[i]) == Rank(prefix, ks0[i]) < n {
        KeptMembers(prefix, m, ks0[i]);
        RankPrefix(order, n, ks0[i]);
      }
      RankOf(order, n);
      assert ks == ks0 + (if order[n] in m then [order[n]] else []);
      forall i, j | 0 <= i < j < |ks| ensures Rank(order, ks[i]) < Rank(order, ks[j]) {
        assert ks[i] == ks0[i];
        if j < |ks0| {
          assert ks[j] == ks0[j];
          assert Rank(prefix, ks0[i]) < Rank(prefix, ks0[j]);
        } else {
          assert ks[j] == order[n];
        }
      }
    }
  }

  /** The sections are the kept keys, each made from its value. */
  lemma {:induction false} SectionsShape<V, B>(order: seq<string>, m: map<string, V>, make: (string, V) -> B)
    ensures var ks, ss := Kept(order, m), Sections(order, m, make);
      && |ss| == |ks|
      && forall i :: 0 <= i < |ss| ==> ks[i] in m && ss[i] == make(ks[i], m[ks[i]])
  {
    if order != [] {
      SectionsShape(order[..|order| - 1], m, make);
    }
  }

  lemma DayOrderDistinct()
    ensures forall a, b :: 0 <= a < b < |DayOrder| ==> DayOrder[a] != DayOrder[b]
  {
  }

  lemma SemesterOrderDistinct()
    ensures forall a, b :: 0 <= a < b < |SemesterOrder| ==> SemesterOrder[a] != SemesterOrder[b]
  {
  }

  /** Some printed day section is for day `d`. */
  predicate ShowsDay(bs: seq<DayBlock>, d: string) {
    exists i :: 0 <= i < |bs| && bs[i].day == d
  }

  /** Some printed semester sub-section is for semester `s`. */
  predicate ShowsSemester(ss: seq<SemesterBlock>, s: string) {
    exists a :: 0 <= a < |ss| && ss[a].semester == s
  }

  /** Some record falls on day `d`. */
  predicate FallsOn(entries: seq<Entry>, d: string) {
    exists k :: 0 <= k < |entries| && entries[k].day == d
  }

  /** Some record falls on day `d` and files under semester `s`. */
  predicate FallsUnder(entries: seq<Entry>, d: string, s: string) {
    exists k :: 0 <= k < |entries| && entries[k].day == d && SemesterKey(entries[k]) == s
  }

  /** The printed days are the days of the week, Monday to Saturday, that
      some record falls on, each once and in weekday order; records on any
      other day are left out. */
  lemma OutlineDays(entries: seq<Entry>, subjects: seq<RosterEntry>)
    ensures var bs := Outline(Organize(entries, subjects));
      && (forall i, j :: 0 <= i < j < |bs| ==> Rank(DayOrder, bs[i].day) < Rank(DayOrder, bs[j].day))
      && forall d :: ShowsDay(bs, d) <==> d in DayOrder && FallsOn(entries, d)
  {
    var org := Organize(entries, subjects);
    var bs, ks := Outline(org), Kept(DayOrder, org);
    SectionsShape(DayOrder, org, MakeDay);
    assert forall i :: 0 <= i < |bs| ==> bs[i].day == ks[i];
    DayOrderDistinct();
    KeptOrdered(DayOrder, org);
    forall d ensures ShowsDay(bs, d) <==> d in DayOrder && FallsOn(entries, d) {
      KeptMembers(DayOrder, org, d);
      OrganizeDays(entries, subjects, d);
      if d in ks {
        var i :| 0 <= i < |ks| && ks[i] == d;
        assert bs[i].day == d;
      }
      if ShowsDay(bs, d) {
        var i :| 0 <= i < |bs| && bs[i].day == d;
        assert ks[i] == d;
      }
    }
  }

  /** Under each printed day, the printed semesters are those of "3", "5",
      "7" and "Other" that some record of that day has, each once and in
      that order, and each lists the lectures of exactly those records
      sorted by time (a stable sort of the records' order). */
  lemma OutlineSemesters(entries: seq<Entry>, subjects: seq<RosterEntry>, i: nat)
    requires i < |Outline(Organize(entries, subjects))|
    ensures var b := Outline(Organize(entries, subjects))[i];
      var ss := b.semesters;
      && (forall a, c :: 0 <= a < c < |ss| ==> Rank(SemesterOrder, ss[a].semester) < Rank(SemesterOrder, ss[c].semester))
      && (forall s :: ShowsSemester(ss, s) <==> s in SemesterOrder && FallsUnder(entries, b.day, s))
      && forall a :: 0 <= a < |ss| ==> ss[a].lectures == SortBy(GroupOf(entries, subjects, b.day, ss[a].semester), ByTime)
  {
    var org := Organize(entries, subjects);
    var ks := Kept(DayOrder, org);
    SectionsShape(DayOrder, org, MakeDay);
    var day := ks[i];
    var b := Outline(org)[i];
    assert b == MakeDay(day, org[day]);
    var groups := org[day];
    var ss, sk := b.semesters, Kept(SemesterOrder, groups);
    SectionsShape(SemesterOrder, groups, MakeSemester);
    SemesterOrderDistinct();
    KeptOrdered(SemesterOrder, groups);
    assert forall a :: 0 <= a < |ss| ==> ss[a].semester == sk[a];
    forall s ensures ShowsSemester(ss, s) <==> s in SemesterOrder && FallsUnder(entries, day, s) {
      KeptMembers(SemesterOrder, groups, s);
      OrganizeSemesters(entries, subjects, day, s);
      if s in sk {
        var a :| 0 <= a < |sk| && sk[a] == s;
        assert ss[a].semester == s;
      }
      if ShowsSemester(ss, s) {
        var a :| 0 <= a < |ss| && ss[a].semester == s;
        assert sk[a] == s;
      }
    }
    forall a | 0 <= a < |ss| ensures ss[a].lectures == SortBy(GroupOf(entries, subjects, day, ss[a].semester), ByTime) {
      ProcessGroups(entries, subjects, day, sk[a]);
    }
  }
}
