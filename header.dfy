/** The info rows of a timetable sheet: the semester cell and the
    "Section :- ... CLASSROOM: ..." cell that open each block of a sheet
    (ExcelDataParserJson.py, `extract_section_classroom` and the info-row
    branch of `parse_timetable_sheet`). */
module Header {
  import opened Wrappers
  import opened Text
  import opened Grid

  const SectionMarker: string := "Section :-"
  const ClassroomMarker: string := "CLASSROOM:"
  const SemesterMarker: string := "Semester :-"

  /** The semester label sits in column B of an info row, the section and
      classroom text in column F (both usually inside merged ranges). */
  const SemesterColumn: nat := 1
  const SectionColumn: nat := 5

  /** The header values a scan carries from one info row to the rows below. */
  datatype Context = Context(semester: string, section: string, classroom: string)

  const NoContext := Context("", "", "")

  /** Python's `s[a:b]` for 0 <= a: empty when b < a. */
  function Slice(s: string, a: nat, b: nat): string
    requires a <= |s| && b <= |s|
  {
    if b < a then "" else s[a..b]
  }

  /** `extract_section_classroom` for markers `sm` ("Section :-") and `cm`
      ("CLASSROOM:"): the section is the text between the two markers (or
      everything after `sm` when `cm` is absent) reduced to its ASCII letters
      and digits; the classroom is the first whitespace-delimited word after
      `cm`. */
  function ExtractMarked(text: string, sm: string, cm: string): (r: (string, string))
    ensures forall i :: 0 <= i < |r.0| ==> IsAsciiAlnum(r.0[i])
    ensures NoSpace(r.1)
    ensures var s, c := Find(text, sm), Find(text, cm);
      && (s == -1 ==> r.0 == "")
      && (c == -1 ==> r.1 == "")
      && (s != -1 && c == -1 ==> r.0 == KeepAlnum(text[s + |sm|..]))
      && (s != -1 && c != -1 && s + |sm| <= c ==> r.0 == KeepAlnum(text[s + |sm|..c]))
      && (s != -1 && c != -1 && c < s + |sm| ==> r.0 == "")
      && (c != -1 ==> r.1 == FirstWord(text[c + |cm|..]))
  {
    (KeepAlnum(SectionText(text, Find(text, sm), Find(text, sm) + |sm|, Find(text, cm))),
     FirstWordOf(ClassroomText(text, Find(text, cm), Find(text, cm) + |cm|)))
  }

  /** The stripped section text: from `from` (just past the section marker
      found at `start`) up to `end` (the classroom marker) or to the end of
      the text when `end` is -1; "" when the section marker is missing. */
  function SectionText(text: string, start: int, from: int, end: int): (r: string)
    requires -1 <= start && -1 <= end <= |text| && (start != -1 ==> 0 <= from <= |text|)
    ensures start == -1 ==> r == ""
    ensures start != -1 && end == -1 ==> KeepAlnum(r) == KeepAlnum(text[from..])
    ensures start != -1 && end != -1 && from <= end ==> KeepAlnum(r) == KeepAlnum(text[from..end])
    ensures start != -1 && end != -1 && end < from ==> r == ""
  {
    if start != -1 && end != -1 then
      if end < from then Strip("")
      else KeepAlnumIgnoresStrip(text[from..end]); Strip(text[from..end])
    else if start != -1 then
      KeepAlnumIgnoresStrip(text[from..]); Strip(text[from..])
    else ""
  }

  /** The stripped text after the classroom marker found at `start` (`from`
      is just past it); "" when the marker is missing. */
  function ClassroomText(text: string, start: int, from: int): (r: string)
    requires -1 <= start && (start != -1 ==> 0 <= from <= |text|)
    ensures IsStripped(r)
    ensures start == -1 ==> r == ""
    ensures start != -1 ==> FirstWord(r) == FirstWord(text[from..])
  {
    if start == -1 then "" else
    FirstWordOfStripped(text[from..]);
    Strip(text[from..])
  }

  /** `s.split()[0] if s else ""` for a stripped `s`. */
  function FirstWordOf(s: string): (w: string)
    requires IsStripped(s)
    ensures w == FirstWord(s)
  {
    if s == "" then "" else
    assert !IsSpace(s[0]);
    WordsHead(s);
    Words(s)[0]
  }

  /** The semester label: the cell with every "Semester :-" removed, stripped. */
  function SemesterOf(cell: string): (r: string)
    ensures IsStripped(r)
    ensures (forall j :: !OccursAt(cell, SemesterMarker, j)) ==> r == Strip(cell)
  {
    RemoveAllAbsent(cell, SemesterMarker);
    Strip(RemoveAll(cell, SemesterMarker))
  }

  /** The info-row branch of `parse_timetable_sheet`: the semester from
      column B and the section and classroom from column F, each read
      through the merged ranges. A lookup outside the grid raises. */
  function HeaderContext(sheet: Sheet, row: nat): (r: Result<Context, ParseError>)
    ensures r.Ok? <==> MergedCellValue(sheet, row, SemesterColumn).Some? && MergedCellValue(sheet, row, SectionColumn).Some?
    ensures r.Ok? ==> IsStripped(r.value.semester) && NoSpace(r.value.section) && NoSpace(r.value.classroom)
  {
    var semesterCell :- MergedCellValue(sheet, row, SemesterColumn).ToResult(IndexError);
    var sectionCell :- MergedCellValue(sheet, row, SectionColumn).ToResult(IndexError);
    var (section, classroom) := ExtractMarked(sectionCell, SectionMarker, ClassroomMarker);
    assert NoSpace(section) by {
      forall i | 0 <= i < |section| ensures !IsSpace(section[i]) {
        assert IsAsciiAlnum(section[i]);
      }
    }
    Ok(Context(SemesterOf(semesterCell), section, classroom))
  }
}
