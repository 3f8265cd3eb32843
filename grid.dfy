/** A worksheet as xlrd hands it over: a rectangular grid of cell texts and
    the list of merged ranges, with the merge-aware cell lookup of
    ExcelDataParserJson.py. */
module Grid {
  import opened Wrappers

  /** The one exception the parsers can raise on a sheet: Python's
      IndexError, from reading past the grid or past a list. */
  datatype ParseError = IndexError

  /** A merged range as xlrd reports it: rows [rlo, rhi), columns [clo, chi);
      its top-left cell (rlo, clo) is the anchor that holds the text. */
  datatype Region = Region(rlo: nat, rhi: nat, clo: nat, chi: nat) {
    predicate Covers(r: nat, c: nat) {
      rlo <= r < rhi && clo <= c < chi
    }
  }

  /** Two ranges with no cell in common (Excel never overlaps merges). */
  predicate Disjoint(a: Region, b: Region) {
    a.rhi <= b.rlo || b.rhi <= a.rlo || a.chi <= b.clo || b.chi <= a.clo
  }

  /** `nrows` by `ncols` cells; a blank cell is "". */
  datatype Sheet = Sheet(nrows: nat, ncols: nat, cells: seq<seq<string>>, mergedCells: seq<Region>) {
    /** xlrd pads every row to `ncols`. */
    predicate Valid() {
      |cells| == nrows && forall r :: 0 <= r < |cells| ==> |cells[r]| == ncols
    }
  }

  /** `sheet.cell_value(r, c)`; None stands for the IndexError it raises
      outside the grid. */
  function CellValue(sheet: Sheet, r: nat, c: nat): Option<string> {
    if r < |sheet.cells| && c < |sheet.cells[r]| then Some(sheet.cells[r][c]) else None
  }

  /** The index of the first range in list order that covers (r, c). */
  function FirstCovering(regions: seq<Region>, r: nat, c: nat, from: nat := 0): (i: Option<nat>)
    ensures i.Some? ==> from <= i.value < |regions| && regions[i.value].Covers(r, c)
    ensures i.Some? ==> forall j :: from <= j < i.value ==> !regions[j].Covers(r, c)
    ensures i.None? ==> forall j :: from <= j < |regions| ==> !regions[j].Covers(r, c)
    decreases |regions| - from
  {
    if from >= |regions| then None
    else if regions[from].Covers(r, c) then Some(from)
    else FirstCovering(regions, r, c, from + 1)
  }

  /** `is_merged_cell`: the anchor of the first range covering (r, c), or
      None when no range covers it. */
  function IsMergedCell(regions: seq<Region>, r: nat, c: nat): (m: Option<(nat, nat)>)
    ensures m.None? <==> forall j :: 0 <= j < |regions| ==> !regions[j].Covers(r, c)
    ensures m.Some? ==> exists i :: 0 <= i < |regions| && regions[i].Covers(r, c) &&
                          (forall j :: 0 <= j < i ==> !regions[j].Covers(r, c)) &&
                          m.value == (regions[i].rlo, regions[i].clo)
  {
    match FirstCovering(regions, r, c)
    case None => None
    case Some(i) => Some((regions[i].rlo, regions[i].clo))
  }

  /** `get_merged_cell_value`: the text of the anchor of the first range
      covering (r, c), or the cell's own text when no range covers it. */
  function MergedCellValue(sheet: Sheet, r: nat, c: nat): (v: Option<string>)
    ensures sheet.Valid() && r < sheet.nrows && c < sheet.ncols ==> v.Some?
    ensures (forall j :: 0 <= j < |sheet.mergedCells| ==> !sheet.mergedCells[j].Covers(r, c)) ==>
              v == CellValue(sheet, r, c)
    ensures forall i :: 0 <= i < |sheet.mergedCells| && sheet.mergedCells[i].Covers(r, c) &&
                        (forall j :: 0 <= j < i ==> !sheet.mergedCells[j].Covers(r, c)) ==>
              v == CellValue(sheet, sheet.mergedCells[i].rlo, sheet.mergedCells[i].clo)
  {
    match FirstCovering(sheet.mergedCells, r, c)
    case None => CellValue(sheet, r, c)
    case Some(i) =>
      var g := sheet.mergedCells[i];
      CellValue(sheet, g.rlo, g.clo)
  }

  /** With ranges that do not overlap (as Excel guarantees), every cell of a
      range reads the same text as the range's anchor. */
  lemma MergedCellReadsAnchor(sheet: Sheet, g: nat, r: nat, c: nat)
    requires forall i, j :: 0 <= i < j < |sheet.mergedCells| ==> Disjoint(sheet.mergedCells[i], sheet.mergedCells[j])
    requires g < |sheet.mergedCells| && sheet.mergedCells[g].Covers(r, c)
    ensures MergedCellValue(sheet, r, c) == MergedCellValue(sheet, sheet.mergedCells[g].rlo, sheet.mergedCells[g].clo)
    ensures MergedCellValue(sheet, r, c) == CellValue(sheet, sheet.mergedCells[g].rlo, sheet.mergedCells[g].clo)
  {
    var regions := sheet.mergedCells;
    var a := regions[g];
    var i := FirstCovering(regions, r, c).value;
    if i != g {
      assert false;
    }
    assert a.Covers(a.rlo, a.clo);
    var k := FirstCovering(regions, a.rlo, a.clo).value;
    if k != g {
      assert false;
    }
  }
}
