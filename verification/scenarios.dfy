/**
 * Concrete rows checked against expected output lines of
 * test/terminal_table_test.rb, with one display column per character.
 */
module Scenarios {
  import opened CoreExt
  import opened Cells
  import opened Rows

  /** One display column per character. */
  function CharCount(s: string): nat
  {
    |s|
  }

  /** The test's two-line value splits into its two lines. */
  lemma LinesOfTwoDouble()
    ensures LinesOf("Two\nDouble") == ["Two", "Double"]
  {
    assert JoinWith(["Two", "Double"], "\n") == "Two\nDouble";
    FieldsJoin(["Two", "Double"], '\n');
  }

  /** A non-empty value without line breaks is a single line. */
  lemma LinesOfSingle(t: string)
    requires t != "" && '\n' !in t
    ensures LinesOf(t) == [t]
  {
    assert JoinWith([t], "\n") == t;
    FieldsJoin([t], '\n');
  }

  /** The default style pads one space on either side. */
  lemma DefaultPadded(c: Cell, line: int)
    requires c.table.style == DefaultStyle
    ensures c.Padded(line) == " " + c.LineText(line) + " "
  {
    assert Repeat(' ', 1) == " " by { RepeatUnique(" ", ' '); }
  }

  /** The padded line `t` placed in a slot `w` wide by `a`. */
  function Slot(a: Alignment, t: string, w: int): string
    requires w >= |t|
  {
    Repeat(' ', LeftRun(a, w - |t|)) + " " + t + " " + Repeat(' ', w - |t| - LeftRun(a, w - |t|))
  }

  lemma PlacedInSlot(r: string, p: string, t: string, a: Alignment, w: int, k: nat)
    requires p == " " + t + " " && w >= |t| && |r| == w + 2
    requires k == LeftRun(a, |r| - |p|) && Placed(r, p, k)
    ensures r == Slot(a, t, w)
  {
    assert |r| - |p| == w - |t|;
    assert k == LeftRun(a, w - |t|);
  }

  /**
   * A line without colour sequences, in the default style, renders as the
   * padded line placed in its slot by the cell's alignment.
   */
  lemma RenderedInSlot(c: Cell, line: int, t: string, w: int)
    requires c.table.style == DefaultStyle && c.table.cellPadding == 2
    requires c.LineText(line) == t && Esc !in t
    requires c.Width() == w && w >= |t|
    ensures c.Render(line, CharCount) == Slot(c.ResolvedAlignment(), t, w)
  {
    DefaultPadded(c, line);
    assert CharCount(Escape(t)) == |t|;
    assert c.Target(line, CharCount) == w + 2;
    var r := c.Render(line, CharCount);
    var k := RenderPlaced(c, line, CharCount, r);
    PlacedInSlot(r, c.Padded(line), t, c.ResolvedAlignment(), w, k);
  }

  /** The slots of the multiline test, spelled out. */
  lemma MultilineSlots()
    ensures Slot(Left, "Two", 6) == " Two    "
    ensures Slot(Left, "Double", 6) == " Double "
    ensures Slot(Left, "2", 1) == " 2 "
  {
    LeftSlot("Two", 6, "   ");
    LeftSlot("Double", 6, "");
    LeftSlot("2", 1, "");
  }

  /** The slots of the alignment test's first row, spelled out. */
  lemma RightAlignedSlots()
    ensures Slot(Left, "Three", 5) == " Three "
    ensures Slot(Right, "3", 6) == "      3 "
  {
    LeftSlot("Three", 5, "");
    RightSlotOfOne("3", 6);
  }

  lemma RightSlotOfOne(t: string, w: int)
    requires |t| == 1 && w == 6
    ensures Slot(Right, t, w) == "      " + t + " "
  {
    var before := "     ";
    assert AllChar(before, ' ');
    RightSlot(t, w, before);
    assert before + " " == "      ";
  }

  /** The slots of the alignment test's second row, spelled out. */
  lemma CentredSlots()
    ensures Slot(Left, "Four", 5) == " Four  "
    ensures Slot(Center, "4.01", 6) == "  4.01  "
  {
    LeftSlot("Four", 5, " ");
    CentreSlot("4.01", 6, " ", " ");
  }

  lemma LeftSlot(t: string, w: int, after: string)
    requires w >= |t| && |after| == w - |t| && AllChar(after, ' ')
    ensures Slot(Left, t, w) == " " + t + " " + after
  {
    RepeatUnique(after, ' ');
  }

  lemma RightSlot(t: string, w: int, before: string)
    requires w >= |t| && |before| == w - |t| && AllChar(before, ' ')
    ensures Slot(Right, t, w) == before + " " + t + " "
  {
    RepeatUnique(before, ' ');
  }

  lemma CentreSlot(t: string, w: int, before: string, after: string)
    requires w >= |t| && |before| == w - |t| - Half(w - |t|) && |before| + |after| == w - |t|
    requires AllChar(before, ' ') && AllChar(after, ' ')
    ensures Slot(Center, t, w) == before + " " + t + " " + after
  {
    RepeatUnique(before, ' ');
    RepeatUnique(after, ' ');
  }

  /** A cell of one plain line `t` renders as its slot. */
  lemma SingleLineCell(c: Cell, t: string, w: int)
    requires c.value == t && t != "" && '\n' !in t && Esc !in t
    requires c.colspan == 1 && c.table.columnWidth(c.index) == w && w >= |t|
    requires c.table.style == DefaultStyle && c.table.cellPadding == 2
    ensures |c.Lines()| == 1
    ensures c.Render(0, CharCount) == Slot(c.ResolvedAlignment(), t, w)
  {
    LinesOfSingle(t);
    assert At(c.Lines(), 0) == Some(t);
    RenderedInSlot(c, 0, t, w);
  }

  /** The first cell of the multiline test: two lines in a column 6 wide. */
  lemma TwoDoubleCell(c: Cell)
    requires c.value == "Two\nDouble" && c.alignmentOverride == None && c.colspan == 1
    requires c.table.style == DefaultStyle && c.table.cellPadding == 2 && c.table.columnWidth(c.index) == 6
    ensures |c.Lines()| == 2
    ensures c.Render(0, CharCount) == " Two    "
    ensures c.Render(1, CharCount) == " Double "
  {
    LinesOfTwoDouble();
    assert At(c.Lines(), 0) == Some("Two");
    assert At(c.Lines(), 1) == Some("Double");
    assert Esc !in "Two" && Esc !in "Double";
    assert c.ResolvedAlignment() == Left;
    RenderedInSlot(c, 0, "Two", 6);
    RenderedInSlot(c, 1, "Double", 6);
    MultilineSlots();
  }

  /** A row of two cells: a border, the first cell, a border, the second, a border. */
  lemma TwoCellLine(row: Row, line: int, a: string, b: string)
    requires row.Valid() && |row.cells| == 2 && row.table.style == DefaultStyle
    requires row.cells[0].Render(line, CharCount) == a && row.cells[1].Render(line, CharCount) == b
    ensures row.RenderLine(line, CharCount) == "|" + (a + "|" + b) + "|"
  {
    var renders := CellRenders(row.cells, row.table, line, CharCount);
    assert renders == [a, b];
    assert row.RenderLine(line, CharCount) == "|" + JoinWith(renders, "|") + "|";
    JoinOfTwo(a, b, "|");
    assert JoinWith(renders, "|") == a + "|" + b;
  }

  lemma JoinOfTwo(a: string, b: string, sep: string)
    ensures JoinWith([a, b], sep) == a + sep + b
  {
    assert [a, b][1..] == [b];
  }

  lemma ThreeBlanks()
    ensures Repeat(' ', 3) == "   "
  {
    RepeatUnique("   ", ' ');
  }

  /** In a valid row the first cell starts at column 0 and the second where the first ends. */
  lemma FirstTwoIndices(row: Row)
    requires row.Valid() && |row.cells| >= 2
    ensures row.cells[0].index == 0 && row.cells[1].index == row.cells[0].colspan
  {
    assert row.cells[..1] == [row.cells[0]];
  }

  /** A row two lines high renders as its two lines joined by a line break. */
  lemma TwoLineRow(row: Row, l0: string, l1: string)
    requires row.Valid() && row.Height() == 2
    requires row.RenderLine(0, CharCount) == l0 && row.RenderLine(1, CharCount) == l1
    ensures row.Render(CharCount) == l0 + "\n" + l1
  {
    assert row.Render(CharCount) == JoinWith(row.RenderedLines(2, CharCount), "\n");
    RenderedLinesOfTwo(row, CharCount);
    JoinOfTwo(l0, l1, "\n");
  }

  lemma RenderedLinesOfTwo(row: Row, displayWidth: string -> nat)
    requires row.Valid()
    ensures row.RenderedLines(2, displayWidth) == [row.RenderLine(0, displayWidth), row.RenderLine(1, displayWidth)]
  {
  }

  lemma MultilineText()
    ensures "|" + (" Two    " + "|" + " 2 ") + "|" + "\n" + ("|" + (" Double " + "|" + "   ") + "|")
         == "| Two    | 2 |\n| Double |   |"
  {
  }

  /**
   * The multiline test: the row `["Two\nDouble", 2]` in columns 6 and 1
   * wide is two lines high, the second cell blank on the second line.
   */
  lemma MultilineRowRenders(row: Row)
    requires row.Valid() && |row.cells| == 2
    requires row.table.style == DefaultStyle && row.table.cellPadding == 2 && row.table.columnWidth == MultilineWidths
    requires row.cells[0].value == "Two\nDouble" && row.cells[0].alignmentOverride == None && row.cells[0].colspan == 1
    requires row.cells[1].value == "2" && row.cells[1].alignmentOverride == None && row.cells[1].colspan == 1
    ensures row.Render(CharCount) == "| Two    | 2 |\n| Double |   |"
  {
    FirstTwoIndices(row);
    var c0, c1 := row.cells[0], row.cells[1];
    TwoDoubleCell(c0);
    SingleLineCell(c1, "2", 1);
    MultilineSlots();
    assert c1.Render(0, CharCount) == " 2 ";
    BlankBeyondContent(c1, 1, CharCount);
    ThreeBlanks();
    assert c1.Render(1, CharCount) == "   ";
    TwoCellLine(row, 0, " Two    ", " 2 ");
    TwoCellLine(row, 1, " Double ", "   ");
    assert row.Height() == 2;
    TwoLineRow(row, "|" + (" Two    " + "|" + " 2 ") + "|", "|" + (" Double " + "|" + "   ") + "|");
    MultilineText();
  }

  /** Column widths 6 and 1: the widest content of each column of the multiline test. */
  function MultilineWidths(i: nat): int
  {
    if i == 0 then 6 else 1
  }

  /** Builds the multiline test's row and renders it. */
  method MultilineRow() returns (out: string)
    ensures out == "| Two    | 2 |\n| Double |   |"
  {
    var table := new Table(DefaultStyle, MultilineWidths, 3, 2);
    var row := new Row(table, [Plain("Two\nDouble"), Plain("2")]);
    MultilineRowRenders(row);
    out := row.Render(CharCount);
  }

  /** A row of two one-line cells renders as one line: both slots between borders. */
  lemma OneLineRow(row: Row, t0: string, w0: int, t1: string, w1: int)
    requires row.Valid()
    requires |row.cells| == 2 && row.table.style == DefaultStyle && row.table.cellPadding == 2
    requires row.cells[0].value == t0 && t0 != "" && '\n' !in t0 && Esc !in t0
    requires row.cells[1].value == t1 && t1 != "" && '\n' !in t1 && Esc !in t1
    requires row.cells[0].colspan == 1 && row.cells[1].colspan == 1
    requires row.table.columnWidth(row.cells[0].index) == w0 && w0 >= |t0|
    requires row.table.columnWidth(row.cells[1].index) == w1 && w1 >= |t1|
    ensures row.Render(CharCount)
         == "|" + (Slot(row.cells[0].ResolvedAlignment(), t0, w0) + "|" + Slot(row.cells[1].ResolvedAlignment(), t1, w1)) + "|"
  {
    var c0, c1 := row.cells[0], row.cells[1];
    SingleLineCell(c0, t0, w0);
    SingleLineCell(c1, t1, w1);
    TwoCellLine(row, 0, Slot(c0.ResolvedAlignment(), t0, w0), Slot(c1.ResolvedAlignment(), t1, w1));
    assert row.Height() == 1;
    assert row.RenderedLines(1, CharCount) == [row.RenderLine(0, CharCount)];
  }

  /** Column widths 5 and 6: the widest content of each column of the alignment test. */
  function AlignmentWidths(i: nat): int
  {
    if i == 0 then 5 else 6
  }

  lemma RightAlignedText()
    ensures "|" + (" Three " + "|" + "      3 ") + "|" == "| Three |      3 |"
  {
  }

  lemma CentredText()
    ensures "|" + (" Four  " + "|" + "  4.01  ") + "|" == "| Four  |  4.01  |"
  {
  }

  /**
   * The alignment test, first row: the second column is right aligned
   * after the row is built.
   */
  method RightAlignedRow(table: Table) returns (out: string)
    requires table.style == DefaultStyle && table.cellPadding == 2 && table.columnWidth == AlignmentWidths
    ensures out == "| Three |      3 |"
  {
    var row := new Row(table, [Plain("Three"), Plain("3")]);
    var outcome := row.cells[1].SetAlignment("right");
    assert row.cells[1].ResolvedAlignment() == Right;
    RightAlignedRowRenders(row);
    out := row.Render(CharCount);
  }

  lemma RightAlignedRowRenders(row: Row)
    requires row.Valid() && |row.cells| == 2
    requires row.table.style == DefaultStyle && row.table.cellPadding == 2 && row.table.columnWidth == AlignmentWidths
    requires row.cells[0].value == "Three" && row.cells[0].alignmentOverride == None && row.cells[0].colspan == 1
    requires row.cells[1].value == "3" && row.cells[1].colspan == 1 && row.cells[1].ResolvedAlignment() == Right
    ensures row.Render(CharCount) == "| Three |      3 |"
  {
    FirstTwoIndices(row);
    OneLineRow(row, "Three", 5, "3", 6);
    RightAlignedSlots();
    RightAlignedText();
  }

  /** The alignment test, second row: its second cell asks to be centred. */
  method CentredRow(table: Table) returns (out: string)
    requires table.style == DefaultStyle && table.cellPadding == 2 && table.columnWidth == AlignmentWidths
    ensures out == "| Four  |  4.01  |"
  {
    var row := new Row(table, [Plain("Four"), Options(Some("4.01"), Some(Center), None, None)]);
    CentredRowRenders(row);
    out := row.Render(CharCount);
  }

  lemma CentredRowRenders(row: Row)
    requires row.Valid() && |row.cells| == 2
    requires row.table.style == DefaultStyle && row.table.cellPadding == 2 && row.table.columnWidth == AlignmentWidths
    requires row.cells[0].value == "Four" && row.cells[0].alignmentOverride == None && row.cells[0].colspan == 1
    requires row.cells[1].value == "4.01" && row.cells[1].alignmentOverride == Some(Center) && row.cells[1].colspan == 1
    ensures row.Render(CharCount) == "| Four  |  4.01  |"
  {
    FirstTwoIndices(row);
    OneLineRow(row, "Four", 5, "4.01", 6);
    CentredSlots();
    CentredText();
  }

  /** Both rows of the alignment test, in columns 5 and 6 wide. */
  method AlignmentRows() returns (three: string, four: string)
    ensures three == "| Three |      3 |"
    ensures four == "| Four  |  4.01  |"
  {
    var table := new Table(DefaultStyle, AlignmentWidths, 3, 2);
    three := RightAlignedRow(table);
    four := CentredRow(table);
  }
}
