/**
 * One table row (mrblib/terminal/row.rb): an ordered list of cells, each
 * placed at the column where the cells before it end, its height, its
 * column count, and its rendering into bordered text lines.
 */
module Rows {
  import opened CoreExt
  import opened Cells

  /** The colspans of the cells, summed left to right. */
  function SumColspans(cs: seq<Cell>): nat
  {
    if |cs| == 0 then 0 else SumColspans(cs[..|cs| - 1]) + cs[|cs| - 1].colspan
  }

  lemma {:induction false} SumColspansPrefix(cs: seq<Cell>, i: nat, j: nat)
    requires i <= j <= |cs|
    ensures i < j ==> SumColspans(cs[..i]) + cs[i].colspan <= SumColspans(cs[..j])
    ensures SumColspans(cs[..i]) <= SumColspans(cs[..j])
    decreases j - i
  {
    if i < j {
      SumColspansPrefix(cs, i, j - 1);
      assert cs[..j][..j - 1] == cs[..j - 1];
      if i < j - 1 {
        assert SumColspans(cs[..i]) + cs[i].colspan <= SumColspans(cs[..j - 1]);
      } else {
        assert cs[..j][j - 1] == cs[i];
      }
    }
  }

  /** The largest line count among the cells; 0 when there are none. */
  function MaxLineCount(cs: seq<Cell>): (h: nat)
    ensures forall i :: 0 <= i < |cs| ==> |cs[i].Lines()| <= h
    ensures |cs| == 0 ==> h == 0
    ensures |cs| > 0 ==> exists i :: 0 <= i < |cs| && |cs[i].Lines()| == h
  {
    if |cs| == 0 then 0
    else
      var m := MaxLineCount(cs[..|cs| - 1]);
      var n := |cs[|cs| - 1].Lines()|;
      assert forall i :: 0 <= i < |cs| - 1 ==> cs[..|cs| - 1][i] == cs[i];
      if n > m then n else m
  }

  /** Every cell's rendering of line `line`, in order. */
  function CellRenders(cs: seq<Cell>, table: Table, line: int, displayWidth: string -> nat): (r: seq<string>)
    requires forall k :: 0 <= k < |cs| ==> cs[k].table == table
    reads cs, table
    ensures |r| == |cs|
    ensures forall k :: 0 <= k < |cs| ==> r[k] == cs[k].Render(line, displayWidth)
  {
    seq(|cs|, k requires 0 <= k < |cs| reads cs, table => cs[k].Render(line, displayWidth))
  }

  /** `r` starts and ends with the border `y`. */
  predicate Bordered(r: string, y: string)
  {
    |r| >= 2 * |y| && r[..|y|] == y && r[|r| - |y|..] == y
  }

  lemma BorderedByConcat(y: string, j: string)
    ensures Bordered(y + j + y, y)
  {
    assert (y + j + y)[..|y|] == y;
    assert (y + j + y)[|y| + |j|..] == y;
  }

  /** `c` is the cell the constructor makes from `item`. */
  ghost predicate Built(c: Cell, item: CellInput)
    reads c
  {
    var s := SettingsOf(item);
    c.value == s.value && c.alignmentOverride == s.alignment && c.colspan == s.colspan && c.widthHint == s.widthHint
  }

  class Row {
    var cells: seq<Cell>
    var cellIndex: nat
    const table: Table

    /**
     * Every cell belongs to the row's table and starts where the cells
     * before it end; the running index is where the next cell will start.
     */
    ghost predicate Valid()
      reads this
    {
      && cellIndex == SumColspans(cells)
      && forall i :: 0 <= i < |cells| ==> cells[i].index == SumColspans(cells[..i]) && cells[i].table == table
    }

    /** `initialize`: an empty row of `table`, then one `add_cell` per item. */
    constructor (table: Table, items: seq<CellInput>)
      ensures Valid() && this.table == table
      ensures |cells| == |items|
      ensures forall i :: 0 <= i < |items| ==> fresh(cells[i]) && Built(cells[i], items[i])
    {
      this.table := table;
      cells := [];
      cellIndex := 0;
      new;
      var i := 0;
      while i < |items|
        invariant 0 <= i <= |items|
        invariant Valid() && this.table == table
        invariant |cells| == i
        invariant forall k :: 0 <= k < i ==> fresh(cells[k]) && Built(cells[k], items[k])
      {
        var _ := AddCell(items[i]);
        i := i + 1;
      }
    }

    /**
     * `add_cell` (`<<`): the new cell starts at the running index, which
     * then advances by its colspan; it is appended and nothing before it
     * changes.
     */
    method AddCell(item: CellInput) returns (cell: Cell)
      requires Valid()
      modifies this
      ensures Valid()
      ensures fresh(cell) && Built(cell, item) && cell.table == table
      ensures cells == old(cells) + [cell]
      ensures cell.index == old(cellIndex) && cellIndex == old(cellIndex) + cell.colspan
    {
      cell := new Cell(item, cellIndex, table);
      cellIndex := cellIndex + cell.colspan;
      cells := cells + [cell];
      assert cells[..|cells| - 1] == old(cells);
      assert forall i :: 0 <= i < |old(cells)| ==> cells[..i] == old(cells)[..i];
    }

    /** `[]`: the cell at `i`, counting from the end when negative; nil when out of range. */
    function CellAt(i: int): (r: Option<Cell>)
      reads this
      ensures r.Some? <==> -|cells| <= i < |cells|
      ensures r.Some? ==> r.value in cells
      ensures 0 <= i < |cells| ==> r == Some(cells[i])
      ensures -|cells| <= i < 0 ==> r == Some(cells[|cells| + i])
    {
      At(cells, i)
    }

    /** `height`: the most lines any cell has; 0 for a row without cells. */
    function Height(): (h: nat)
      reads this
      ensures forall i :: 0 <= i < |cells| ==> |cells[i].Lines()| <= h
      ensures |cells| == 0 ==> h == 0
      ensures |cells| > 0 ==> exists i :: 0 <= i < |cells| && |cells[i].Lines()| == h
    {
      MaxLineCount(cells)
    }

    /** `number_of_columns`: the sum of the colspans, which is where the next cell would start. */
    function NumberOfColumns(): (n: nat)
      reads this
      ensures Valid() ==> n == cellIndex
      ensures Valid() && |cells| > 0 ==> n == cells[|cells| - 1].index + cells[|cells| - 1].colspan
    {
      SumColspans(cells)
    }

    /** One output line: a border, the cells' renderings joined by the border, a border. */
    function RenderLine(line: int, displayWidth: string -> nat): (r: string)
      requires Valid()
      reads this, table, cells
      ensures Bordered(r, table.style.borderY)
    {
      var y := table.style.borderY;
      var renders := CellRenders(cells, table, line, displayWidth);
      var j := JoinWith(renders, y);
      BorderedByConcat(y, j);
      y + j + y
    }

    /** The first `n` output lines. */
    function RenderedLines(n: nat, displayWidth: string -> nat): (ls: seq<string>)
      requires Valid()
      reads this, table, cells
      ensures |ls| == n
      ensures forall i :: 0 <= i < n ==> ls[i] == RenderLine(i, displayWidth)
    {
      seq(n, i requires 0 <= i < n && Valid() reads this, table, cells => RenderLine(i, displayWidth))
    }

    /** `render`: one line per line of height, joined by line breaks. */
    function Render(displayWidth: string -> nat): (r: string)
      requires Valid()
      reads this, table, cells
      ensures Height() == 0 ==> r == ""
      ensures Height() == 1 ==> r == RenderLine(0, displayWidth)
    {
      JoinWith(RenderedLines(Height(), displayWidth), "\n")
    }
  }

  /**
   * The cells of a valid row sit side by side: each starts where the one
   * before it ends, so no two cells share a column, and together they
   * cover exactly the row's columns.
   */
  lemma {:induction false} CellsTileColumns(row: Row, i: nat, j: nat)
    requires row.Valid()
    requires i < j < |row.cells|
    ensures row.cells[i].index + row.cells[i].colspan <= row.cells[j].index
    ensures row.cells[j].index + row.cells[j].colspan <= row.NumberOfColumns()
  {
    SumColspansPrefix(row.cells, i, j);
    SumColspansPrefix(row.cells, j, |row.cells|);
    assert row.cells[..|row.cells|] == row.cells;
    if j + 1 < |row.cells| {
      SumColspansPrefix(row.cells, j, j + 1);
      assert row.cells[..j + 1][..j] == row.cells[..j];
    } else {
      assert row.cells[..j + 1] == row.cells;
      assert row.cells[..j + 1][..j] == row.cells[..j];
    }
  }

  /**
   * An output line is as long as the cells' renderings plus one border
   * before each cell and one after the last.
   */
  lemma RenderLineLength(row: Row, line: int, displayWidth: string -> nat)
    requires row.Valid() && |row.cells| >= 1
    ensures |row.RenderLine(line, displayWidth)|
         == TotalLength(CellRenders(row.cells, row.table, line, displayWidth)) + (|row.cells| + 1) * |row.table.style.borderY|
  {
    BorderedJoinLength(CellRenders(row.cells, row.table, line, displayWidth), row.table.style.borderY);
  }

  lemma BorderedJoinLength(parts: seq<string>, y: string)
    requires |parts| >= 1
    ensures |y + JoinWith(parts, y) + y| == TotalLength(parts) + (|parts| + 1) * |y|
  {
    JoinWithLength(parts, y);
  }

  lemma {:induction false} JoinHasNoLineBreak(parts: seq<string>, sep: string)
    requires '\n' !in sep
    requires forall k :: 0 <= k < |parts| ==> '\n' !in parts[k]
    ensures '\n' !in JoinWith(parts, sep)
  {
    if |parts| > 1 {
      JoinHasNoLineBreak(parts[1..], sep);
    }
  }

  /**
   * When the border has no line break, the rendered row splits back into
   * exactly `height` lines, the i-th being line i of every cell between
   * borders.
   */
  lemma RenderSplitsIntoHeightLines(row: Row, displayWidth: string -> nat)
    requires row.Valid() && row.Height() > 0
    requires '\n' !in row.table.style.borderY
    ensures Fields(row.Render(displayWidth), '\n') == row.RenderedLines(row.Height(), displayWidth)
    ensures |Fields(row.Render(displayWidth), '\n')| == row.Height()
  {
    var ls := row.RenderedLines(row.Height(), displayWidth);
    forall i | 0 <= i < |ls|
      ensures '\n' !in ls[i]
    {
      var renders := CellRenders(row.cells, row.table, i, displayWidth);
      forall k | 0 <= k < |renders|
        ensures '\n' !in renders[k]
      {
        RenderHasNoLineBreak(row.cells[k], i, displayWidth);
      }
      JoinHasNoLineBreak(renders, row.table.style.borderY);
    }
    FieldsJoin(ls, '\n');
  }
}
