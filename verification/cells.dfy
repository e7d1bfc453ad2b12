/**
 * One table cell (mrblib/terminal/cell.rb): its option defaults, the
 * alignment fallback chain and its validating setter, the slot width a
 * column span gives it, the stripping of ANSI colour sequences, and the
 * rendering of one content line into its slot.
 *
 * The table a cell belongs to is seen only through the interface the cell
 * uses: its style, column_width, cell_spacing and cell_padding.
 */
module Cells {
  import opened CoreExt

  datatype Alignment = Left | Center | Right

  /** The name `alignment=` accepts for each alignment. */
  function AlignmentName(a: Alignment): string
  {
    match a
    case Left => "left"
    case Center => "center"
    case Right => "right"
  }

  /** The check of `alignment=`: only the three supported names are accepted. */
  function ParseAlignment(name: string): (r: Option<Alignment>)
    ensures r.Some? <==> name == "left" || name == "center" || name == "right"
    ensures r.Some? ==> AlignmentName(r.value) == name
  {
    if name == "left" then Some(Left)
    else if name == "center" then Some(Center)
    else if name == "right" then Some(Right)
    else None
  }

  lemma ParseAlignmentName(a: Alignment)
    ensures ParseAlignment(AlignmentName(a)) == Some(a)
  {
  }

  /** The configuration a table is rendered with. */
  datatype Style = Style(
    borderX: string,
    borderY: string,
    borderI: string,
    paddingLeft: nat,
    paddingRight: nat,
    marginLeft: string,
    width: Option<nat>,
    alignment: Option<Alignment>,
    allSeparators: bool)

  /** The class-level defaults every new style starts from. */
  const DefaultStyle := Style("-", "|", "+", 1, 1, "", None, None, false)

  /**
   * The part of a table that cells and rows consult. Column widths, the
   * spacing per column join and the padding per cell are computed by the
   * table from all its rows; here they are state the table holds.
   */
  class Table {
    var style: Style
    var columnWidth: nat -> int
    var cellSpacing: int
    var cellPadding: int

    constructor (style: Style, columnWidth: nat -> int, cellSpacing: int, cellPadding: int)
      ensures this.style == style && this.columnWidth == columnWidth
      ensures this.cellSpacing == cellSpacing && this.cellPadding == cellPadding
    {
      this.style := style;
      this.columnWidth := columnWidth;
      this.cellSpacing := cellSpacing;
      this.cellPadding := cellPadding;
    }
  }

  /** What a row is given for a cell: a bare value, or a hash of cell options. */
  datatype CellInput =
    | Plain(item: string)
    | Options(value: Option<string>, alignment: Option<Alignment>, colspan: Option<nat>, width: Option<int>)

  /** The fields a cell is initialised with. */
  datatype Settings = Settings(value: string, alignment: Option<Alignment>, colspan: nat, widthHint: int)

  /**
   * The option defaults of the cell constructor: a bare value stands for
   * `{value: item}`; a missing value is nil, which renders as ""; colspan
   * defaults to 1, alignment to unset and the width hint to the length of
   * the value with its colour sequences removed.
   */
  function SettingsOf(item: CellInput): (s: Settings)
    ensures item.Plain? ==> s.value == item.item
    ensures item.Options? && item.value.Some? ==> s.value == item.value.value
    ensures item.Options? && item.value.None? ==> s.value == ""
    ensures item.Plain? || item.colspan.None? ==> s.colspan == 1
    ensures item.Options? && item.colspan.Some? ==> s.colspan == item.colspan.value
    ensures item.Plain? || item.alignment.None? ==> s.alignment == None
    ensures item.Options? && item.alignment.Some? ==> s.alignment == item.alignment
    ensures item.Plain? || item.width.None? ==> s.widthHint == |Escape(s.value)|
    ensures item.Options? && item.width.Some? ==> s.widthHint == item.width.value
  {
    match item
    case Plain(v) => Settings(v, None, 1, |Escape(v)|)
    case Options(v, a, c, w) =>
      var value := if v.Some? then v.value else "";
      Settings(value, a,
               if c.Some? then c.value else 1,
               if w.Some? then w.value else |Escape(value)|)
  }

  // ---------------------------------------------------------------------
  // Removing ANSI colour sequences: ESC, '[', optional parameters, 'm'
  // ---------------------------------------------------------------------

  const Esc: char := '\U{1B}'

  predicate IsParam(c: char) {
    c == ';' || '0' <= c <= '9'
  }

  /** The length of the leading run of `[;\d]` characters. */
  function ParamRun(s: string): (n: nat)
    ensures n <= |s|
    ensures forall i :: 0 <= i < n ==> IsParam(s[i])
    ensures n < |s| ==> !IsParam(s[n])
  {
    if |s| > 0 && IsParam(s[0]) then 1 + ParamRun(s[1..]) else 0
  }

  /**
   * The length of the colour sequence at the start of `s`, if one starts
   * there. The parameter run is greedy and 'm' is not a parameter
   * character, so backtracking could never make a shorter run match.
   */
  function SequenceAt(s: string): (r: Option<nat>)
    ensures r.Some? ==> 3 <= r.value <= |s| && s[0] == Esc && s[1] == '[' && s[r.value - 1] == 'm'
    ensures r.Some? ==> forall i :: 2 <= i < r.value - 1 ==> IsParam(s[i])
  {
    if |s| >= 2 && s[0] == Esc && s[1] == '[' then
      var n := ParamRun(s[2..]);
      if 2 + n < |s| && s[2 + n] == 'm' then Some(3 + n) else None
    else None
  }

  /** A colour sequence with parameters `code`, as terminals understand it. */
  function Sgr(code: string): string
  {
    [Esc, '['] + code + "m"
  }

  /** `escape`: every colour sequence is removed, scanning left to right. */
  function Escape(s: string): (r: string)
    ensures |r| <= |s|
    ensures Esc !in s ==> r == s
    decreases |s|
  {
    if |s| == 0 then ""
    else match SequenceAt(s)
      case Some(n) => Escape(s[n..])
      case None => [s[0]] + Escape(s[1..])
  }

  lemma EscapePlainHead(s: string)
    requires |s| > 0 && s[0] != Esc
    ensures Escape(s) == [s[0]] + Escape(s[1..])
  {
    assert SequenceAt(s) == None;
  }

  lemma AppendAssoc(x: string, y: string, z: string)
    ensures x + (y + z) == (x + y) + z
  {
  }

  lemma {:induction false} EscapePlainPrefix(a: string, t: string)
    requires Esc !in a
    ensures Escape(a + t) == a + Escape(t)
    decreases |a|
  {
    if |a| > 0 {
      var s, rest := a + t, a[1..];
      assert s[0] == a[0] && a[0] in a;
      EscapePlainHead(s);
      assert s[1..] == rest + t;
      assert forall c :: c in rest ==> c in a;
      EscapePlainPrefix(rest, t);
      AppendAssoc([a[0]], rest, Escape(t));
      assert [a[0]] + rest == a;
    } else {
      assert a + t == t;
    }
  }

  lemma {:induction false} EscapeSequencePrefix(code: string, t: string)
    requires forall i :: 0 <= i < |code| ==> IsParam(code[i])
    ensures Escape(Sgr(code) + t) == Escape(t)
  {
    var s := Sgr(code) + t;
    assert s[2..] == code + ("m" + t);
    ParamRunOfParams(code, "m" + t);
    assert SequenceAt(s) == Some(3 + |code|);
    assert s[3 + |code|..] == t;
  }

  lemma {:induction false} ParamRunOfParams(code: string, t: string)
    requires forall i :: 0 <= i < |code| ==> IsParam(code[i])
    requires |t| > 0 && !IsParam(t[0])
    ensures ParamRun(code + t) == |code|
    decreases |code|
  {
    if |code| > 0 {
      assert (code + t)[1..] == code[1..] + t;
      ParamRunOfParams(code[1..], t);
    } else {
      assert code + t == t;
    }
  }

  /** Colouring plain text and then escaping it gives the text back. */
  lemma {:induction false} EscapeColoured(code: string, text: string)
    requires forall i :: 0 <= i < |code| ==> IsParam(code[i])
    requires Esc !in text
    ensures Escape(Sgr(code) + text + Sgr("0")) == text
  {
    EscapeSequencePrefix(code, text + Sgr("0"));
    assert Sgr(code) + text + Sgr("0") == Sgr(code) + (text + Sgr("0"));
    EscapePlainPrefix(text, Sgr("0"));
    EscapeSequencePrefix("0", "");
    assert Sgr("0") + "" == Sgr("0");
  }

  /** Escaping is not idempotent: removing a sequence can join the halves of another. */
  lemma EscapeNotIdempotent(code: string)
    requires forall i :: 0 <= i < |code| ==> IsParam(code[i])
    ensures Escape([Esc, '['] + (Sgr(code) + "m")) == Sgr("")
    ensures Escape(Sgr("")) == ""
  {
    EscapeOuter(code);
    EscapeEmptySgr();
  }

  lemma EscapeEmptySgr()
    ensures Escape(Sgr("")) == ""
  {
    EscapeSequencePrefix("", "");
    assert Sgr("") + "" == Sgr("");
  }

  lemma EscapeM()
    ensures Escape("m") == "m"
  {
    EscapePlainHead("m");
  }

  lemma EscapeOuter(code: string)
    requires forall i :: 0 <= i < |code| ==> IsParam(code[i])
    ensures Escape([Esc, '['] + (Sgr(code) + "m")) == Sgr("")
  {
    EscapeUnterminated(Sgr(code) + "m", [Esc, '['] + (Sgr(code) + "m"));
    EscapeSequencePrefix(code, "m");
    EscapeM();
    assert Sgr("") == [Esc, '['] + "m";
  }

  /** ESC [ followed by another ESC is kept as it is, and the rest is escaped on its own. */
  lemma EscapeUnterminated(rest: string, s: string)
    requires |rest| > 0 && rest[0] == Esc && s == [Esc, '['] + rest
    ensures Escape(s) == [Esc, '['] + Escape(rest)
  {
    EscapeUnterminatedHead(s);
    var t := s[1..];
    assert t == ['['] + rest;
    EscapePlainHead(t);
    assert t[1..] == rest;
    assert [Esc] + (['['] + Escape(rest)) == [Esc, '['] + Escape(rest);
  }

  /** An ESC [ not followed by parameters and 'm' is kept, and scanning resumes right after the ESC. */
  lemma EscapeUnterminatedHead(s: string)
    requires |s| >= 3 && s[0] == Esc && s[1] == '[' && !IsParam(s[2]) && s[2] != 'm'
    ensures Escape(s) == [Esc] + Escape(s[1..])
  {
    assert ParamRun(s[2..]) == 0;
    assert SequenceAt(s) == None;
  }

  // ---------------------------------------------------------------------
  // Lines: the value split at line breaks
  // ---------------------------------------------------------------------

  /** Ruby's split drops the empty fields at the end. */
  function DropTrailingEmpty(fields: seq<string>): (r: seq<string>)
    ensures |r| <= |fields| && r == fields[..|r|]
    ensures forall k :: |r| <= k < |fields| ==> fields[k] == ""
    ensures |r| > 0 ==> r[|r| - 1] != ""
  {
    if |fields| == 0 then []
    else if fields[|fields| - 1] == "" then DropTrailingEmpty(fields[..|fields| - 1])
    else fields
  }

  /** The content lines of a value: its fields between line breaks, without trailing empty ones. */
  function LinesOf(value: string): (r: seq<string>)
    ensures forall k :: 0 <= k < |r| ==> '\n' !in r[k]
  {
    DropTrailingEmpty(Fields(value, '\n'))
  }

  lemma {:induction false} JoinEmptyTail(xs: seq<string>, m: nat)
    requires |xs| >= 1
    ensures JoinWith(xs + seq(m, _ => ""), "\n") == JoinWith(xs, "\n") + Repeat('\n', m)
    decreases |xs| + m
  {
    if m > 0 {
      var e := seq(m, _ => "");
      if |xs| == 1 {
        assert xs + e == [xs[0]] + ([""] + seq(m - 1, _ => ""));
        assert (xs + e)[1..] == [""] + seq(m - 1, _ => "");
        JoinEmptyTail([""], m - 1);
        assert JoinWith([""], "\n") == "";
        RepeatShift('\n', m - 1);
      } else {
        assert (xs + e)[1..] == xs[1..] + e;
        JoinEmptyTail(xs[1..], m);
      }
    } else {
      assert xs + seq(0, _ => "") == xs;
    }
  }

  /** Splitting into lines loses only line breaks at the very end of the value. */
  lemma LinesLoseOnlyTrailingBreaks(value: string)
    ensures |JoinWith(LinesOf(value), "\n")| <= |value|
    ensures value[..|JoinWith(LinesOf(value), "\n")|] == JoinWith(LinesOf(value), "\n")
    ensures AllChar(value[|JoinWith(LinesOf(value), "\n")|..], '\n')
  {
    var f := Fields(value, '\n');
    JoinFields(value, '\n');
    var m := JoinDropped(f);
    PrefixThenBreaks(value, JoinWith(LinesOf(value), "\n"), m);
  }

  /** Joining the fields loses nothing but a run of line breaks when trailing empty fields are dropped. */
  lemma JoinDropped(f: seq<string>) returns (m: nat)
    requires |f| >= 1
    ensures JoinWith(f, "\n") == JoinWith(DropTrailingEmpty(f), "\n") + Repeat('\n', m)
  {
    var l := DropTrailingEmpty(f);
    if |l| > 0 {
      m := |f| - |l|;
      assert f == l + seq(m, _ => "");
      JoinEmptyTail(l, m);
    } else {
      m := |f| - 1;
      assert f == [""] + seq(m, _ => "");
      JoinEmptyTail([""], m);
      assert JoinWith([""], "\n") == "";
    }
  }

  lemma PrefixThenBreaks(value: string, j: string, m: nat)
    requires value == j + Repeat('\n', m)
    ensures |j| <= |value| && value[..|j|] == j && AllChar(value[|j|..], '\n')
  {
    RepeatAllChar('\n', m);
    assert value[|j|..] == Repeat('\n', m);
  }

  // ---------------------------------------------------------------------
  // Slot width and alignment
  // ---------------------------------------------------------------------

  /** The inject fold of `width`: column widths from `start`, `n` of them, summed left to right. */
  function SpanSum(columnWidth: nat -> int, start: nat, n: nat): int
  {
    if n == 0 then 0 else SpanSum(columnWidth, start, n - 1) + columnWidth(start + n - 1)
  }

  /** The width of the slot a cell at column `index` spanning `colspan` columns renders into. */
  function SlotWidth(columnWidth: nat -> int, spacing: int, index: nat, colspan: nat): int
  {
    SpanSum(columnWidth, index, colspan) + (colspan - 1) * spacing
  }

  lemma {:induction false} SpanSumSplit(columnWidth: nat -> int, start: nat, a: nat, b: nat)
    ensures SpanSum(columnWidth, start, a + b) == SpanSum(columnWidth, start, a) + SpanSum(columnWidth, start + a, b)
  {
    if b > 0 {
      SpanSumSplit(columnWidth, start, a, b - 1);
    }
  }

  /**
   * Two adjacent slots merged into one span are as wide as the two slots
   * and the spacing of the join between them.
   */
  lemma {:induction false} SlotWidthJoin(columnWidth: nat -> int, spacing: int, index: nat, a: nat, b: nat)
    requires a >= 1 && b >= 1
    ensures SlotWidth(columnWidth, spacing, index, a + b)
         == SlotWidth(columnWidth, spacing, index, a) + spacing + SlotWidth(columnWidth, spacing, index + a, b)
  {
    SpanSumSplit(columnWidth, index, a, b);
    assert (a + b - 1) * spacing == (a - 1) * spacing + spacing + (b - 1) * spacing;
  }

  /** A slot of one column is that column; a slot of `n` columns is the slot of its first `n - 1` columns, one join and its last column. */
  lemma SlotWidthLast(columnWidth: nat -> int, spacing: int, index: nat, n: nat)
    ensures n == 1 ==> SlotWidth(columnWidth, spacing, index, n) == columnWidth(index)
    ensures n >= 2 ==> SlotWidth(columnWidth, spacing, index, n)
                       == SlotWidth(columnWidth, spacing, index, n - 1) + spacing + columnWidth(index + n - 1)
  {
    if n == 1 {
      assert SpanSum(columnWidth, index, 0) == 0;
      assert (n - 1) * spacing == 0;
    } else if n >= 2 {
      SlotWidthJoin(columnWidth, spacing, index, n - 1, 1);
      assert SpanSum(columnWidth, index + n - 1, 0) == 0;
    }
  }

  function Max(a: int, b: int): int {
    if a >= b then a else b
  }

  /**
   * How many pad characters `align` puts before the value, given the
   * surplus. Centring goes through the `center` polyfill, which leaves the
   * larger half of an odd surplus on the left.
   */
  function LeftRun(position: Alignment, surplus: nat): (n: nat)
    ensures n <= surplus
    ensures position == Center ==> surplus - n == Half(surplus)
  {
    match position
    case Left => 0
    case Right => surplus
    case Center => surplus - Half(surplus)
  }

  /** The left run with Ruby's own `String#center`: the smaller half of an odd surplus. */
  function IntendedLeftRun(position: Alignment, surplus: nat): (n: nat)
    ensures n <= surplus
    ensures position != Center ==> n == LeftRun(position, surplus)
    ensures position == Center ==> n == Half(surplus)
  {
    match position
    case Center => Half(surplus)
    case _ => LeftRun(position, surplus)
  }

  /** `r` is `val` with `k` pad spaces before it and pad spaces after it. */
  predicate Placed(r: string, val: string, k: nat)
  {
    k + |val| <= |r| && r == Repeat(' ', k) + val + Repeat(' ', |r| - |val| - k)
  }

  /**
   * `align`: ljust, rjust or the `center` polyfill by the alignment; the
   * value is never cut.
   */
  function Align(val: string, position: Alignment, length: int): (r: string)
    ensures |r| == Max(|val|, length)
  {
    match position
    case Left => Ljust(val, length, ' ')
    case Right => Rjust(val, length, ' ')
    case Center => CenterAsWritten(val, length, ' ')
  }

  /** The aligned value lands after LeftRun pad spaces and is followed by the rest. */
  lemma AlignPlaced(val: string, position: Alignment, length: int, r: string) returns (k: nat)
    requires r == Align(val, position, length)
    ensures k == LeftRun(position, |r| - |val|)
    ensures Placed(r, val, k)
  {
    match position
    case Left => k := LjustAligned(val, length, r);
    case Right => k := RjustAligned(val, length, r);
    case Center => k := CenterAsWrittenAligned(val, length, r);
  }

  /** `align` as it would be with Ruby's own `String#center` for the centre case. */
  function AlignIntended(val: string, position: Alignment, length: int): (r: string)
    ensures |r| == Max(|val|, length)
  {
    match position
    case Left => Ljust(val, length, ' ')
    case Right => Rjust(val, length, ' ')
    case Center => CoreExt.Center(val, length, ' ')
  }

  /** The intended alignment places the value after IntendedLeftRun pad spaces. */
  lemma AlignIntendedPlaced(val: string, position: Alignment, length: int, r: string) returns (k: nat)
    requires r == AlignIntended(val, position, length)
    ensures k == IntendedLeftRun(position, |r| - |val|)
    ensures Placed(r, val, k)
  {
    match position
    case Left => k := LjustAligned(val, length, r);
    case Right => k := RjustAligned(val, length, r);
    case Center => k := CenterAligned(val, length, r);
  }

  /**
   * The two alignments agree everywhere but in centring with an odd
   * surplus (AlignCentreLeansLeft shows that they can part ways there).
   */
  lemma AlignIntendedAgrees(val: string, position: Alignment, length: int)
    requires position != Center || length <= |val| || (length - |val|) % 2 == 0
    ensures AlignIntended(val, position, length) == Align(val, position, length)
  {
    if position == Center && length > |val| {
      var r := Align(val, position, length);
      var q := AlignIntended(val, position, length);
      var k := AlignPlaced(val, position, length, r);
      var j := AlignIntendedPlaced(val, position, length, q);
      assert k == j;
    }
  }

  /** The centred test cell of an odd surplus: the polyfill leans left. */
  lemma AlignCentreLeansLeft()
    ensures Align(" ab ", Center, 5) == "  ab "
    ensures AlignIntended(" ab ", Center, 5) == " ab  "
  {
    assert Repeat(' ', 1) == " " by { RepeatUnique(" ", ' '); }
    assert Repeat(' ', 0) == "" by { RepeatUnique("", ' '); }
  }

  lemma PlacedAt(r: string, val: string, k: nat, m: nat)
    requires r == Repeat(' ', k) + val + Repeat(' ', m)
    ensures Placed(r, val, k)
  {
    assert |r| - |val| - k == m;
  }

  lemma LjustAligned(val: string, length: int, r: string) returns (k: nat)
    requires r == Ljust(val, length, ' ')
    ensures |r| == Max(|val|, length)
    ensures k == LeftRun(Left, |r| - |val|) && Placed(r, val, k)
  {
    k := 0;
    var m := if length > |val| then length - |val| else 0;
    assert r == Repeat(' ', 0) + val + Repeat(' ', m);
    PlacedAt(r, val, 0, m);
  }

  lemma RjustAligned(val: string, length: int, r: string) returns (k: nat)
    requires r == Rjust(val, length, ' ')
    ensures |r| == Max(|val|, length)
    ensures k == LeftRun(Right, |r| - |val|) && Placed(r, val, k)
  {
    k := if length > |val| then length - |val| else 0;
    assert r == Repeat(' ', k) + val + Repeat(' ', 0);
    PlacedAt(r, val, k, 0);
  }

  lemma CenterAsWrittenAligned(val: string, length: int, r: string) returns (k: nat)
    requires r == CenterAsWritten(val, length, ' ')
    ensures |r| == Max(|val|, length)
    ensures k == LeftRun(Center, |r| - |val|) && Placed(r, val, k)
  {
    if length > |val| {
      CenterAsWrittenSplit(val, length, r);
      k := CenterAsWrittenSplitPlaced(val, length, r);
    } else {
      k := 0;
      assert r == Repeat(' ', 0) + val + Repeat(' ', 0);
      PlacedAt(r, val, 0, 0);
    }
  }

  lemma CenterAsWrittenSplit(val: string, length: int, r: string)
    requires r == CenterAsWritten(val, length, ' ') && length > |val|
    ensures |r| == length
    ensures r == Repeat(' ', length - |val| - Half(length - |val|)) + val + Repeat(' ', Half(length - |val|))
  {
  }

  lemma CenterAsWrittenSplitPlaced(val: string, length: int, r: string) returns (k: nat)
    requires length > |val| && |r| == length
    requires r == Repeat(' ', length - |val| - Half(length - |val|)) + val + Repeat(' ', Half(length - |val|))
    ensures k == LeftRun(Center, |r| - |val|) && Placed(r, val, k)
  {
    PlacedAt(r, val, length - |val| - Half(length - |val|), Half(length - |val|));
    k := length - |val| - Half(length - |val|);
  }

  lemma CenterAligned(val: string, length: int, r: string) returns (k: nat)
    requires r == CoreExt.Center(val, length, ' ')
    ensures |r| == Max(|val|, length)
    ensures k == IntendedLeftRun(Center, |r| - |val|) && Placed(r, val, k)
  {
    if length > |val| {
      CenterSplit(val, length, r);
      k := CenterSplitPlaced(val, length, r);
    } else {
      k := 0;
      assert r == Repeat(' ', 0) + val + Repeat(' ', 0);
      PlacedAt(r, val, 0, 0);
    }
  }

  lemma CenterSplit(val: string, length: int, r: string)
    requires r == CoreExt.Center(val, length, ' ') && length > |val|
    ensures |r| == length
    ensures r == Repeat(' ', Half(length - |val|)) + val + Repeat(' ', length - |val| - Half(length - |val|))
  {
  }

  lemma CenterSplitPlaced(val: string, length: int, r: string) returns (k: nat)
    requires length > |val| && |r| == length
    requires r == Repeat(' ', Half(length - |val|)) + val + Repeat(' ', length - |val| - Half(length - |val|))
    ensures k == IntendedLeftRun(Center, |r| - |val|) && Placed(r, val, k)
  {
    PlacedAt(r, val, Half(length - |val|), length - |val| - Half(length - |val|));
    k := Half(length - |val|);
  }

  datatype Outcome = Pass | Fail(message: string)

  const AlignmentError := "Aligment must be one of: left center right"

  class Cell {
    const value: string
    var alignmentOverride: Option<Alignment>
    const colspan: nat
    const widthHint: int
    const index: nat
    const table: Table

    constructor (item: CellInput, index: nat, table: Table)
      ensures value == SettingsOf(item).value && alignmentOverride == SettingsOf(item).alignment
      ensures colspan == SettingsOf(item).colspan && widthHint == SettingsOf(item).widthHint
      ensures this.index == index && this.table == table
    {
      var s := SettingsOf(item);
      value := s.value;
      alignmentOverride := s.alignment;
      colspan := s.colspan;
      widthHint := s.widthHint;
      this.index := index;
      this.table := table;
    }

    /**
     * `alignment?`: whether the cell has an alignment of its own, which then
     * overrides the style's.
     */
    predicate HasAlignment(): (b: bool)
      reads this, table
      ensures b <==> alignmentOverride.Some?
      ensures b ==> ResolvedAlignment() == alignmentOverride.value
    {
      alignmentOverride.Some?
    }

    /** `alignment`: the cell's own setting, else the style's, else left. */
    function ResolvedAlignment(): (a: Alignment)
      reads this, table
      ensures alignmentOverride.Some? ==> a == alignmentOverride.value
      ensures alignmentOverride.None? && table.style.alignment.Some? ==> a == table.style.alignment.value
      ensures alignmentOverride.None? && table.style.alignment.None? ==> a == Left
    {
      if alignmentOverride.Some? then alignmentOverride.value
      else if table.style.alignment.Some? then table.style.alignment.value
      else Left
    }

    /** `alignment=`: accepts only left, center and right; anything else raises and changes nothing. */
    method SetAlignment(name: string) returns (outcome: Outcome)
      modifies this`alignmentOverride
      ensures outcome.Pass? <==> name == "left" || name == "center" || name == "right"
      ensures outcome.Pass? ==> HasAlignment() && AlignmentName(alignmentOverride.value) == name
      ensures outcome.Pass? ==> AlignmentName(ResolvedAlignment()) == name
      ensures outcome.Fail? ==> alignmentOverride == old(alignmentOverride) && outcome.message == AlignmentError
    {
      var parsed := ParseAlignment(name);
      if parsed.Some? {
        alignmentOverride := parsed;
        outcome := Pass;
      } else {
        outcome := Fail(AlignmentError);
      }
    }

    /**
     * `lines`: the value cut at its line breaks, without trailing empty
     * lines; see LinesLoseOnlyTrailingBreaks for what is lost.
     */
    function Lines(): (r: seq<string>)
      ensures forall k :: 0 <= k < |r| ==> '\n' !in r[k]
      ensures |value| > 0 && value[0] != '\n' ==> |r| > 0
    {
      LinesLoseOnlyTrailingBreaks(value);
      assert LinesOf(value) == [] ==> value[|JoinWith(LinesOf(value), "\n")|..] == value;
      LinesOf(value)
    }

    /** `width`: the slot of the spanned columns and the joins between them. */
    function Width(): (w: int)
      reads this, table
      ensures colspan == 1 ==> w == table.columnWidth(index)
      ensures colspan >= 2 ==> w == SlotWidth(table.columnWidth, table.cellSpacing, index, colspan - 1)
                                   + table.cellSpacing + table.columnWidth(index + colspan - 1)
    {
      SlotWidthLast(table.columnWidth, table.cellSpacing, index, colspan);
      SlotWidth(table.columnWidth, table.cellSpacing, index, colspan)
    }

    /** `lines[line]`, with nil (out of range) rendered as the empty string. */
    function LineText(line: int): string
    {
      match At(Lines(), line)
      case Some(t) => t
      case None => ""
    }

    /** The line between the style's left and right paddings. */
    function Padded(line: int): string
      reads this, table
    {
      Repeat(' ', table.style.paddingLeft) + LineText(line) + Repeat(' ', table.style.paddingRight)
    }

    /**
     * The width `render` aligns to: the slot plus the cell padding, grown
     * by the characters the display width does not count (colour sequences).
     */
    function Target(line: int, displayWidth: string -> nat): int
      reads this, table
    {
      |LineText(line)| - displayWidth(Escape(LineText(line))) + Width() + table.cellPadding
    }

    /**
     * `render(line)`: the padded line aligned to the target width. Nothing
     * is ever cut off: the result is as long as the padded line or the
     * target, whichever is longer, and holds the padded line after the
     * alignment's share of the surplus.
     */
    function Render(line: int, displayWidth: string -> nat): (r: string)
      reads this, table
      ensures |r| >= |Padded(line)|
      ensures |r| == Max(|Padded(line)|, Target(line, displayWidth))
    {
      Align(Padded(line), ResolvedAlignment(), Target(line, displayWidth))
    }

    /**
     * `value_for_column_width_recalc`: the escaped line of greatest display
     * width, the first of them on a tie; nil for a cell without lines.
     */
    function ValueForColumnWidthRecalc(displayWidth: string -> nat): (r: Option<string>)
      ensures r.None? <==> |Lines()| == 0
      ensures r.Some? ==> (exists i :: 0 <= i < |Lines()| && WidestFirst(EscapedLines(Lines()), displayWidth, i)
                                       && r.value == Escape(Lines()[i]))
    {
      var escaped := EscapedLines(Lines());
      if |escaped| == 0 then None
      else
        var i := FirstMaxIndex(escaped, displayWidth);
        assert WidestFirst(escaped, displayWidth, i) && escaped[i] == Escape(Lines()[i]);
        Some(escaped[i])
    }
  }

  /**
   * A rendered cell line holds the padded line, never cut, after the
   * alignment's share of the surplus, and pad spaces after it.
   */
  lemma RenderPlaced(c: Cell, line: int, displayWidth: string -> nat, r: string) returns (k: nat)
    requires r == c.Render(line, displayWidth)
    ensures k == LeftRun(c.ResolvedAlignment(), |r| - |c.Padded(line)|)
    ensures Placed(r, c.Padded(line), k)
  {
    assert r == Align(c.Padded(line), c.ResolvedAlignment(), c.Target(line, displayWidth));
    k := AlignPlaced(c.Padded(line), c.ResolvedAlignment(), c.Target(line, displayWidth), r);
  }

  /** Each line with its colour sequences removed. */
  function EscapedLines(ls: seq<string>): (r: seq<string>)
    ensures |r| == |ls| && forall k :: 0 <= k < |ls| ==> r[k] == Escape(ls[k])
  {
    if |ls| == 0 then [] else [Escape(ls[0])] + EscapedLines(ls[1..])
  }

  /** Line `i` is at least as wide as every line and wider than every line before it. */
  predicate WidestFirst(ls: seq<string>, width: string -> int, i: nat)
  {
    && i < |ls|
    && (forall j :: 0 <= j < |ls| ==> width(ls[j]) <= width(ls[i]))
    && (forall j :: 0 <= j < i ==> width(ls[j]) < width(ls[i]))
  }

  /** A line past the cell's content renders as padding only, filled to the slot. */
  lemma BlankBeyondContent(c: Cell, line: int, displayWidth: string -> nat)
    requires line >= |c.Lines()| || line < -|c.Lines()|
    requires displayWidth("") == 0
    ensures c.Render(line, displayWidth)
         == Repeat(' ', Max(c.table.style.paddingLeft + c.table.style.paddingRight, c.Width() + c.table.cellPadding))
  {
    var r := c.Render(line, displayWidth);
    assert c.LineText(line) == "";
    PaddedBlank(c, line);
    var k := RenderPlaced(c, line, displayWidth, r);
    PlacedAllPad(r, c.Padded(line), k);
    RepeatUnique(r, ' ');
  }

  lemma PaddedBlank(c: Cell, line: int)
    requires c.LineText(line) == ""
    ensures AllChar(c.Padded(line), ' ')
    ensures |c.Padded(line)| == c.table.style.paddingLeft + c.table.style.paddingRight
  {
    RepeatAllChar(' ', c.table.style.paddingLeft);
    RepeatAllChar(' ', c.table.style.paddingRight);
  }

  lemma PlacedAllPad(r: string, val: string, k: nat)
    requires Placed(r, val, k)
    requires AllChar(val, ' ')
    ensures AllChar(r, ' ')
  {
    RepeatAllChar(' ', k);
    RepeatAllChar(' ', |r| - |val| - k);
  }

  /**
   * A plain line (no colour sequences, one column per character) that fits
   * its slot renders exactly as wide as the slot plus the cell padding.
   */
  lemma PlainLineFillsSlot(c: Cell, line: int, displayWidth: string -> nat)
    requires displayWidth(Escape(c.LineText(line))) == |c.LineText(line)|
    requires c.table.style.paddingLeft + |c.LineText(line)| + c.table.style.paddingRight
             <= c.Width() + c.table.cellPadding
    ensures |c.Render(line, displayWidth)| == c.Width() + c.table.cellPadding
  {
  }

  lemma NoLineBreakInPad(n: nat)
    ensures '\n' !in Repeat(' ', n)
  {
    RepeatAllChar(' ', n);
  }

  lemma LineTextIsSingleLine(c: Cell, line: int)
    ensures '\n' !in c.LineText(line)
  {
    match At(c.Lines(), line)
    case Some(t) =>
      assert t in c.Lines();
    case None =>
  }

  lemma PaddedIsSingleLine(c: Cell, line: int)
    ensures '\n' !in c.Padded(line)
  {
    LineTextIsSingleLine(c, line);
    NoLineBreakInPad(c.table.style.paddingLeft);
    NoLineBreakInPad(c.table.style.paddingRight);
  }

  lemma PlacedIsSingleLine(r: string, val: string, k: nat)
    requires Placed(r, val, k)
    requires '\n' !in val
    ensures '\n' !in r
  {
    NoLineBreakInPad(k);
    NoLineBreakInPad(|r| - |val| - k);
  }

  /** A rendered cell line is a single line: it never holds a line break. */
  lemma RenderHasNoLineBreak(c: Cell, line: int, displayWidth: string -> nat)
    ensures '\n' !in c.Render(line, displayWidth)
  {
    var k := RenderPlaced(c, line, displayWidth, c.Render(line, displayWidth));
    PaddedIsSingleLine(c, line);
    PlacedIsSingleLine(c.Render(line, displayWidth), c.Padded(line), k);
  }
}
