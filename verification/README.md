# terminal-table layout primitives in Dafny

A model of the layout core of `mruby-terminal-table`, a renderer that draws
text tables with box borders in a terminal.

- **Cell.** A cell holds a value, an optional alignment, a column span and
  the column index where it starts. Its slot is as wide as the columns it
  spans plus the spacing of the joins between them. It strips ANSI colour
  sequences before it measures a line. It renders one content line at a
  time: padded on both sides, then left-justified, right-justified or
  centred in its slot.
- **Row.** A row builds its cells one item at a time, giving each the
  running column index. Its height is the most lines any cell has. It
  renders one bordered text line per line of height.
- **Core extensions.** The core installs its own `String#rjust`,
  `String#center`, `Hash#fetch`, `Enumerable#max_by` and `Enumerable#zip`.
  The cell relies on all of them except `zip`.

The files, one module each:

- `coreext.dfy` (`CoreExt`) holds those extensions. It also holds the Ruby
  built-ins they rest on: `Array#[]` with negative indices, `ljust`, `*`,
  `reverse`, `split` and `join`.
- `cells.dfy` (`Cells`) holds the cell, the style record with its default
  values, and the part of the table a cell consults.
- `rows.dfy` (`Rows`) holds the row.
- `scenarios.dfy` (`Scenarios`) rebuilds rows from the library's tests and
  proves that they render the expected lines.

The table itself is not part of this model. Cells and rows see it through a
`Table` object with four fields: the style, the column widths (a function
from column index to width), the spacing per column join and the padding
per cell. The table computes these from all its rows, in code that is not
part of this model. A row and its cells share one `Table` object, as they
share one table in Ruby. The display width of a string (the
`Unicode::DisplayWidth` gem) is a parameter `displayWidth: string -> nat`.

The cell's state is a class. `alignment=` updates the alignment field and
returns `Fail` with the library's message instead of raising. The row is a
class with the cell sequence and the running index as fields. `add_cell`
keeps an invariant: every cell starts where the cells before it end. Rendering a row requires that invariant, which the constructor establishes and `add_cell` keeps. The
loops of `max_by` and `zip` are methods proved against specification
functions. Everything else is a function.

Ruby values are modelled by their `to_s` strings, and nil by `None`. The
extensions are guarded by `respond_to?` on the class object. That guard is
false for an instance method, so the model takes every extension as
installed.

## Model

| member | source | states |
|---|---|---|
| CoreExt.RjustIsLeftPad | mrblib/terminal.rb:25-28 | the reverse-ljust-reverse of the polyfill is the same as `width - length` pad characters put before the string |
| CoreExt.Rjust | mrblib/terminal.rb:25-28 | the string unchanged when the width is not larger than its length; otherwise exactly `width - length` pad characters followed by the string |
| CoreExt.CenterAsWritten | mrblib/terminal.rb:32-36 | the polyfill as written: unchanged when the width is not larger; otherwise `surplus - floor(surplus/2)` pads, the string, then `floor(surplus/2)` pads, so an odd surplus goes left |
| CoreExt.Center | mrblib/terminal.rb:32-36 | Ruby's own centring, which the polyfill stands in for: unchanged when the width is not larger; otherwise `floor(surplus/2)` pads, the string, then the rest, so an odd surplus goes right |
| CoreExt.CenterAsWrittenLeansLeft | mrblib/terminal.rb:34-35 | `"ab".center(5)` is `"  ab "` as written and `" ab  "` when corrected |
| CoreExt.Fetch | mrblib/terminal.rb:50-52 | the stored value when the key is present, otherwise the default |
| CoreExt.FirstMaxIndex | mrblib/terminal.rb:65-76 | the index max_by settles on: no key is larger than its key, and every earlier key is strictly smaller |
| CoreExt.MaxByValueIsFirstMax | mrblib/terminal.rb:71 | any element whose key is maximal and strictly above every earlier key is the one max_by returns |
| CoreExt.MaxBy | mrblib/terminal.rb:58-78 | nil exactly for an empty sequence; otherwise the first element of maximal key |
| CoreExt.Zip | mrblib/terminal.rb:82-98 | one pair per element; pair i holds element i and `arg[i]`, which is nil exactly when `arg` has no element i |
| CoreExt.At | mrblib/terminal/row.rb:52-54 | Ruby indexing: present exactly for indices in `-size...size`; a negative index counts from the end |
| CoreExt.JoinFields | mrblib/terminal/cell.rb:70-72 | the fields between separators, joined back with the separator, give the original string |
| CoreExt.FieldsJoin | mrblib/terminal/cell.rb:70-72 | splitting a join of separator-free parts gives the parts back |
| CoreExt.JoinWithLength | mrblib/terminal/row.rb:63-65 | a join is as long as its parts plus one separator per gap |
| Cells.ParseAlignment | mrblib/terminal/cell.rb:57-60 | a name is accepted exactly when it is left, center or right, and the accepted alignment has that name |
| Cells.ParseAlignmentName | mrblib/terminal/cell.rb:57-60 | every alignment's name is accepted and gives that alignment back |
| Cells.SettingsOf | mrblib/terminal/cell.rb:39-44 | a bare item becomes the value; missing options default to a nil value, no alignment, colspan 1 and a width hint equal to the length of the value without colour sequences |
| Cells.Escape | mrblib/terminal/cell.rb:107-111 | never longer than its input; a string without ESC comes back unchanged |
| Cells.EscapeColoured | mrblib/terminal/cell.rb:107-111 | text wrapped in a colour sequence and a reset sequence escapes back to the text |
| Cells.EscapeNotIdempotent | mrblib/terminal/cell.rb:108 | for any run of parameters, ESC `[` wrapped around a colour sequence and `m` escapes to the empty sequence ESC `[m`, and escaping that again gives the empty string: escaping once and escaping twice differ |
| Cells.SequenceAt | mrblib/terminal/cell.rb:108 | a match is ESC, `[`, a run of `;` and digits, and `m` |
| Cells.DropTrailingEmpty | mrblib/terminal/cell.rb:71 | the result is a prefix; only empty fields are dropped, and the last field kept is not empty |
| Cells.LinesOf | mrblib/terminal/cell.rb:70-72 | no line holds a line break |
| Cells.JoinDropped | mrblib/terminal/cell.rb:71 | dropping the trailing empty fields loses only line breaks at the end of the join |
| Cells.LinesLoseOnlyTrailingBreaks | mrblib/terminal/cell.rb:70-72 | the lines joined by line breaks are a prefix of the value, and what is lost is only line breaks at its end |
| Cells.SpanSumSplit | mrblib/terminal/cell.rb:99-101 | the sum over a span splits at any column into the sums over the two parts |
| Cells.SlotWidthJoin | mrblib/terminal/cell.rb:97-103 | a slot over two adjacent spans is the two slots plus one join's spacing |
| Cells.SlotWidthLast | mrblib/terminal/cell.rb:97-103 | a one-column slot is that column's width; a wider slot is the slot of its first columns, one spacing and its last column |
| Cells.Align | mrblib/terminal/cell.rb:66-69 | never cut: as long as the value or the target, whichever is longer; centring goes through the `center` polyfill |
| Cells.AlignPlaced | mrblib/terminal/cell.rb:66-69 | the aligned text is spaces, the value unchanged, then spaces, with no leading space (left), all of the surplus (right) or the surplus minus half of it rounded down (center, as the polyfill does) before the value |
| Cells.AlignIntended | mrblib/terminal/cell.rb:66-69 | `align` with Ruby's own `String#center` in the centre case; never cut |
| Cells.AlignIntendedPlaced | mrblib/terminal/cell.rb:66-69 | with Ruby's own centring, half the surplus rounded down goes before the value |
| Cells.AlignIntendedAgrees | mrblib/terminal/cell.rb:66-69 | the two alignments give the same text except when centring with an odd surplus |
| Cells.AlignCentreLeansLeft | mrblib/terminal/cell.rb:82 | a centred " ab " in a target of 5 renders as "  ab ", where Ruby's own centring gives " ab  " |
| Cells.Cell.constructor | mrblib/terminal/cell.rb:39-47 | the fields take the option values or their defaults; index and table are the given ones |
| Cells.Cell.HasAlignment | mrblib/terminal/cell.rb:49-51 | true exactly when the cell has its own alignment, which then is the alignment it renders with |
| Cells.Cell.Lines | mrblib/terminal/cell.rb:70-72 | no line holds a line break; a value that does not start with a line break has at least one line |
| Cells.Cell.ResolvedAlignment | mrblib/terminal/cell.rb:53-55 | the cell's own alignment if set, else the style's, else left |
| Cells.Cell.SetAlignment | mrblib/terminal/cell.rb:57-64 | succeeds exactly for left, center and right, and then `alignment?` holds and `alignment` is that name; otherwise it fails with the library's message and leaves the stored alignment unchanged |
| Cells.Cell.Width | mrblib/terminal/cell.rb:97-103 | one column: that column's width; n columns: the slot of the first n-1, one spacing and the last column |
| Cells.Cell.Render | mrblib/terminal/cell.rb:77-83 | never shorter than the padded line; as long as the padded line or the target width, whichever is longer |
| Cells.RenderPlaced | mrblib/terminal/cell.rb:77-83 | a rendered line is the padded line between spaces, after the resolved alignment's share of the surplus, the larger half of an odd surplus when centred |
| Cells.Cell.ValueForColumnWidthRecalc | mrblib/terminal/cell.rb:90-92 | nil exactly when the cell has no lines; otherwise the escaped line of greatest display width, the first one on a tie |
| Cells.EscapedLines | mrblib/terminal/cell.rb:91 | line k of the result is line k with its colour sequences removed |
| Cells.BlankBeyondContent | mrblib/terminal/cell.rb:77-82 | a line past the content renders as spaces only, as many as the padding or the slot plus cell padding, whichever is more |
| Cells.PlainLineFillsSlot | mrblib/terminal/cell.rb:77-82 | a plain line that fits renders exactly as wide as the slot plus the cell padding |
| Cells.RenderHasNoLineBreak | mrblib/terminal/cell.rb:77-82 | a rendered cell line never holds a line break |
| Rows.SumColspansPrefix | mrblib/terminal/row.rb:69-71 | the colspan sum of a prefix grows with the prefix, and a later prefix includes each earlier cell's full span |
| Rows.MaxLineCount | mrblib/terminal/row.rb:56-58 | every cell has at most that many lines, some cell has exactly that many, and an empty row gives 0 |
| Rows.CellRenders | mrblib/terminal/row.rb:63-65 | one rendering per cell, in cell order |
| Rows.Row.constructor | mrblib/terminal/row.rb:37-42 | one new cell per item, built from it, in order, with the row invariant established |
| Rows.Row.AddCell | mrblib/terminal/row.rb:44-49 | appends one new cell built from the item, starting at the running index; the index grows by its colspan; earlier cells are untouched and the invariant is kept |
| Rows.Row.CellAt | mrblib/terminal/row.rb:52-54 | a cell of the row exactly for indices in range, counting from the end when negative |
| Rows.Row.Height | mrblib/terminal/row.rb:56-58 | the largest line count of any cell; 0 for a row without cells |
| Rows.Row.NumberOfColumns | mrblib/terminal/row.rb:69-71 | in a valid row, the running index, which is where the last cell's span ends |
| Rows.Row.RenderLine | mrblib/terminal/row.rb:62-66 | in a valid row, the line starts and ends with the border |
| Rows.Row.RenderedLines | mrblib/terminal/row.rb:62-66 | exactly n lines, line i being RenderLine(i) |
| Rows.Row.Render | mrblib/terminal/row.rb:60-67 | an empty row renders nothing; a row of height one renders its first line |
| Rows.RenderLineLength | mrblib/terminal/row.rb:63-65 | a line is the cell renderings plus one border per cell and one more |
| Rows.CellsTileColumns | mrblib/terminal/row.rb:44-49 | in a valid row, each cell's span ends before the next cell starts and inside the row's column count |
| Rows.RenderSplitsIntoHeightLines | mrblib/terminal/row.rb:60-67 | with a border free of line breaks, the output splits back into exactly `height` lines, line i of every cell between borders |
| Scenarios.TwoDoubleCell | test/terminal_table_test.rb:63-70 | the value "Two\nDouble" has two lines and renders them as " Two    " and " Double " in a column 6 wide |
| Scenarios.MultilineRowRenders | test/terminal_table_test.rb:59-71 | the row of "Two\nDouble" and 2 renders as the two lines the test expects: "Two" beside "2", then "Double" beside a blank cell |
| Scenarios.MultilineRow | test/terminal_table_test.rb:59-71 | building that row with the row constructor and rendering it gives those two lines |
| Scenarios.RightAlignedRowRenders | test/terminal_table_test.rb:87-93 | a valid row of "Three" and a right-aligned 3 in columns 5 and 6 wide renders as the line the test expects, with 3 flush right in a slot six wide |
| Scenarios.CentredRowRenders | test/terminal_table_test.rb:87-94 | a valid row of "Four" and a centred 4.01 in those columns renders as the line the test expects, with 4.01 centred and two spaces on either side |
| Scenarios.RightAlignedRow | test/terminal_table_test.rb:87-93 | "Three" and 3, with the second cell set to right, render as the line the test expects, the 3 flush right in its column |
| Scenarios.CentredRow | test/terminal_table_test.rb:87-94 | "Four" and a centred 4.01 render as the line the test expects, 4.01 with two spaces on either side |
| Scenarios.AlignmentRows | test/terminal_table_test.rb:87-95 | both rows of the alignment test, in one table |

## Left out

- CoreExt.Center: models Ruby's own `String#center`, not the polyfill, which CoreExt.CenterAsWritten models. The renderer (Cells.Align) uses the polyfill, as the program does. See Findings.
- CoreExt.Rjust, CoreExt.Center: only a one-character pad string is modelled. The renderer always pads with one space.
- `Unicode::DisplayWidth.of` is a foreign library. It is the parameter `displayWidth`, and the tests use one column per character.
- `Table#column_width`, `cell_spacing`, `cell_padding`, `style` and `to_s` are defined in a file that is not part of this model. They are fields of the `Table` interface.
- Cells.Escape: the `rescue` fallback is left out. It catches the failure of the regular expression on an mruby build without a Regexp class, and then returns the line unchanged. The model assumes a build with regular expressions.
- `mrblib/terminal/style.rb` is configuration storage built with metaprogramming. Only its default values appear, as `DefaultStyle`.
- `Symbol#to_proc` is a language shim. The folds that use it (`&:colspan`, `&:+`) are written out directly.
- Cell values other than strings are modelled by their `to_s`. For example, the test's `4.01` becomes "4.01".
- Cells.SettingsOf: the alignment option of a cell hash is an `Alignment`. A hash with an unknown alignment is not represented. Ruby accepts one there without a check and fails only when the cell renders.
- Cells.Cell.SetAlignment: takes the name as a string. Ruby also accepts a symbol. A string that passes the check is stored as is, and Ruby's `align` accepts only symbols; that later failure is not modelled.
- Cells.SettingsOf: colspan is a natural number. A negative colspan is not represented.
- `Style` paddings are natural numbers. In Ruby a negative `padding_left` or `padding_right` makes `render` raise when it repeats the space; that failure is not represented.
- `Enumerable#max_by` without a block (`to_enum`) and the `rescue` around `arg[i]` in `zip` are left out. An array index never raises.
- `Row#[]` with a range or a start and length is not modelled. Only an integer index is.

## Findings

| source | as written | input that shows it | evidently intended | confidence | as-written member | corrected member |
|---|---|---|---|---|---|---|
| mrblib/terminal.rb:34-35 | `ljust(length + floor(surplus/2))` then `rjust(width)`: the right gets `floor(surplus/2)` pads and an odd surplus lands on the left | `"ab".center(5)` gives `"  ab "` | Ruby's own `String#center`, which the polyfill stands in for, puts `floor(surplus/2)` pads on the left: `" ab  "` | medium, not executed | CoreExt.CenterAsWritten, CoreExt.CenterAsWrittenLeansLeft, Cells.Align, Cells.AlignCentreLeansLeft | CoreExt.Center, Cells.AlignIntended, Cells.AlignIntendedPlaced |

The renderer keeps the program's behaviour: Cells.Align and Cell.Render centre with the polyfill as written. Cells.AlignIntended is the alignment with the intended centring, and Cells.AlignIntendedAgrees shows that the two differ only for a centred line with an odd surplus.
