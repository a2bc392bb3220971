/**
 * The character grid the renderer draws into: `height` rows of `width` cells,
 * row-major, with bounds-checked reads and writes and a text form for display.
 */
module CharBuffers {
  import opened Wrappers

  /** The error `set_char` returns when row `y` does not exist. */
  const RowMissing: string := "Could not retrieve row, likely y out of range"

  /** The error `set_char` returns when the row exists but has no cell `x`. */
  const ItemMissing: string := "Could not retrieve item, likely x out of range"

  /** Each char of a row followed by one space. */
  function Spaced(row: seq<char>): (s: string)
    ensures |s| == 2 * |row|
  {
    if row == [] then [] else [row[0], ' '] + Spaced(row[1..])
  }

  /** Char `i` of a row sits at position `2 * i` of its spaced form, a space right after it. */
  lemma {:induction false} SpacedAt(row: seq<char>, i: nat)
    requires i < |row|
    ensures Spaced(row)[2 * i] == row[i] && Spaced(row)[2 * i + 1] == ' '
  {
    if i > 0 {
      SpacedAt(row[1..], i - 1);
    }
  }

  /** One row of the text form: the spaced chars and a line break. */
  function RowText(row: seq<char>): (s: string)
    ensures |s| == 2 * |row| + 1
    ensures s[|s| - 1] == '\n'
  {
    Spaced(row) + "\n"
  }

  /**
   * The `Display` form of a grid: every row's text, row 0 first. Every row,
   * even one without cells, contributes its line break, so the text is empty
   * only for a grid without rows and otherwise ends in a line break.
   */
  function ToText(rows: seq<seq<char>>): (s: string)
    ensures s == [] <==> rows == []
    ensures rows != [] ==> s[|s| - 1] == '\n'
  {
    if rows == [] then "" else RowText(rows[0]) + ToText(rows[1..])
  }

  /** All rows have `width` cells. */
  predicate Rectangular(rows: seq<seq<char>>, width: nat)
  {
    forall y :: 0 <= y < |rows| ==> |rows[y]| == width
  }

  /** One more block of `k` chars: `(n + 1) * k == n * k + k`. */
  lemma MulStep(n: nat, k: nat)
    ensures (n + 1) * k == n * k + k
  {
  }

  /** Block `y` of `n` blocks of `k` chars ends within the `n * k` chars. */
  lemma BlockFits(y: nat, n: nat, k: nat)
    requires y < n
    ensures y * k + k <= n * k
  {
    MulStep(y, k);
    assert (y + 1) * k <= n * k;
  }

  /** The text of a rectangular grid has `2 * width + 1` chars per row. */
  lemma {:induction false} TextLength(rows: seq<seq<char>>, width: nat)
    requires Rectangular(rows, width)
    ensures |ToText(rows)| == |rows| * (2 * width + 1)
  {
    if rows != [] {
      var k := 2 * width + 1;
      TextLength(rows[1..], width);
      assert |ToText(rows)| == k + (|rows| - 1) * k;
      MulStep(|rows| - 1, k);
    }
  }

  /** The text of consecutive row blocks is the concatenation of their texts. */
  lemma {:induction false} TextAppend(a: seq<seq<char>>, b: seq<seq<char>>)
    ensures ToText(a + b) == ToText(a) + ToText(b)
  {
    if a == [] {
      assert a + b == b;
    } else {
      var ab := a + b;
      assert ab[1..] == a[1..] + b && ab[0] == a[0];
      TextAppend(a[1..], b);
      calc {
        ToText(ab);
        RowText(a[0]) + ToText(a[1..] + b);
        RowText(a[0]) + (ToText(a[1..]) + ToText(b));
        (RowText(a[0]) + ToText(a[1..])) + ToText(b);
      }
    }
  }

  /** The text of a grid is the text of the rows above `y`, then row `y`'s own text, then the text of the rows below. */
  lemma TextAround(rows: seq<seq<char>>, y: nat)
    requires y < |rows|
    ensures ToText(rows) == ToText(rows[..y]) + (RowText(rows[y]) + ToText(rows[y + 1..]))
  {
    var before, after := rows[..y], rows[y + 1..];
    SplitRows(rows, y);
    TextAppend(before, [rows[y]] + after);
    TextAppend([rows[y]], after);
    TextOfOneRow(rows[y]);
  }

  /** A grid is the rows above `y`, row `y`, and the rows below. */
  lemma SplitRows(rows: seq<seq<char>>, y: nat)
    requires y < |rows|
    ensures rows == rows[..y] + ([rows[y]] + rows[y + 1..])
  {
  }

  /** The text of a one-row grid is that row's text. */
  lemma TextOfOneRow(row: seq<char>)
    ensures ToText([row]) == RowText(row)
  {
    assert [row][1..] == [];
  }

  /** The middle part of `a + (b + c)` is `b`. */
  lemma MiddleSlice(a: string, b: string, c: string)
    ensures |a| + |b| <= |a + (b + c)|
    ensures (a + (b + c))[|a|..|a| + |b|] == b
  {
  }

  /** Row `y` of a rectangular grid occupies the `y`-th block of `2 * width + 1` chars of its text. */
  lemma {:induction false} TextRowBlock(rows: seq<seq<char>>, width: nat, y: nat)
    requires Rectangular(rows, width) && y < |rows|
    ensures |ToText(rows)| == |rows| * (2 * width + 1)
    ensures y * (2 * width + 1) + 2 * width + 1 <= |ToText(rows)|
    ensures ToText(rows)[y * (2 * width + 1)..y * (2 * width + 1) + 2 * width + 1] == RowText(rows[y])
  {
    TextLength(rows, width);
    BlockFits(y, |rows|, 2 * width + 1);
    TextAround(rows, y);
    assert Rectangular(rows[..y], width);
    TextLength(rows[..y], width);
    MiddleSlice(ToText(rows[..y]), RowText(rows[y]), ToText(rows[y + 1..]));
  }

  /** Row `y` of a rectangular grid ends with a line break at offset `y * (2w + 1) + 2w`, whatever the width. */
  lemma TextLineBreak(rows: seq<seq<char>>, width: nat, y: nat)
    requires Rectangular(rows, width) && y < |rows|
    ensures y * (2 * width + 1) + 2 * width < |ToText(rows)|
    ensures ToText(rows)[y * (2 * width + 1) + 2 * width] == '\n'
  {
    TextRowBlock(rows, width, y);
    SliceEndsInBreak(ToText(rows), y * (2 * width + 1), 2 * width + 1, RowText(rows[y]));
  }

  /** A block of text that ends in a line break puts that line break at its last offset in the whole text. */
  lemma SliceEndsInBreak(t: string, base: nat, len: nat, block: string)
    requires 0 < len && base + len <= |t| && t[base..base + len] == block && block[len - 1] == '\n'
    ensures t[base + len - 1] == '\n'
  {
    assert t[base + len - 1] == t[base..base + len][len - 1];
  }

  /** In a text of rows `2 * width + 1` chars long, a line break ends row `y`. */
  predicate LineBreakInText(s: string, width: nat, y: nat)
  {
    y * (2 * width + 1) + 2 * width < |s| && s[y * (2 * width + 1) + 2 * width] == '\n'
  }

  /** `TextLineBreak` for every row at once. */
  lemma TextLineBreaks(rows: seq<seq<char>>, width: nat)
    requires Rectangular(rows, width)
    ensures forall y: nat :: y < |rows| ==> LineBreakInText(ToText(rows), width, y)
  {
    forall y: nat | y < |rows|
      ensures LineBreakInText(ToText(rows), width, y)
    {
      TextLineBreak(rows, width, y);
    }
  }

  /**
   * Where each cell lands in the text: cell (x, y) at `y * (2w + 1) + 2x`, a
   * space after it, and the line break at the end of each row.
   */
  lemma {:induction false} TextAt(rows: seq<seq<char>>, width: nat, y: nat, x: nat)
    requires Rectangular(rows, width) && y < |rows| && x < width
    ensures |ToText(rows)| == |rows| * (2 * width + 1)
    ensures 0 <= y * (2 * width + 1)
    ensures y * (2 * width + 1) + 2 * width + 1 <= |ToText(rows)|
    ensures ToText(rows)[y * (2 * width + 1) + 2 * x] == rows[y][x]
    ensures ToText(rows)[y * (2 * width + 1) + 2 * x + 1] == ' '
    ensures ToText(rows)[y * (2 * width + 1) + 2 * width] == '\n'
  {
    TextRowBlock(rows, width, y);
    SpacedAt(rows[y], x);
    var base := y * (2 * width + 1);
    var t := ToText(rows);
    var block := t[base..base + 2 * width + 1];
    assert block == Spaced(rows[y]) + "\n";
    assert t[base + 2 * x] == block[2 * x];
    assert t[base + 2 * x + 1] == block[2 * x + 1];
    assert t[base + 2 * width] == block[2 * width];
  }

  /**
   * In a text of rows `2 * width + 1` chars long, cell (x, y) holds `c`, a
   * space follows it and a line break ends its row.
   */
  predicate CellInText(s: string, width: nat, y: nat, x: nat, c: char)
  {
    && x < width
    && y * (2 * width + 1) + 2 * width < |s|
    && s[y * (2 * width + 1) + 2 * x] == c
    && s[y * (2 * width + 1) + 2 * x + 1] == ' '
    && s[y * (2 * width + 1) + 2 * width] == '\n'
  }

  /** `TextAt` for every cell at once. */
  lemma TextCells(rows: seq<seq<char>>, width: nat)
    requires Rectangular(rows, width)
    ensures forall y: nat, x: nat :: y < |rows| && x < width ==> CellInText(ToText(rows), width, y, x, rows[y][x])
  {
    forall y: nat, x: nat | y < |rows| && x < width
      ensures CellInText(ToText(rows), width, y, x, rows[y][x])
    {
      TextAt(rows, width, y, x);
    }
  }

  /** A fixed `width x height` grid of chars, `data[y, x]` holding cell (x, y). */
  class CharBuffer {
    const data: array2<char>
    /** `(width, height)`, as the source records it beside the rows. */
    const dimensions: (nat, nat)

    predicate Valid()
    {
      dimensions == (data.Length1, data.Length0)
    }

    /** The rows as sequences, row 0 first: the source's `Vec<Vec<char>>`. */
    function Rows(): (rows: seq<seq<char>>)
      reads data
      ensures |rows| == data.Length0 && Rectangular(rows, data.Length1)
      ensures forall y, x :: 0 <= y < data.Length0 && 0 <= x < data.Length1 ==> rows[y][x] == data[y, x]
    {
      seq(data.Length0, y reads data requires 0 <= y < data.Length0 =>
        seq(data.Length1, x reads data requires 0 <= x < data.Length1 => data[y, x]))
    }

    /** `CharBuffer::new`: `height` rows of `width` spaces. */
    constructor (width: nat, height: nat)
      ensures Valid() && dimensions == (width, height) && fresh(data)
      ensures forall y, x :: 0 <= y < height && 0 <= x < width ==> data[y, x] == ' '
      ensures Rows() == seq(height, y => seq(width, x => ' '))
    {
      dimensions := (width, height);
      data := new char[height, width]((y, x) => ' ');
      new;
      SameGrid(Rows(), seq(height, y => seq(width, x => ' ')), width);
    }

    /** `get_char`: the cell at column `x` of row `y`, or `None` when either is out of range. */
    function GetChar(x: nat, y: nat): (r: Option<char>)
      reads data
      requires Valid()
      ensures r.Some? <==> y < dimensions.1 && x < dimensions.0
      ensures r.Some? ==> r.value == data[y, x]
    {
      var rows := Rows();
      if y < |rows| && x < |rows[y]| then Some(rows[y][x]) else None
    }

    /**
     * `set_char`: writes one cell. The row is checked first, so a write with
     * both coordinates out of range reports the row; a refused write changes nothing.
     */
    method SetChar(x: nat, y: nat, value: char) returns (r: Result<(), string>)
      requires Valid()
      modifies data
      ensures y >= dimensions.1 ==> r == Err(RowMissing)
      ensures y < dimensions.1 && x >= dimensions.0 ==> r == Err(ItemMissing)
      ensures r.Ok? <==> y < dimensions.1 && x < dimensions.0
      ensures r.Ok? ==> GetChar(x, y) == Some(value)
      ensures Rows() == if r.Ok? then old(Rows())[y := old(Rows())[y][x := value]] else old(Rows())
      ensures forall j, i :: 0 <= j < data.Length0 && 0 <= i < data.Length1 ==>
                data[j, i] == if r.Ok? && j == y && i == x then value else old(data[j, i])
    {
      if y >= data.Length0 {
        return Err(RowMissing);
      }
      if x >= data.Length1 {
        return Err(ItemMissing);
      }
      ghost var before := Rows();
      data[y, x] := value;
      r := Ok(());
      SameGrid(Rows(), before[y := before[y][x := value]], data.Length1);
    }

    /** `fill`: every cell becomes `c`; the shape is fixed by construction. */
    method Fill(c: char)
      requires Valid()
      modifies data
      ensures forall y, x :: 0 <= y < data.Length0 && 0 <= x < data.Length1 ==> data[y, x] == c
    {
      var y := 0;
      while y < data.Length0
        invariant 0 <= y <= data.Length0
        invariant forall j, i :: 0 <= j < y && 0 <= i < data.Length1 ==> data[j, i] == c
      {
        var x := 0;
        while x < data.Length1
          invariant 0 <= x <= data.Length1
          invariant forall j, i :: 0 <= j < y && 0 <= i < data.Length1 ==> data[j, i] == c
          invariant forall i :: 0 <= i < x ==> data[y, i] == c
        {
          data[y, x] := c;
          x := x + 1;
        }
        y := y + 1;
      }
    }

    /**
     * The `Display` text of the grid: `height` lines of `2 * width + 1` chars,
     * cell (x, y) at `y * (2 * width + 1) + 2 * x`, a space after each cell and
     * a line break closing each row, also when the grid has no columns.
     */
    function Text(): (s: string)
      reads data
      requires Valid()
      ensures |s| == dimensions.1 * (2 * dimensions.0 + 1)
      ensures forall y: nat, x: nat :: y < dimensions.1 && x < dimensions.0 ==>
                CellInText(s, dimensions.0, y, x, data[y, x])
      ensures forall y: nat :: y < dimensions.1 ==> LineBreakInText(s, dimensions.0, y)
    {
      var rows := Rows();
      TextLength(rows, data.Length1);
      TextCells(rows, data.Length1);
      TextLineBreaks(rows, data.Length1);
      ToText(rows)
    }
  }

  /** The unit test `char_retreival`: a write at (2, 2) of a 3 x 3 grid succeeds and reads back. */
  method CharRetrieval() returns (written: Result<(), string>, c: Option<char>)
    ensures written.Ok? && c == Some('x')
  {
    var buf := new CharBuffer(3, 3);
    written := buf.SetChar(2, 2, 'x');
    c := buf.GetChar(2, 2);
  }

  /** The unit test `char_setter_bounds_check`: (2, 2) on a 2 x 2 grid fails, at the row. */
  method CharSetterBoundsCheck() returns (r: Result<(), string>)
    ensures r == Err(RowMissing)
  {
    var buf := new CharBuffer(2, 2);
    r := buf.SetChar(2, 2, 'x');
  }

  /** The unit test `char_getter_bounds_check`: (2, 2) on a 2 x 2 grid reads nothing. */
  method CharGetterBoundsCheck() returns (c: Option<char>)
    ensures c == None
  {
    var buf := new CharBuffer(2, 2);
    c := buf.GetChar(2, 2);
  }

  /** Two rectangular grids of one shape that agree on every cell are equal. */
  lemma SameGrid(a: seq<seq<char>>, b: seq<seq<char>>, width: nat)
    requires |a| == |b| && Rectangular(a, width) && Rectangular(b, width)
    requires forall y, x :: 0 <= y < |a| && 0 <= x < width ==> a[y][x] == b[y][x]
    ensures a == b
  {
    forall y | 0 <= y < |a|
      ensures a[y] == b[y]
    {
      assert forall x :: 0 <= x < width ==> a[y][x] == b[y][x];
    }
  }

  /** A three-cell row is its cells, each followed by a space, then a newline. */
  lemma RowTextOfThree(a: char, b: char, c: char)
    ensures RowText([a, b, c]) == [a, ' ', b, ' ', c, ' ', '\n']
  {
    assert [a, b, c][1..] == [b, c];
    assert [b, c][1..] == [c];
    assert [c][1..] == [];
    assert Spaced([c]) == [c, ' '];
    assert Spaced([b, c]) == [b, ' ', c, ' '];
    assert Spaced([a, b, c]) == [a, ' ', b, ' ', c, ' '];
  }

  /** A grid of three rows is the three row texts one after another. */
  lemma ToTextOfThree(r0: seq<char>, r1: seq<char>, r2: seq<char>)
    ensures ToText([r0, r1, r2]) == RowText(r0) + RowText(r1) + RowText(r2)
  {
    assert [r0, r1, r2][1..] == [r1, r2];
    assert [r1, r2][1..] == [r2];
    assert [r2][1..] == [];
    assert ToText([r2]) == RowText(r2);
    assert ToText([r1, r2]) == RowText(r1) + RowText(r2);
  }

  /** The text of the grid in the unit test `char_buf_to_string`. */
  lemma SampleText()
    ensures ToText([['n', ' ', ' '], [' ', ' ', 'x'], [' ', ' ', 'z']]) == "n     \n    x \n    z \n"
  {
    ToTextOfThree(['n', ' ', ' '], [' ', ' ', 'x'], [' ', ' ', 'z']);
    RowTextOfThree('n', ' ', ' ');
    RowTextOfThree(' ', ' ', 'x');
    RowTextOfThree(' ', ' ', 'z');
  }

  /** The unit test `char_buf_to_string`: the exact text of a 3 x 3 grid with three chars set. */
  method CharBufToString() returns (s: string)
    ensures s == "n     \n    x \n    z \n"
  {
    var buf := new CharBuffer(3, 3);
    var blank := [' ', ' ', ' '];
    assert seq(3, x => ' ') == blank;
    assert buf.Rows() == [blank, blank, blank];
    var r0 := buf.SetChar(0, 0, 'n');
    assert r0.Ok? && blank[0 := 'n'] == ['n', ' ', ' '];
    assert buf.Rows() == [['n', ' ', ' '], blank, blank];
    var r1 := buf.SetChar(2, 1, 'x');
    assert r1.Ok? && blank[2 := 'x'] == [' ', ' ', 'x'];
    assert buf.Rows() == [['n', ' ', ' '], [' ', ' ', 'x'], blank];
    var r2 := buf.SetChar(2, 2, 'z');
    assert r2.Ok? && blank[2 := 'z'] == [' ', ' ', 'z'];
    assert buf.Rows() == [['n', ' ', ' '], [' ', ' ', 'x'], [' ', ' ', 'z']];
    s := buf.Text();
    SampleText();
  }
}
