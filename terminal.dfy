/** The part of a curses window that item rendering relies on: attribute
    words, the `addnstr` instructions a window receives, and a window that
    records those instructions and tracks its cursor the way `getyx` reports it. */
module Terminal {

  /** The colour pairs of the program's `Color` constants; `Default` is no colour pair. */
  datatype Color = Default | Red | Green | Yellow | Blue | Magenta | Cyan

  /** A curses attribute word: the A_BOLD and A_UNDERLINE bits and one colour pair. */
  datatype Attr = Attr(bold: bool, underline: bool, color: Color)

  /** A_NORMAL. A write that passes no attribute argument uses the window's
      current attributes; the model takes those to be A_NORMAL. */
  const Normal := Attr(false, false, Default)

  /** A_BOLD. */
  const Bold := Attr(true, false, Default)

  /** One `addnstr` call: at most `maxlen` characters of `text`, starting at (row, col). */
  datatype Draw = Draw(row: int, col: int, text: string, maxlen: int, attr: Attr)

  /** The number of cells a write of `text` limited to `n` characters fills;
      a negative limit places no bound, as in curses. */
  function Written(text: string, n: int): (k: nat)
    ensures k <= |text|
    ensures 0 <= n ==> k <= n
    ensures k == |text| || k == n
  {
    if n < 0 || |text| <= n then |text| else n
  }

  /** The column just past the last cell that `d` fills: where the cursor stands after it. */
  function EndCol(d: Draw): int
  {
    d.col + Written(d.text, d.maxlen)
  }

  /** The cursor position after the writes `ds`, starting from (y0, x0). */
  function CursorAfter(y0: int, x0: int, ds: seq<Draw>): (int, int)
  {
    if ds == [] then (y0, x0) else (ds[|ds| - 1].row, EndCol(ds[|ds| - 1]))
  }

  /** A window of `height` rows and `width` columns (what `getmaxyx` returns),
      its cursor (what `getyx` returns) and the writes it has received so far. */
  class Window {
    const height: nat
    const width: nat
    var y: int
    var x: int
    var drawn: seq<Draw>

    constructor (height: nat, width: nat)
      ensures this.height == height && this.width == width
      ensures y == 0 && x == 0 && drawn == []
    {
      this.height := height;
      this.width := width;
      y, x := 0, 0;
      drawn := [];
    }

    /** `addnstr(row, col, text, n, attr)`: moves the cursor to (row, col) and
        writes at most `n` characters, leaving the cursor after the last one. */
    method AddNStrAt(row: int, col: int, text: string, n: int, attr: Attr)
      modifies this
      ensures drawn == old(drawn) + [Draw(row, col, text, n, attr)]
      ensures y == row && x == col + Written(text, n)
    {
      drawn := drawn + [Draw(row, col, text, n, attr)];
      y, x := row, col + Written(text, n);
    }

    /** `addnstr(text, n, attr)`: the same write at the current cursor. */
    method AddNStr(text: string, n: int, attr: Attr)
      modifies this
      ensures drawn == old(drawn) + [Draw(old(y), old(x), text, n, attr)]
      ensures y == old(y) && x == old(x) + Written(text, n)
    {
      drawn := drawn + [Draw(y, x, text, n, attr)];
      x := x + Written(text, n);
    }
  }
}
