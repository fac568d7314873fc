/** The layout of one listing entry in its window (`SubredditPage.draw_item`):
    which rows it occupies, where each text fragment starts, how long it may
    be, and which attribute it is written with. `ItemLayout` is the
    specification; `DrawItem` issues the same writes one by one to a `Window`. */
module Layout {
  import opened Terminal

  /** `data['likes']`: None when the user has not voted, True after an upvote, False after a downvote. */
  datatype Vote = Neutral | Upvoted | Downvoted

  /** The vote glyphs among the program's `Symbol` constants. */
  datatype Glyph = Bullet | UpArrow | DownArrow

  /** What the `Symbol` class supplies: the sanitiser `Symbol.clean` and the text of each glyph. */
  datatype Symbols = Symbols(clean: string -> string, glyph: Glyph -> string)

  /** The display fields of one listing entry, each already formatted as text;
      `nRows` is the row count the entry announces for itself. */
  datatype ItemData = ItemData(
    splitTitle: seq<string>,
    url: string,
    urlFull: string,
    score: string,
    likes: Vote,
    created: string,
    comments: string,
    author: string,
    subreddit: string,
    flair: string,
    nRows: int)

  /** One fragment of a row: its text and the attribute it is written with. */
  datatype Fragment = Fragment(text: string, attr: Attr)

  /** The row of the window on which the entry's first row lands. Inverted
      drawing anchors the entry's last row to the window's last row. */
  function Offset(nRows: int, height: int, inverted: bool): (r: int)
    ensures !inverted ==> r == 0
    ensures inverted ==> nRows - 1 + r == height - 1
  {
    if inverted then -(nRows - height) else 0
  }

  /** The glyph shown for a vote state: each state has its own glyph. */
  function VoteGlyph(v: Vote): (g: Glyph)
    ensures v == Neutral <==> g == Bullet
    ensures v == Upvoted <==> g == UpArrow
    ensures v == Downvoted <==> g == DownArrow
  {
    match v
    case Neutral => Bullet
    case Upvoted => UpArrow
    case Downvoted => DownArrow
  }

  /** The attribute of the vote glyph: always bold, green for an upvote, red for a downvote. */
  function VoteAttr(v: Vote): (a: Attr)
    ensures a.bold && !a.underline
    ensures v == Neutral <==> a.color == Default
    ensures v == Upvoted <==> a.color == Green
    ensures v == Downvoted <==> a.color == Red
  {
    match v
    case Neutral => Bold
    case Upvoted => Attr(true, false, Green)
    case Downvoted => Attr(true, false, Red)
  }

  /** The attribute of the link row: underlined, magenta once the link has been opened, blue before. */
  function LinkAttr(seen: bool): (a: Attr)
    ensures a.underline && !a.bold
    ensures a.color == Magenta <==> seen
    ensures a.color == Blue <==> !seen
  {
    Attr(false, true, if seen then Magenta else Blue)
  }

  function UrlFragments(data: ItemData, visited: set<string>, sym: Symbols): seq<Fragment>
  {
    [Fragment(sym.clean(data.url), LinkAttr(data.urlFull in visited))]
  }

  function ScoreFragments(data: ItemData, sym: Symbols): seq<Fragment>
  {
    [Fragment(sym.clean(data.score + " "), Normal),
     Fragment(sym.glyph(VoteGlyph(data.likes)), VoteAttr(data.likes)),
     Fragment(sym.clean(" " + data.created + " " + data.comments), Normal)]
  }

  function AuthorFragments(data: ItemData, sym: Symbols): seq<Fragment>
  {
    [Fragment(sym.clean(data.author), Bold),
     Fragment(sym.clean(" " + data.subreddit), Attr(false, false, Yellow)),
     Fragment(sym.clean(" " + data.flair), Attr(false, false, Red))]
  }

  /** The writes of `frags` on `row`, left to right from column `x`, in a
      window whose last usable column is `nCols`: each fragment starts where
      the previous one ended and may use the columns that remain. */
  function Pack(row: int, x: int, nCols: int, frags: seq<Fragment>): (r: seq<Draw>)
    ensures |r| == |frags|
    decreases |frags|
  {
    if frags == [] then []
    else
      var n := nCols - x;
      [Draw(row, x, frags[0].text, n, frags[0].attr)] + Pack(row, x + Written(frags[0].text, n), nCols, frags[1..])
  }

  /** Every write of `ds` is on `row`, starts between column `x` and column
      `nCols`, and is limited to the columns left before column `nCols`. */
  ghost predicate Packed(ds: seq<Draw>, row: int, x: int, nCols: int)
  {
    forall i :: 0 <= i < |ds| ==> ds[i].row == row && x <= ds[i].col <= nCols && ds[i].maxlen == nCols - ds[i].col
  }

  lemma {:induction false} PackShape(row: int, x: int, nCols: int, frags: seq<Fragment>)
    requires 0 <= x <= nCols
    ensures Packed(Pack(row, x, nCols, frags), row, x, nCols)
    decreases |frags|
  {
    if frags != [] {
      var n := nCols - x;
      var x' := x + Written(frags[0].text, n);
      PackShape(row, x', nCols, frags[1..]);
      var p := Pack(row, x, nCols, frags);
      assert p == [Draw(row, x, frags[0].text, n, frags[0].attr)] + Pack(row, x', nCols, frags[1..]);
      assert forall i :: 1 <= i < |p| ==> p[i] == Pack(row, x', nCols, frags[1..])[i - 1];
    }
  }

  /** The three writes of a row of three fragments starting at column 1. */
  lemma PackThree(row: int, nCols: int, frags: seq<Fragment>)
    requires |frags| == 3
    ensures var p := Pack(row, 1, nCols, frags);
      |p| == 3 &&
      p[0] == Draw(row, 1, frags[0].text, nCols - 1, frags[0].attr) &&
      p[1] == Draw(row, EndCol(p[0]), frags[1].text, nCols - EndCol(p[0]), frags[1].attr) &&
      p[2] == Draw(row, EndCol(p[1]), frags[2].text, nCols - EndCol(p[1]), frags[2].attr)
  {
    var d0 := Draw(row, 1, frags[0].text, nCols - 1, frags[0].attr);
    var d1 := Draw(row, EndCol(d0), frags[1].text, nCols - EndCol(d0), frags[1].attr);
    var d2 := Draw(row, EndCol(d1), frags[2].text, nCols - EndCol(d1), frags[2].attr);
    assert frags[1..][1..] == frags[2..];
    assert Pack(row, EndCol(d1), nCols, frags[2..])[0] == d2;
    assert Pack(row, EndCol(d0), nCols, frags[1..])[0] == d1;
    assert Pack(row, 1, nCols, frags)[0] == d0;
    assert Pack(row, 1, nCols, frags)[1..] == Pack(row, EndCol(d0), nCols, frags[1..]);
    assert Pack(row, EndCol(d0), nCols, frags[1..])[1..] == Pack(row, EndCol(d1), nCols, frags[2..]);
  }

  /** The writes of the title lines: line `k` on row `offset + k`, bold, from
      column 1, skipped when that row is outside the window. */
  function TitleLines(titles: seq<string>, offset: int, height: int, nCols: int, clean: string -> string): (r: seq<Draw>)
    ensures |r| <= |titles|
    ensures height <= 0 ==> r == []
    decreases |titles|
  {
    if titles == [] then []
    else
      var k := |titles| - 1;
      TitleLines(titles[..k], offset, height, nCols, clean) +
      (if 0 <= offset + k < height then [Draw(offset + k, 1, clean(titles[k]), nCols - 1, Bold)] else [])
  }

  /** Every write of `ds` is a bold write from column 1, limited to
      `nCols - 1`, on a row of the window between `offset` and `offset + n - 1`. */
  ghost predicate TitleShaped(ds: seq<Draw>, offset: int, n: int, height: int, nCols: int)
  {
    forall i :: 0 <= i < |ds| ==>
      0 <= ds[i].row < height && offset <= ds[i].row < offset + n &&
      ds[i].col == 1 && ds[i].maxlen == nCols - 1 && ds[i].attr == Bold
  }

  lemma {:induction false} TitleLinesShape(titles: seq<string>, offset: int, height: int, nCols: int, clean: string -> string)
    ensures TitleShaped(TitleLines(titles, offset, height, nCols, clean), offset, |titles|, height, nCols)
    decreases |titles|
  {
    if titles != [] {
      var k := |titles| - 1;
      TitleLinesShape(titles[..k], offset, height, nCols, clean);
      var prefix := TitleLines(titles[..k], offset, height, nCols, clean);
      var tail := if 0 <= offset + k < height then [Draw(offset + k, 1, clean(titles[k]), nCols - 1, Bold)] else [];
      var r := TitleLines(titles, offset, height, nCols, clean);
      assert r == prefix + tail;
      assert |titles[..k]| == k;
      forall i | 0 <= i < |r|
        ensures 0 <= r[i].row < height && offset <= r[i].row < offset + |titles| &&
          r[i].col == 1 && r[i].maxlen == nCols - 1 && r[i].attr == Bold
      {
        if i < |prefix| {
          assert r[i] == prefix[i];
        } else {
          assert r[i] == tail[i - |prefix|];
        }
      }
    }
  }

  /** A packed row that is drawn only when it falls inside the window. */
  function RowDraws(row: int, height: int, nCols: int, frags: seq<Fragment>): seq<Draw>
  {
    if 0 <= row < height then Pack(row, 1, nCols, frags) else []
  }

  lemma RowDrawsShape(row: int, height: int, nCols: int, frags: seq<Fragment>)
    requires 1 <= nCols
    ensures 0 <= row < height ==> Packed(RowDraws(row, height, nCols, frags), row, 1, nCols)
    ensures !(0 <= row < height) ==> RowDraws(row, height, nCols, frags) == []
  {
    if 0 <= row < height {
      PackShape(row, 1, nCols, frags);
      assert RowDraws(row, height, nCols, frags) == Pack(row, 1, nCols, frags);
    }
  }

  /** Every write `draw_item` issues for `data` in a window of `height` rows
      and `width` columns, given the set of links opened so far. */
  function ItemLayout(data: ItemData, height: int, width: int, inverted: bool, visited: set<string>, sym: Symbols): (r: seq<Draw>)
    ensures height <= 0 ==> r == []
  {
    var nCols := width - 1;
    var offset := Offset(data.nRows, height, inverted);
    var nTitle := |data.splitTitle|;
    TitleLines(data.splitTitle, offset, height, nCols, sym.clean) +
    RowDraws(nTitle + offset, height, nCols, UrlFragments(data, visited, sym)) +
    RowDraws(nTitle + offset + 1, height, nCols, ScoreFragments(data, sym)) +
    RowDraws(nTitle + offset + 2, height, nCols, AuthorFragments(data, sym))
  }

  /** `ItemLayout` as its four bands: the titles from row `offset`, then the
      link, score and author rows from row `base` on. */
  lemma LayoutSplit(data: ItemData, height: int, width: int, inverted: bool, visited: set<string>, sym: Symbols,
                    offset: int, base: int, nCols: int, t: seq<Draw>, u: seq<Draw>, s: seq<Draw>, a: seq<Draw>)
    requires offset == Offset(data.nRows, height, inverted) && base == |data.splitTitle| + offset && nCols == width - 1
    requires t == TitleLines(data.splitTitle, offset, height, nCols, sym.clean)
    requires u == RowDraws(base, height, nCols, UrlFragments(data, visited, sym))
    requires s == RowDraws(base + 1, height, nCols, ScoreFragments(data, sym))
    requires a == RowDraws(base + 2, height, nCols, AuthorFragments(data, sym))
    ensures ItemLayout(data, height, width, inverted, visited, sym) == t + u + s + a
  {
  }

  /** Every write of `ds` lies inside a window of `height` rows, on a row from
      `lo` to `hi - 1`, starts at column 1 or later, and is limited to the
      columns left before column `nCols`, so that it ends there at the latest. */
  ghost predicate Within(ds: seq<Draw>, height: int, lo: int, hi: int, nCols: int)
  {
    forall i :: 0 <= i < |ds| ==>
      0 <= ds[i].row < height && lo <= ds[i].row < hi &&
      1 <= ds[i].col <= nCols && ds[i].maxlen == nCols - ds[i].col && EndCol(ds[i]) <= nCols
  }

  lemma WithinFour(r: seq<Draw>, t: seq<Draw>, u: seq<Draw>, s: seq<Draw>, a: seq<Draw>, height: int, lo: int, hi: int, nCols: int)
    requires r == t + u + s + a
    requires Within(t, height, lo, hi, nCols) && Within(u, height, lo, hi, nCols)
    requires Within(s, height, lo, hi, nCols) && Within(a, height, lo, hi, nCols)
    ensures Within(r, height, lo, hi, nCols)
  {
    forall i | 0 <= i < |r|
      ensures 0 <= r[i].row < height && lo <= r[i].row < hi &&
        1 <= r[i].col <= nCols && r[i].maxlen == nCols - r[i].col && EndCol(r[i]) <= nCols
    {
      if i < |t| {
        assert r[i] == t[i];
      } else if i < |t| + |u| {
        assert r[i] == u[i - |t|];
      } else if i < |t| + |u| + |s| {
        assert r[i] == s[i - |t| - |u|];
      } else {
        assert r[i] == a[i - |t| - |u| - |s|];
      }
    }
  }

  lemma RowWithin(row: int, height: int, lo: int, hi: int, nCols: int, frags: seq<Fragment>)
    requires 1 <= nCols && lo <= row < hi
    ensures Within(RowDraws(row, height, nCols, frags), height, lo, hi, nCols)
  {
    RowDrawsShape(row, height, nCols, frags);
  }

  lemma TitleWithin(titles: seq<string>, offset: int, height: int, nCols: int, clean: string -> string, hi: int)
    requires 1 <= nCols && offset + |titles| <= hi
    ensures Within(TitleLines(titles, offset, height, nCols, clean), height, offset, hi, nCols)
  {
    TitleLinesShape(titles, offset, height, nCols, clean);
  }

  /** The four bands of an entry whose titles start on row `offset` all lie within its rows and columns. */
  lemma BandsWithin(data: ItemData, height: int, nCols: int, visited: set<string>, sym: Symbols, offset: int, base: int, hi: int)
    requires 1 <= nCols && base == |data.splitTitle| + offset && hi == base + 3
    ensures Within(TitleLines(data.splitTitle, offset, height, nCols, sym.clean) +
                   RowDraws(base, height, nCols, UrlFragments(data, visited, sym)) +
                   RowDraws(base + 1, height, nCols, ScoreFragments(data, sym)) +
                   RowDraws(base + 2, height, nCols, AuthorFragments(data, sym)), height, offset, hi, nCols)
  {
    var t := TitleLines(data.splitTitle, offset, height, nCols, sym.clean);
    var u := RowDraws(base, height, nCols, UrlFragments(data, visited, sym));
    var s := RowDraws(base + 1, height, nCols, ScoreFragments(data, sym));
    var a := RowDraws(base + 2, height, nCols, AuthorFragments(data, sym));
    TitleWithin(data.splitTitle, offset, height, nCols, sym.clean, hi);
    RowWithin(base, height, offset, hi, nCols, UrlFragments(data, visited, sym));
    RowWithin(base + 1, height, offset, hi, nCols, ScoreFragments(data, sym));
    RowWithin(base + 2, height, offset, hi, nCols, AuthorFragments(data, sym));
    WithinFour(t + u + s + a, t, u, s, a, height, offset, hi, nCols);
  }

  /** No write lands on a row outside the window, nor outside the entry's own
      rows (its titles and the three rows below them); and every write starts
      at column 1 or later and is limited so that it ends by column
      `width - 1`: column 0 and the last column are never written. */
  lemma InWindow(data: ItemData, height: int, width: int, inverted: bool, visited: set<string>, sym: Symbols)
    requires width >= 2
    ensures Within(ItemLayout(data, height, width, inverted, visited, sym), height,
                   Offset(data.nRows, height, inverted), Offset(data.nRows, height, inverted) + |data.splitTitle| + 3, width - 1)
  {
    var offset := Offset(data.nRows, height, inverted);
    var base := |data.splitTitle| + offset;
    var nCols := width - 1;
    BandsWithin(data, height, nCols, visited, sym, offset, base, base + 3);
    LayoutSplit(data, height, width, inverted, visited, sym, offset, base, nCols,
                TitleLines(data.splitTitle, offset, height, nCols, sym.clean),
                RowDraws(base, height, nCols, UrlFragments(data, visited, sym)),
                RowDraws(base + 1, height, nCols, ScoreFragments(data, sym)),
                RowDraws(base + 2, height, nCols, AuthorFragments(data, sym)));
  }

  /** The writes of `ds` that land on `row`, in order. */
  function DrawsAt(ds: seq<Draw>, row: int): (r: seq<Draw>)
    decreases |ds|
  {
    if ds == [] then []
    else (if ds[0].row == row then [ds[0]] else []) + DrawsAt(ds[1..], row)
  }

  lemma {:induction false} DrawsAtConcat(a: seq<Draw>, b: seq<Draw>, row: int)
    ensures DrawsAt(a + b, row) == DrawsAt(a, row) + DrawsAt(b, row)
    decreases |a|
  {
    if a != [] {
      assert (a + b)[0] == a[0];
      assert (a + b)[1..] == a[1..] + b;
      DrawsAtConcat(a[1..], b, row);
    } else {
      assert a + b == b;
    }
  }

  lemma {:induction false} DrawsAtNone(ds: seq<Draw>, row: int)
    requires forall i :: 0 <= i < |ds| ==> ds[i].row != row
    ensures DrawsAt(ds, row) == []
    decreases |ds|
  {
    if ds != [] {
      assert forall i :: 0 <= i < |ds[1..]| ==> ds[1..][i] == ds[i + 1];
      DrawsAtNone(ds[1..], row);
    }
  }

  lemma {:induction false} DrawsAtAll(ds: seq<Draw>, row: int)
    requires forall i :: 0 <= i < |ds| ==> ds[i].row == row
    ensures DrawsAt(ds, row) == ds
    decreases |ds|
  {
    if ds != [] {
      assert forall i :: 0 <= i < |ds[1..]| ==> ds[1..][i] == ds[i + 1];
      DrawsAtAll(ds[1..], row);
    }
  }

  /** Four bands of writes: `t` above row `base`, then `u`, `s` and `a` on the three rows from `base` on. */
  lemma DrawsAtBands(t: seq<Draw>, u: seq<Draw>, s: seq<Draw>, a: seq<Draw>, base: int, row: int)
    requires forall i :: 0 <= i < |t| ==> t[i].row < base
    requires forall i :: 0 <= i < |u| ==> u[i].row == base
    requires forall i :: 0 <= i < |s| ==> s[i].row == base + 1
    requires forall i :: 0 <= i < |a| ==> a[i].row == base + 2
    ensures row < base ==> DrawsAt(t + u + s + a, row) == DrawsAt(t, row)
    ensures row == base ==> DrawsAt(t + u + s + a, row) == u
    ensures row == base + 1 ==> DrawsAt(t + u + s + a, row) == s
    ensures row == base + 2 ==> DrawsAt(t + u + s + a, row) == a
    ensures row > base + 2 ==> DrawsAt(t + u + s + a, row) == []
  {
    DrawsAtConcat(t + u + s, a, row);
    DrawsAtConcat(t + u, s, row);
    DrawsAtConcat(t, u, row);
    if row != base { DrawsAtNone(u, row); } else { DrawsAtAll(u, row); }
    if row != base + 1 { DrawsAtNone(s, row); } else { DrawsAtAll(s, row); }
    if row != base + 2 { DrawsAtNone(a, row); } else { DrawsAtAll(a, row); }
    if row >= base { DrawsAtNone(t, row); }
  }

  /** Which band of an entry's writes owns each row: the titles above row
      `base`, then the link, score and author rows. */
  lemma BandRows(data: ItemData, height: int, nCols: int, visited: set<string>, sym: Symbols, offset: int, base: int, row: int)
    requires 1 <= nCols && base == |data.splitTitle| + offset
    ensures var all := TitleLines(data.splitTitle, offset, height, nCols, sym.clean) +
                       RowDraws(base, height, nCols, UrlFragments(data, visited, sym)) +
                       RowDraws(base + 1, height, nCols, ScoreFragments(data, sym)) +
                       RowDraws(base + 2, height, nCols, AuthorFragments(data, sym));
      (row < base ==> DrawsAt(all, row) == DrawsAt(TitleLines(data.splitTitle, offset, height, nCols, sym.clean), row)) &&
      (row == base ==> DrawsAt(all, row) == RowDraws(row, height, nCols, UrlFragments(data, visited, sym))) &&
      (row == base + 1 ==> DrawsAt(all, row) == RowDraws(row, height, nCols, ScoreFragments(data, sym))) &&
      (row == base + 2 ==> DrawsAt(all, row) == RowDraws(row, height, nCols, AuthorFragments(data, sym))) &&
      (row > base + 2 ==> DrawsAt(all, row) == [])
  {
    var t := TitleLines(data.splitTitle, offset, height, nCols, sym.clean);
    TitleLinesShape(data.splitTitle, offset, height, nCols, sym.clean);
    RowDrawsShape(base, height, nCols, UrlFragments(data, visited, sym));
    RowDrawsShape(base + 1, height, nCols, ScoreFragments(data, sym));
    RowDrawsShape(base + 2, height, nCols, AuthorFragments(data, sym));
    DrawsAtBands(t, RowDraws(base, height, nCols, UrlFragments(data, visited, sym)),
                 RowDraws(base + 1, height, nCols, ScoreFragments(data, sym)),
                 RowDraws(base + 2, height, nCols, AuthorFragments(data, sym)), base, row);
  }

  /** The writes `ItemLayout` places on `row` come from the one band that owns that row. */
  lemma Bands(data: ItemData, height: int, width: int, inverted: bool, visited: set<string>, sym: Symbols, row: int, base: int)
    requires width >= 2
    requires base == Offset(data.nRows, height, inverted) + |data.splitTitle|
    ensures row < base ==>
      DrawsAt(ItemLayout(data, height, width, inverted, visited, sym), row) ==
      DrawsAt(TitleLines(data.splitTitle, Offset(data.nRows, height, inverted), height, width - 1, sym.clean), row)
    ensures row == base ==>
      DrawsAt(ItemLayout(data, height, width, inverted, visited, sym), row) ==
      RowDraws(row, height, width - 1, UrlFragments(data, visited, sym))
    ensures row == base + 1 ==>
      DrawsAt(ItemLayout(data, height, width, inverted, visited, sym), row) ==
      RowDraws(row, height, width - 1, ScoreFragments(data, sym))
    ensures row == base + 2 ==>
      DrawsAt(ItemLayout(data, height, width, inverted, visited, sym), row) ==
      RowDraws(row, height, width - 1, AuthorFragments(data, sym))
    ensures row > base + 2 ==>
      DrawsAt(ItemLayout(data, height, width, inverted, visited, sym), row) == []
  {
    var offset := Offset(data.nRows, height, inverted);
    var nCols := width - 1;
    BandRows(data, height, nCols, visited, sym, offset, base, row);
    LayoutSplit(data, height, width, inverted, visited, sym, offset, base, nCols,
                TitleLines(data.splitTitle, offset, height, nCols, sym.clean),
                RowDraws(base, height, nCols, UrlFragments(data, visited, sym)),
                RowDraws(base + 1, height, nCols, ScoreFragments(data, sym)),
                RowDraws(base + 2, height, nCols, AuthorFragments(data, sym)));
  }

  /** Among the title writes, row `offset + k` holds exactly the write of line
      `k` when that row is in the window, and nothing otherwise. */
  lemma {:induction false} TitleLinesAt(titles: seq<string>, offset: int, height: int, nCols: int, clean: string -> string, k: int, row: int)
    requires 0 <= k < |titles| && row == offset + k
    ensures 0 <= row < height ==>
      DrawsAt(TitleLines(titles, offset, height, nCols, clean), row) == [Draw(row, 1, clean(titles[k]), nCols - 1, Bold)]
    ensures !(0 <= row < height) ==> DrawsAt(TitleLines(titles, offset, height, nCols, clean), row) == []
    decreases |titles|
  {
    var last := |titles| - 1;
    var prefix := TitleLines(titles[..last], offset, height, nCols, clean);
    var tail := if 0 <= offset + last < height then [Draw(offset + last, 1, clean(titles[last]), nCols - 1, Bold)] else [];
    assert TitleLines(titles, offset, height, nCols, clean) == prefix + tail;
    DrawsAtConcat(prefix, tail, row);
    if k == last {
      TitleLinesShape(titles[..last], offset, height, nCols, clean);
      assert |titles[..last]| == last;
      DrawsAtNone(prefix, row);
      if 0 <= row < height {
        DrawsAtAll(tail, row);
      } else {
        assert tail == [];
      }
    } else {
      TitleLinesAt(titles[..last], offset, height, nCols, clean, k, row);
      assert titles[..last][k] == titles[k];
      DrawsAtNone(tail, row);
    }
  }

  /** Title line `k` is drawn bold on row `offset + k` from column 1 with limit
      `width - 2` when that row is in the window, and nothing else shares its row. */
  lemma TitleRow(data: ItemData, height: int, width: int, inverted: bool, visited: set<string>, sym: Symbols, k: int, row: int)
    requires width >= 2
    requires 0 <= k < |data.splitTitle| && row == Offset(data.nRows, height, inverted) + k
    ensures 0 <= row < height ==>
      DrawsAt(ItemLayout(data, height, width, inverted, visited, sym), row) == [Draw(row, 1, sym.clean(data.splitTitle[k]), width - 2, Bold)]
    ensures !(0 <= row < height) ==> DrawsAt(ItemLayout(data, height, width, inverted, visited, sym), row) == []
  {
    var offset := Offset(data.nRows, height, inverted);
    var t := TitleLines(data.splitTitle, offset, height, width - 1, sym.clean);
    Bands(data, height, width, inverted, visited, sym, row, offset + |data.splitTitle|);
    assert DrawsAt(ItemLayout(data, height, width, inverted, visited, sym), row) == DrawsAt(t, row);
    TitleLinesAt(data.splitTitle, offset, height, width - 1, sym.clean, k, row);
  }

  /** The link row follows the titles: one underlined write of the sanitised
      url, magenta exactly when the full url is among the opened links. */
  lemma LinkRow(data: ItemData, height: int, width: int, inverted: bool, visited: set<string>, sym: Symbols, row: int)
    requires width >= 2
    requires row == Offset(data.nRows, height, inverted) + |data.splitTitle|
    ensures 0 <= row < height ==>
      DrawsAt(ItemLayout(data, height, width, inverted, visited, sym), row) ==
        [Draw(row, 1, sym.clean(data.url), width - 2, Attr(false, true, if data.urlFull in visited then Magenta else Blue))]
    ensures !(0 <= row < height) ==> DrawsAt(ItemLayout(data, height, width, inverted, visited, sym), row) == []
  {
    Bands(data, height, width, inverted, visited, sym, row, row);
    var frags := UrlFragments(data, visited, sym);
    assert DrawsAt(ItemLayout(data, height, width, inverted, visited, sym), row) == RowDraws(row, height, width - 1, frags);
  }

  /** The score row follows the link row: the sanitised score, then exactly
      one vote glyph chosen by the vote state, then the sanitised age and
      comment count, each starting where the previous one ended and limited
      to the columns that remain. */
  lemma ScoreRow(data: ItemData, height: int, width: int, inverted: bool, visited: set<string>, sym: Symbols, row: int)
    requires width >= 2
    requires row == Offset(data.nRows, height, inverted) + |data.splitTitle| + 1
    ensures var ds := DrawsAt(ItemLayout(data, height, width, inverted, visited, sym), row);
      0 <= row < height ==>
        |ds| == 3 &&
        ds[0] == Draw(row, 1, sym.clean(data.score + " "), width - 2, Normal) &&
        ds[1] == Draw(row, EndCol(ds[0]), sym.glyph(VoteGlyph(data.likes)), width - 1 - EndCol(ds[0]), VoteAttr(data.likes)) &&
        ds[2] == Draw(row, EndCol(ds[1]), sym.clean(" " + data.created + " " + data.comments), width - 1 - EndCol(ds[1]), Normal)
    ensures !(0 <= row < height) ==> DrawsAt(ItemLayout(data, height, width, inverted, visited, sym), row) == []
  {
    Bands(data, height, width, inverted, visited, sym, row, row - 1);
    var frags := ScoreFragments(data, sym);
    assert DrawsAt(ItemLayout(data, height, width, inverted, visited, sym), row) == RowDraws(row, height, width - 1, frags);
    if 0 <= row < height {
      assert RowDraws(row, height, width - 1, frags) == Pack(row, 1, width - 1, frags);
      PackThree(row, width - 1, frags);
    }
  }

  /** The author row follows the score row: the sanitised author in bold, the
      subreddit in yellow and the flair in red, packed left to right. */
  lemma AuthorRow(data: ItemData, height: int, width: int, inverted: bool, visited: set<string>, sym: Symbols, row: int)
    requires width >= 2
    requires row == Offset(data.nRows, height, inverted) + |data.splitTitle| + 2
    ensures var ds := DrawsAt(ItemLayout(data, height, width, inverted, visited, sym), row);
      0 <= row < height ==>
        |ds| == 3 &&
        ds[0] == Draw(row, 1, sym.clean(data.author), width - 2, Bold) &&
        ds[1] == Draw(row, EndCol(ds[0]), sym.clean(" " + data.subreddit), width - 1 - EndCol(ds[0]), Attr(false, false, Yellow)) &&
        ds[2] == Draw(row, EndCol(ds[1]), sym.clean(" " + data.flair), width - 1 - EndCol(ds[1]), Attr(false, false, Red))
    ensures !(0 <= row < height) ==> DrawsAt(ItemLayout(data, height, width, inverted, visited, sym), row) == []
  {
    Bands(data, height, width, inverted, visited, sym, row, row - 2);
    var frags := AuthorFragments(data, sym);
    assert DrawsAt(ItemLayout(data, height, width, inverted, visited, sym), row) == RowDraws(row, height, width - 1, frags);
    if 0 <= row < height {
      assert RowDraws(row, height, width - 1, frags) == Pack(row, 1, width - 1, frags);
      PackThree(row, width - 1, frags);
    }
  }

  /** Drawn inverted, an entry whose row count is its titles plus three ends
      with its author row on the window's last row. */
  lemma InvertedShowsLastRow(data: ItemData, height: int, width: int, visited: set<string>, sym: Symbols)
    requires width >= 2 && height > 0
    requires data.nRows == |data.splitTitle| + 3
    ensures var ds := DrawsAt(ItemLayout(data, height, width, true, visited, sym), height - 1);
      |ds| == 3 && ds[0] == Draw(height - 1, 1, sym.clean(data.author), width - 2, Bold)
  {
    AuthorRow(data, height, width, true, visited, sym, height - 1);
  }

  /** Three title lines in a window of six rows fill rows 0 to 5; in a window
      of four rows the link row is the last one drawn and the score and author rows are left out. */
  lemma ThreeTitleExample(data: ItemData, width: int, visited: set<string>, sym: Symbols)
    requires width >= 2 && |data.splitTitle| == 3
    ensures forall row :: 0 <= row < 6 ==> DrawsAt(ItemLayout(data, 6, width, false, visited, sym), row) != []
    ensures DrawsAt(ItemLayout(data, 4, width, false, visited, sym), 3) != []
    ensures forall d :: d in ItemLayout(data, 4, width, false, visited, sym) ==> d.row <= 3
    ensures DrawsAt(ItemLayout(data, 4, width, false, visited, sym), 4) == []
    ensures DrawsAt(ItemLayout(data, 4, width, false, visited, sym), 5) == []
  {
    forall row | 0 <= row < 6
      ensures DrawsAt(ItemLayout(data, 6, width, false, visited, sym), row) != []
    {
      if row < 3 {
        TitleRow(data, 6, width, false, visited, sym, row, row);
      } else if row == 3 {
        LinkRow(data, 6, width, false, visited, sym, row);
      } else if row == 4 {
        ScoreRow(data, 6, width, false, visited, sym, row);
      } else {
        AuthorRow(data, 6, width, false, visited, sym, row);
      }
    }
    InWindow(data, 4, width, false, visited, sym);
    LinkRow(data, 4, width, false, visited, sym, 3);
    ScoreRow(data, 4, width, false, visited, sym, 4);
    AuthorRow(data, 4, width, false, visited, sym, 5);
  }

  /** The cursor after `a + b` is the cursor after `b` started where `a` left it. */
  lemma CursorAfterConcat(y0: int, x0: int, a: seq<Draw>, b: seq<Draw>)
    ensures CursorAfter(y0, x0, a + b) == CursorAfter(CursorAfter(y0, x0, a).0, CursorAfter(y0, x0, a).1, b)
  {
    if b == [] {
      assert a + b == a;
    } else {
      assert (a + b)[|a + b| - 1] == b[|b| - 1];
    }
  }

  /** Four writes in a row leave the cursor where the last of all four bands leaves it. */
  lemma CursorChain(y0: int, x0: int, y1: int, x1: int, y2: int, x2: int, y3: int, x3: int, y4: int, x4: int,
                    t: seq<Draw>, u: seq<Draw>, s: seq<Draw>, a: seq<Draw>)
    requires (y1, x1) == CursorAfter(y0, x0, t) && (y2, x2) == CursorAfter(y1, x1, u)
    requires (y3, x3) == CursorAfter(y2, x2, s) && (y4, x4) == CursorAfter(y3, x3, a)
    ensures (y4, x4) == CursorAfter(y0, x0, t + u + s + a)
  {
    CursorAfterConcat(y0, x0, t, u);
    CursorAfterConcat(y0, x0, t + u, s);
    CursorAfterConcat(y0, x0, t + u + s, a);
  }

  /** The title loop of `draw_item`: each title line whose row is in the window, bold from column 1. */
  method DrawTitles(win: Window, titles: seq<string>, offset: int, nCols: int, clean: string -> string) returns (ghost ds: seq<Draw>)
    modifies win
    ensures ds == TitleLines(titles, offset, win.height, nCols, clean)
    ensures win.drawn == old(win.drawn) + ds
    ensures (win.y, win.x) == CursorAfter(old(win.y), old(win.x), ds)
  {
    ds := [];
    var i := 0;
    while i < |titles|
      invariant 0 <= i <= |titles|
      invariant ds == TitleLines(titles[..i], offset, win.height, nCols, clean)
      invariant win.drawn == old(win.drawn) + ds
      invariant (win.y, win.x) == CursorAfter(old(win.y), old(win.x), ds)
    {
      assert titles[..i + 1][..i] == titles[..i];
      var row := offset + i;
      if 0 <= row < win.height {
        var text := clean(titles[i]);
        win.AddNStrAt(row, 1, text, nCols - 1, Bold);
        ds := ds + [Draw(row, 1, text, nCols - 1, Bold)];
      }
      i := i + 1;
    }
    assert titles[..|titles|] == titles;
  }

  /** The link row of `draw_item`: the sanitised url, underlined, magenta when the full url has been opened. */
  method DrawLinkRow(win: Window, data: ItemData, row: int, nCols: int, visited: set<string>, sym: Symbols) returns (ghost ds: seq<Draw>)
    modifies win
    ensures ds == RowDraws(row, win.height, nCols, UrlFragments(data, visited, sym))
    ensures win.drawn == old(win.drawn) + ds
    ensures (win.y, win.x) == CursorAfter(old(win.y), old(win.x), ds)
  {
    ds := [];
    if 0 <= row < win.height {
      var seen := data.urlFull in visited;
      var linkColor := if seen then Magenta else Blue;
      var attr := Attr(false, true, linkColor);
      var text := sym.clean(data.url);
      win.AddNStrAt(row, 1, text, nCols - 1, attr);
      ds := [Draw(row, 1, text, nCols - 1, attr)];
    }
  }

  /** The score row of `draw_item`: the score, the vote glyph at the cursor, then the age and comment count. */
  method DrawScoreRow(win: Window, data: ItemData, row: int, nCols: int, sym: Symbols) returns (ghost ds: seq<Draw>)
    modifies win
    ensures ds == RowDraws(row, win.height, nCols, ScoreFragments(data, sym))
    ensures win.drawn == old(win.drawn) + ds
    ensures (win.y, win.x) == CursorAfter(old(win.y), old(win.x), ds)
  {
    ds := [];
    if 0 <= row < win.height {
      var text := sym.clean(data.score + " ");
      win.AddNStrAt(row, 1, text, nCols - 1, Normal);
      var d0 := Draw(row, 1, text, nCols - 1, Normal);

      var glyph, attr;
      match data.likes {
        case Neutral => glyph, attr := sym.glyph(Bullet), Bold;
        case Upvoted => glyph, attr := sym.glyph(UpArrow), Attr(true, false, Green);
        case Downvoted => glyph, attr := sym.glyph(DownArrow), Attr(true, false, Red);
      }
      var d1 := Draw(row, win.x, glyph, nCols - win.x, attr);
      win.AddNStr(glyph, nCols - win.x, attr);

      text := sym.clean(" " + data.created + " " + data.comments);
      var d2 := Draw(row, win.x, text, nCols - win.x, Normal);
      win.AddNStr(text, nCols - win.x, Normal);
      PackThree(row, nCols, ScoreFragments(data, sym));
      ds := [d0, d1, d2];
    }
  }

  /** The author row of `draw_item`: the author in bold, then the subreddit and the flair at the cursor. */
  method DrawAuthorRow(win: Window, data: ItemData, row: int, nCols: int, sym: Symbols) returns (ghost ds: seq<Draw>)
    modifies win
    ensures ds == RowDraws(row, win.height, nCols, AuthorFragments(data, sym))
    ensures win.drawn == old(win.drawn) + ds
    ensures (win.y, win.x) == CursorAfter(old(win.y), old(win.x), ds)
  {
    ds := [];
    if 0 <= row < win.height {
      var text := sym.clean(data.author);
      win.AddNStrAt(row, 1, text, nCols - 1, Bold);
      var d0 := Draw(row, 1, text, nCols - 1, Bold);
      text := sym.clean(" " + data.subreddit);
      var d1 := Draw(row, win.x, text, nCols - win.x, Attr(false, false, Yellow));
      win.AddNStr(text, nCols - win.x, Attr(false, false, Yellow));
      text := sym.clean(" " + data.flair);
      var d2 := Draw(row, win.x, text, nCols - win.x, Attr(false, false, Red));
      win.AddNStr(text, nCols - win.x, Attr(false, false, Red));
      PackThree(row, nCols, AuthorFragments(data, sym));
      ds := [d0, d1, d2];
    }
  }

  /** Four writes in a row leave what was drawn before, followed by all four bands. */
  lemma DrawnChain(d0: seq<Draw>, d1: seq<Draw>, d2: seq<Draw>, d3: seq<Draw>, d4: seq<Draw>,
                   t: seq<Draw>, u: seq<Draw>, s: seq<Draw>, a: seq<Draw>)
    requires d1 == d0 + t && d2 == d1 + u && d3 == d2 + s && d4 == d3 + a
    ensures d4 == d0 + (t + u + s + a)
  {
  }

  /** `draw_item`: issues the writes of `ItemLayout`, in order, and leaves the
      cursor after the last of them. */
  method DrawItem(win: Window, data: ItemData, inverted: bool, visited: set<string>, sym: Symbols)
    requires win.width >= 2
    modifies win
    ensures win.drawn == old(win.drawn) + ItemLayout(data, win.height, win.width, inverted, visited, sym)
    ensures (win.y, win.x) == CursorAfter(old(win.y), old(win.x), ItemLayout(data, win.height, win.width, inverted, visited, sym))
  {
    var nRows: int, nCols: int := win.height, win.width;
    nCols := nCols - 1;  // column 0 is left for the cursor

    var offset := if !inverted then 0 else -(data.nRows - nRows);
    ghost var y0, x0, d0 := win.y, win.x, win.drawn;
    ghost var t := DrawTitles(win, data.splitTitle, offset, nCols, sym.clean);
    ghost var y1, x1, d1 := win.y, win.x, win.drawn;
    var row := |data.splitTitle| + offset;
    ghost var u := DrawLinkRow(win, data, row, nCols, visited, sym);
    ghost var y2, x2, d2 := win.y, win.x, win.drawn;
    ghost var s := DrawScoreRow(win, data, row + 1, nCols, sym);
    ghost var y3, x3, d3 := win.y, win.x, win.drawn;
    ghost var a := DrawAuthorRow(win, data, row + 2, nCols, sym);

    DrawnChain(d0, d1, d2, d3, win.drawn, t, u, s, a);
    CursorChain(y0, x0, y1, x1, y2, x2, y3, x3, win.y, win.x, t, u, s, a);
    LayoutSplit(data, win.height, win.width, inverted, visited, sym, offset, row, nCols, t, u, s, a);
  }
}
