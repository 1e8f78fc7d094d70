// The grid's contents as a value: a row-major sequence of rows, with the
// bounds-checked read, write and exchange that the grid object performs in
// place, the disk that painting covers, and the facts about them that the
// simulation relies on.

module Boards {
  import opened Elements

  datatype Option<T> = None | Some(value: T)

  /** A cell coordinate: column x, row y (row 0 is the top). */
  datatype Pos = Pos(x: nat, y: nat)

  /** Row-major: b[y][x] is the cell in column x of row y. */
  type Board = seq<seq<Element>>

  /** b has h rows of w cells each. */
  predicate Shaped(b: Board, w: nat, h: nat)
  {
    |b| == h && forall y :: 0 <= y < h ==> |b[y]| == w
  }

  predicate InBounds(w: nat, h: nat, x: int, y: int)
  {
    0 <= x < w && 0 <= y < h
  }

  /** The bounds-checked read: everything outside the grid reads as Stone. */
  function At(b: Board, w: nat, h: nat, x: nat, y: nat): (e: Element)
    requires Shaped(b, w, h)
    ensures !InBounds(w, h, x, y) ==> e == Stone
    ensures InBounds(w, h, x, y) ==> e == b[y][x]
  {
    if x < w && y < h then b[y][x] else Stone
  }

  /** A w-by-h board of Air. */
  function Blank(w: nat, h: nat): (b: Board)
    ensures Shaped(b, w, h)
    ensures forall y, x :: 0 <= y < h && 0 <= x < w ==> b[y][x] == Air
  {
    seq(h, _ => seq(w, _ => Air))
  }

  /** The bounds-checked write: cell (x, y) becomes e, and an out-of-range
      coordinate changes nothing. */
  function Put(b: Board, w: nat, h: nat, x: nat, y: nat, e: Element): (r: Board)
    requires Shaped(b, w, h)
    ensures Shaped(r, w, h)
    ensures forall cy, cx :: 0 <= cy < h && 0 <= cx < w ==>
              r[cy][cx] == (if cx == x && cy == y then e else b[cy][cx])
  {
    if x < w && y < h then b[y := b[y][x := e]] else b
  }

  /** The bounds-checked exchange of two cells: nothing at all happens unless
      both coordinates are in range. */
  function Exchange(b: Board, w: nat, h: nat, x1: nat, y1: nat, x2: nat, y2: nat): (r: Board)
    requires Shaped(b, w, h)
    ensures Shaped(r, w, h)
    ensures !(InBounds(w, h, x1, y1) && InBounds(w, h, x2, y2)) ==> r == b
    ensures InBounds(w, h, x1, y1) && InBounds(w, h, x2, y2) ==>
              r[y1][x1] == b[y2][x2] && r[y2][x2] == b[y1][x1]
    ensures forall cy, cx ::
              (0 <= cy < h && 0 <= cx < w && !(cx == x1 && cy == y1) && !(cx == x2 && cy == y2))
              ==> r[cy][cx] == b[cy][cx]
  {
    if x1 < w && y1 < h && x2 < w && y2 < h then
      var t := b[y1][x1];
      var b1 := b[y1 := b[y1][x1 := b[y2][x2]]];
      b1[y2 := b1[y2][x2 := t]]
    else
      b
  }

  /** Exchanging the same two cells twice restores the board. */
  lemma ExchangeTwice(b: Board, w: nat, h: nat, x1: nat, y1: nat, x2: nat, y2: nat)
    requires Shaped(b, w, h)
    ensures Exchange(Exchange(b, w, h, x1, y1, x2, y2), w, h, x1, y1, x2, y2) == b
  {
    var r := Exchange(Exchange(b, w, h, x1, y1, x2, y2), w, h, x1, y1, x2, y2);
    SameBoard(r, b, w, h);
  }

  /** Two boards of the same shape that agree on every cell are equal. */
  lemma SameBoard(b1: Board, b2: Board, w: nat, h: nat)
    requires Shaped(b1, w, h) && Shaped(b2, w, h)
    requires forall y, x :: 0 <= y < h && 0 <= x < w ==> b1[y][x] == b2[y][x]
    ensures b1 == b2
  {
    forall y | 0 <= y < h
      ensures b1[y] == b2[y]
    {
      assert forall x :: 0 <= x < w ==> b1[y][x] == b2[y][x];
    }
  }

  // ---------------------------------------------------------------------------
  // What the board holds, counted by kind.

  /** How many cells of row s hold kind k. */
  function RowCount(s: seq<Element>, k: Element): nat
  {
    if |s| == 0 then 0 else (if s[0] == k then 1 else 0) + RowCount(s[1..], k)
  }

  /** How many cells of the board hold kind k. */
  function Count(b: Board, k: Element): nat
  {
    if |b| == 0 then 0 else RowCount(b[0], k) + Count(b[1..], k)
  }

  function Indicator(e: Element, k: Element): nat
  {
    if e == k then 1 else 0
  }

  /** Writing one element of a row trades the old element for the new one. */
  lemma {:induction false} RowCountUpdate(s: seq<Element>, i: nat, v: Element, k: Element)
    requires i < |s|
    ensures RowCount(s[i := v], k) + Indicator(s[i], k) == RowCount(s, k) + Indicator(v, k)
  {
    if i > 0 {
      assert s[i := v][1..] == s[1..][i - 1 := v];
      RowCountUpdate(s[1..], i - 1, v, k);
    } else {
      assert s[i := v][1..] == s[1..];
    }
  }

  /** Replacing one row trades that row's elements for the new row's. */
  lemma {:induction false} CountRowUpdate(b: Board, y: nat, row: seq<Element>, k: Element)
    requires y < |b|
    ensures Count(b[y := row], k) + RowCount(b[y], k) == Count(b, k) + RowCount(row, k)
  {
    if y > 0 {
      assert b[y := row][1..] == b[1..][y - 1 := row];
      CountRowUpdate(b[1..], y - 1, row, k);
    } else {
      assert b[y := row][1..] == b[1..];
    }
  }

  /** Writing one cell trades one old element for one new one. */
  lemma CountPut(b: Board, w: nat, h: nat, x: nat, y: nat, e: Element, k: Element)
    requires Shaped(b, w, h) && InBounds(w, h, x, y)
    ensures Count(Put(b, w, h, x, y, e), k) + Indicator(b[y][x], k) == Count(b, k) + Indicator(e, k)
  {
    var row := b[y][x := e];
    assert Put(b, w, h, x, y, e) == b[y := row];
    CountRowUpdate(b, y, row, k);
    RowCountUpdate(b[y], x, e, k);
  }

  /** An exchange moves elements around without creating or destroying any. */
  lemma ExchangeCounts(b: Board, w: nat, h: nat, x1: nat, y1: nat, x2: nat, y2: nat)
    requires Shaped(b, w, h)
    ensures forall k :: Count(Exchange(b, w, h, x1, y1, x2, y2), k) == Count(b, k)
  {
    if x1 < w && y1 < h && x2 < w && y2 < h {
      var t, u := b[y1][x1], b[y2][x2];
      var b1 := Put(b, w, h, x1, y1, u);
      assert b1[y2][x2] == u;
      var b2 := Put(b1, w, h, x2, y2, t);
      assert b2 == Exchange(b, w, h, x1, y1, x2, y2);
      forall k
        ensures Count(b2, k) == Count(b, k)
      {
        CountPut(b, w, h, x1, y1, u, k);
        CountPut(b1, w, h, x2, y2, t, k);
      }
    }
  }

  // ---------------------------------------------------------------------------
  // Cells of a given kind that stay put.

  /** Exactly the same cells hold kind k in b and in b'. */
  ghost predicate SameCellsHold(b: Board, b': Board, w: nat, h: nat, k: Element)
    requires Shaped(b, w, h) && Shaped(b', w, h)
  {
    forall y, x :: 0 <= y < h && 0 <= x < w ==> (b[y][x] == k <==> b'[y][x] == k)
  }

  /** An exchange of two cells neither of which holds k leaves the k cells alone. */
  lemma ExchangeKeepsKind(b: Board, w: nat, h: nat, x1: nat, y1: nat, x2: nat, y2: nat, k: Element)
    requires Shaped(b, w, h)
    requires At(b, w, h, x1, y1) != k || !InBounds(w, h, x1, y1)
    requires At(b, w, h, x2, y2) != k || !InBounds(w, h, x2, y2)
    ensures SameCellsHold(b, Exchange(b, w, h, x1, y1, x2, y2), w, h, k)
  {
  }

  // ---------------------------------------------------------------------------
  // Painting a disk.

  function Offset(a: nat, b: nat): nat
  {
    if a >= b then a - b else b - a
  }

  /** (cx, cy) lies within squared distance r * r of (x, y). */
  predicate InDisk(cx: nat, cy: nat, x: nat, y: nat, r: nat)
  {
    Offset(cx, x) * Offset(cx, x) + Offset(cy, y) * Offset(cy, y) <= r * r
  }

  /** The board with every in-range cell of the disk set to e. */
  function Painted(b: Board, w: nat, h: nat, x: nat, y: nat, e: Element, r: nat): (p: Board)
    requires Shaped(b, w, h)
    ensures Shaped(p, w, h)
    ensures forall cy, cx :: 0 <= cy < h && 0 <= cx < w ==>
              p[cy][cx] == (if InDisk(cx, cy, x, y, r) then e else b[cy][cx])
  {
    seq(h, cy requires 0 <= cy < h =>
      seq(w, cx requires 0 <= cx < w => if InDisk(cx, cy, x, y, r) then e else b[cy][cx]))
  }

  /** The disk test is the usual squared Euclidean distance. */
  lemma InDiskIsDistance(cx: nat, cy: nat, x: nat, y: nat, r: nat)
    ensures InDisk(cx, cy, x, y, r) <==> (cx - x) * (cx - x) + (cy - y) * (cy - y) <= r * r
  {
    var dx, dy := cx - x, cy - y;
    assert Offset(cx, x) * Offset(cx, x) == dx * dx by {
      if cx < x { assert Offset(cx, x) == -dx; }
    }
    assert Offset(cy, y) * Offset(cy, y) == dy * dy by {
      if cy < y { assert Offset(cy, y) == -dy; }
    }
  }

  lemma SquareGrows(a: nat, r: nat)
    ensures a > r ==> a * a > r * r
  {
    if a > r {
      assert a * a >= a * (r + 1) >= (r + 1) * (r + 1) > r * r;
    }
  }

  /** The disk lies inside the square of side 2r + 1 around its centre. */
  lemma DiskWithinSquare(cx: nat, cy: nat, x: nat, y: nat, r: nat)
    requires InDisk(cx, cy, x, y, r)
    ensures Offset(cx, x) <= r && Offset(cy, y) <= r
  {
    SquareGrows(Offset(cx, x), r);
    SquareGrows(Offset(cy, y), r);
  }

  /** Radius 0 paints the centre cell and nothing else. */
  lemma PaintRadiusZero(b: Board, w: nat, h: nat, x: nat, y: nat, e: Element)
    requires Shaped(b, w, h)
    ensures Painted(b, w, h, x, y, e, 0) == Put(b, w, h, x, y, e)
  {
    forall cy, cx | 0 <= cy < h && 0 <= cx < w
      ensures Painted(b, w, h, x, y, e, 0)[cy][cx] == Put(b, w, h, x, y, e)[cy][cx]
    {
      if InDisk(cx, cy, x, y, 0) {
        DiskWithinSquare(cx, cy, x, y, 0);
      }
    }
    SameBoard(Painted(b, w, h, x, y, e, 0), Put(b, w, h, x, y, e), w, h);
  }
}
