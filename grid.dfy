// The grid object: the cells it owns, its bounds-checked accessors, the
// sand and water rules it runs on itself, the tick, and disk painting.

module Grids {
  import opened Elements
  import opened Boards
  import opened Moves
  import opened PersonStates

  class Grid {
    const width: nat
    const height: nat
    /** Row-major: cells[y][x]. */
    var cells: Board
    /** Per-cell person records, keyed by coordinate; written only by SetPersonState. */
    var personStates: map<Pos, PersonState>

    ghost predicate Valid()
      reads this
    {
      Shaped(cells, width, height)
    }

    /** A width-by-height grid of Air. */
    constructor (width: nat, height: nat)
      ensures Valid() && this.width == width && this.height == height
      ensures forall y, x :: 0 <= y < height && 0 <= x < width ==> cells[y][x] == Air
      ensures personStates == map[]
    {
      this.width := width;
      this.height := height;
      cells := Blank(width, height);
      personStates := map[];
    }

    /** The bounds-checked read (Stone outside the grid). */
    function Get(x: nat, y: nat): (e: Element)
      reads this
      requires Valid()
      ensures !InBounds(width, height, x, y) ==> e == Stone
      ensures InBounds(width, height, x, y) ==> e == cells[y][x]
    {
      At(cells, width, height, x, y)
    }

    /** The bounds-checked write: a no-op outside the grid. */
    method Set(x: nat, y: nat, element: Element)
      requires Valid()
      modifies this`cells
      ensures Valid()
      ensures cells == Put(old(cells), width, height, x, y, element)
    {
      if x < width && y < height {
        cells := cells[y := cells[y][x := element]];
      }
    }

    /** The bounds-checked exchange: a no-op unless both cells are in the grid. */
    method Swap(x1: nat, y1: nat, x2: nat, y2: nat)
      requires Valid()
      modifies this`cells
      ensures Valid()
      ensures cells == Exchange(old(cells), width, height, x1, y1, x2, y2)
    {
      if x1 < width && y1 < height && x2 < width && y2 < height {
        var temp := cells[y1][x1];
        cells := cells[y1 := cells[y1][x1 := cells[y2][x2]]];
        cells := cells[y2 := cells[y2][x2 := temp]];
      }
    }

    function GetPersonState(x: nat, y: nat): (s: Option<PersonState>)
      reads this
      ensures s.Some? <==> Pos(x, y) in personStates
      ensures s.Some? ==> s.value == personStates[Pos(x, y)]
    {
      Lookup(personStates, Pos(x, y))
    }

    method SetPersonState(x: nat, y: nat, state: PersonState)
      modifies this`personStates
      ensures personStates == old(personStates)[Pos(x, y) := state]
    {
      personStates := personStates[Pos(x, y) := state];
    }

    /** The sand rule at (x, y): fall into Air or Water below, else slide
        diagonally down, trying the drawn side first. */
    method UpdateSand(x: nat, y: nat, coins: Coins, next: nat) returns (next': nat)
      requires Valid()
      modifies this`cells
      ensures Valid()
      ensures Outcome(cells, next') == SandStep(old(cells), width, height, x, y, coins, next)
    {
      next' := next;
      if y + 1 >= height {
        return;
      }
      var below := Get(x, y + 1);
      if below == Air || below == Water {
        Swap(x, y, x, y + 1);
        return;
      }
      var directions := Directions(coins(next'));
      next' := next' + 1;
      for i := 0 to |directions|
        invariant cells == old(cells)
        invariant forall j :: 0 <= j < i ==> !Open(cells, width, height, x, y + 1, directions[j], Sand)
      {
        var nx := x + directions[i];
        if 0 <= nx < width {
          var belowSide := Get(nx, y + 1);
          if belowSide == Air || belowSide == Water {
            FirstOpenIs(cells, width, height, x, y + 1, directions, Sand, i);
            Swap(x, y, nx, y + 1);
            return;
          }
        }
      }
    }

    /** The water rule at (x, y): fall into Air below, else into the first
        diagonal-down Air cell, else into the first same-row Air cell, the
        drawn side first each time. */
    method UpdateWater(x: nat, y: nat, coins: Coins, next: nat) returns (next': nat)
      requires Valid()
      modifies this`cells
      ensures Valid()
      ensures Outcome(cells, next') == WaterStep(old(cells), width, height, x, y, coins, next)
    {
      next' := next;
      if y + 1 >= height {
        return;
      }
      var below := Get(x, y + 1);
      if below == Air {
        Swap(x, y, x, y + 1);
        return;
      }
      var directions := Directions(coins(next'));
      next' := next' + 1;
      for i := 0 to |directions|
        invariant cells == old(cells)
        invariant forall j :: 0 <= j < i ==> !Open(cells, width, height, x, y + 1, directions[j], Water)
      {
        var nx := x + directions[i];
        if 0 <= nx < width {
          var belowSide := Get(nx, y + 1);
          if belowSide == Air {
            FirstOpenIs(cells, width, height, x, y + 1, directions, Water, i);
            Swap(x, y, nx, y + 1);
            return;
          }
        }
      }
      for i := 0 to |directions|
        invariant cells == old(cells)
        invariant forall j :: 0 <= j < i ==> !Open(cells, width, height, x, y, directions[j], Water)
      {
        var nx := x + directions[i];
        if 0 <= nx < width {
          var side := Get(nx, y);
          if side == Air {
            FirstOpenIs(cells, width, height, x, y, directions, Water, i);
            Swap(x, y, nx, y);
            return;
          }
        }
      }
    }

    /** One tick: rows bottom to top, each in a drawn direction, every cell
        re-read just before sand or water in it is moved. */
    method Update(coins: Coins, next: nat) returns (next': nat)
      requires Valid()
      modifies this`cells
      ensures Valid()
      ensures Outcome(cells, next') == Tick(old(cells), width, height, coins, next)
    {
      next' := next;
      for y := height downto 0
        invariant Valid()
        invariant Tick(old(cells), width, height, coins, next) == ScanRows(cells, width, height, y, coins, next')
      {
        ghost var rowStart, rowNext := cells, next';
        var xRange := RowOrder(width, coins(next'));
        next' := next' + 1;
        for i := 0 to |xRange|
          invariant Valid()
          invariant ScanRow(rowStart, width, height, xRange, y, coins, rowNext + 1)
                 == ScanRow(cells, width, height, xRange[i..], y, coins, next')
        {
          var x := xRange[i];
          var element := Get(x, y);
          assert xRange[i..][1..] == xRange[i + 1..];
          match element {
            case Sand => next' := UpdateSand(x, y, coins, next');
            case Water => next' := UpdateWater(x, y, coins, next');
            case _ =>
          }
        }
      }
    }

    /** Paint a filled disk of the given radius around (x, y), clipped to the grid. */
    method PlaceElement(x: nat, y: nat, element: Element, radius: nat)
      requires Valid()
      modifies this`cells
      ensures Valid()
      ensures cells == Painted(old(cells), width, height, x, y, element, radius)
    {
      for dy := 0 to radius + 1
        invariant Valid()
        invariant PaintProgress(cells, old(cells), width, height, x, y, element, radius, dy, 0)
      {
        for dx := 0 to radius + 1
          invariant Valid()
          invariant PaintProgress(cells, old(cells), width, height, x, y, element, radius, dy, dx)
        {
          ghost var before := cells;
          var distSq := dx * dx + dy * dy;
          if distSq <= radius * radius {
            PaintMirrored(x, y, element, dx, dy);
          }
          PaintStep(cells, before, old(cells), width, height, x, y, element, radius, dy, dx);
        }
        PaintRowDone(cells, old(cells), width, height, x, y, element, radius, dy);
      }
      PaintDone(cells, old(cells), width, height, x, y, element, radius);
    }

    /** The four cells at offset (+-dx, +-dy) from (x, y) that are in range get element. */
    method PaintMirrored(x: nat, y: nat, element: Element, dx: nat, dy: nat)
      requires Valid()
      modifies this`cells
      ensures Valid()
      ensures PaintedAtOffset(cells, old(cells), width, height, x, y, element, dx, dy, true)
    {
      ghost var b0 := cells;
      if x >= dx && y >= dy {
        Set(x - dx, y - dy, element);
      }
      if x + dx < width && y >= dy {
        Set(x + dx, y - dy, element);
      }
      if x >= dx && y + dy < height {
        Set(x - dx, y + dy, element);
      }
      if x + dx < width && y + dy < height {
        Set(x + dx, y + dy, element);
      }
      assert cells == Mirrored(b0, width, height, x, y, element, dx, dy);
    }
  }

  /** b after the writes at offset dx either side of column x in row cy,
      each made only when its column is in range. */
  ghost function PutPair(b: Board, w: nat, h: nat, x: nat, cy: nat, e: Element, dx: nat): (r: Board)
    requires Shaped(b, w, h)
    ensures Shaped(r, w, h)
    ensures forall ry, rx :: 0 <= ry < h && 0 <= rx < w ==>
              r[ry][rx] == if ry == cy && Offset(rx, x) == dx then e else b[ry][rx]
  {
    var b1 := if x >= dx then Put(b, w, h, x - dx, cy, e) else b;
    if x + dx < w then Put(b1, w, h, x + dx, cy, e) else b1
  }

  /** b after the four mirrored writes at offset (dx, dy) from (x, y), each
      made only when its coordinates are in range. */
  ghost function Mirrored(b: Board, w: nat, h: nat, x: nat, y: nat, e: Element, dx: nat, dy: nat): (r: Board)
    requires Shaped(b, w, h)
    ensures PaintedAtOffset(r, b, w, h, x, y, e, dx, dy, true)
  {
    var upper := if y >= dy then PutPair(b, w, h, x, y - dy, e, dx) else b;
    if y + dy < h then PutPair(upper, w, h, x, y + dy, e, dx) else upper
  }

  /** The stored record at p, if any. */
  function Lookup(states: map<Pos, PersonState>, p: Pos): Option<PersonState>
  {
    if p in states then Some(states[p]) else None
  }

  /** The painting loops have reached offset (dx, dy) of cell (cx, cy) from the centre. */
  ghost predicate Visited(cx: nat, cy: nat, x: nat, y: nat, r: nat, dy: nat, dx: nat)
  {
    InDisk(cx, cy, x, y, r) && Offset(cx, x) <= r &&
    (Offset(cy, y) < dy || (Offset(cy, y) == dy && Offset(cx, x) < dx))
  }

  /** Exactly the visited cells of the disk have been painted so far. */
  ghost predicate PaintProgress(cur: Board, b: Board, w: nat, h: nat, x: nat, y: nat, e: Element, r: nat, dy: nat, dx: nat)
  {
    Shaped(cur, w, h) && Shaped(b, w, h) &&
    forall cy, cx :: 0 <= cy < h && 0 <= cx < w ==>
      cur[cy][cx] == if Visited(cx, cy, x, y, r, dy, dx) then e else b[cy][cx]
  }

  /** cur is b with every in-range cell at offset (dx, dy) from (x, y) set to e, if paint holds. */
  ghost predicate PaintedAtOffset(cur: Board, b: Board, w: nat, h: nat, x: nat, y: nat, e: Element, dx: nat, dy: nat, paint: bool)
  {
    Shaped(cur, w, h) && Shaped(b, w, h) &&
    forall cy, cx :: 0 <= cy < h && 0 <= cx < w ==>
      cur[cy][cx] == if paint && Offset(cx, x) == dx && Offset(cy, y) == dy then e else b[cy][cx]
  }

  /** One pass of the inner painting loop advances the progress by one offset. */
  lemma PaintStep(cur: Board, before: Board, b: Board, w: nat, h: nat, x: nat, y: nat, e: Element, r: nat, dy: nat, dx: nat)
    requires PaintProgress(before, b, w, h, x, y, e, r, dy, dx)
    requires dx <= r
    requires PaintedAtOffset(cur, before, w, h, x, y, e, dx, dy, dx * dx + dy * dy <= r * r)
    ensures PaintProgress(cur, b, w, h, x, y, e, r, dy, dx + 1)
  {
    forall cy, cx | 0 <= cy < h && 0 <= cx < w
      ensures cur[cy][cx] == if Visited(cx, cy, x, y, r, dy, dx + 1) then e else b[cy][cx]
    {
      if Offset(cx, x) == dx && Offset(cy, y) == dy {
        assert InDisk(cx, cy, x, y, r) <==> dx * dx + dy * dy <= r * r;
      }
    }
  }

  /** Finishing a row of offsets is starting the next one. */
  lemma PaintRowDone(cur: Board, b: Board, w: nat, h: nat, x: nat, y: nat, e: Element, r: nat, dy: nat)
    requires PaintProgress(cur, b, w, h, x, y, e, r, dy, r + 1)
    ensures PaintProgress(cur, b, w, h, x, y, e, r, dy + 1, 0)
  {
    forall cy, cx | 0 <= cy < h && 0 <= cx < w
      ensures cur[cy][cx] == if Visited(cx, cy, x, y, r, dy + 1, 0) then e else b[cy][cx]
    {
      assert Visited(cx, cy, x, y, r, dy, r + 1) == Visited(cx, cy, x, y, r, dy + 1, 0);
    }
  }

  /** Once every offset up to the radius is visited, exactly the disk is painted. */
  lemma PaintDone(cur: Board, b: Board, w: nat, h: nat, x: nat, y: nat, e: Element, r: nat)
    requires PaintProgress(cur, b, w, h, x, y, e, r, r + 1, 0)
    ensures cur == Painted(b, w, h, x, y, e, r)
  {
    forall cy, cx | 0 <= cy < h && 0 <= cx < w
      ensures cur[cy][cx] == Painted(b, w, h, x, y, e, r)[cy][cx]
    {
      if InDisk(cx, cy, x, y, r) {
        DiskWithinSquare(cx, cy, x, y, r);
      }
    }
    SameBoard(cur, Painted(b, w, h, x, y, e, r), w, h);
  }
}
