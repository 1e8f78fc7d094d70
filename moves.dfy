// The movement rules of sand and water and the tick that sweeps them over
// the grid, stated as functions of the board. The grid object's methods are
// proved to compute exactly these.

module Moves {
  import opened Elements
  import opened Boards
  import Legacy = LegacyElements

  /** The random source: the n-th yes/no draw of a run yields Coins(n). */
  type Coins = nat -> bool

  /** A board together with the position reached in the random source. */
  datatype Outcome = Outcome(board: Board, next: nat)

  /** The lateral order a draw picks: a true draw tries left (-1) first. */
  function Directions(coin: bool): (r: seq<int>)
    ensures |r| == 2 && r[1] == -r[0] && (r[0] == -1 || r[0] == 1)
    ensures coin <==> r[0] == -1
  {
    if coin then [-1, 1] else [1, -1]
  }

  /** Whether `mover` may trade places with a cell holding e: everything moves
      into Air, and only what is denser than water sinks through Water. */
  predicate Admits(mover: Element, e: Element)
  {
    e == Air || (e == Water && mover != Water)
  }

  /** Column x + dx exists and its cell in row ty admits mover. */
  predicate Open(b: Board, w: nat, h: nat, x: nat, ty: nat, dx: int, mover: Element)
    requires Shaped(b, w, h)
  {
    0 <= x + dx < w && Admits(mover, At(b, w, h, x + dx, ty))
  }

  /** The index in dirs of the first open lateral candidate in row ty. */
  function FirstOpen(b: Board, w: nat, h: nat, x: nat, ty: nat, dirs: seq<int>, mover: Element): (r: Option<nat>)
    requires Shaped(b, w, h)
    ensures r.Some? ==> r.value < |dirs| && Open(b, w, h, x, ty, dirs[r.value], mover)
    ensures r.Some? ==> forall j :: 0 <= j < r.value ==> !Open(b, w, h, x, ty, dirs[j], mover)
    ensures r.None? <==> forall j :: 0 <= j < |dirs| ==> !Open(b, w, h, x, ty, dirs[j], mover)
    decreases |dirs|
  {
    if |dirs| == 0 then None
    else if Open(b, w, h, x, ty, dirs[0], mover) then Some(0)
    else
      match FirstOpen(b, w, h, x, ty, dirs[1..], mover)
      case None => None
      case Some(i) => Some(i + 1)
  }

  /** The search stops at the first open candidate. */
  lemma FirstOpenIs(b: Board, w: nat, h: nat, x: nat, ty: nat, dirs: seq<int>, mover: Element, i: nat)
    requires Shaped(b, w, h) && i < |dirs| && Open(b, w, h, x, ty, dirs[i], mover)
    requires forall j :: 0 <= j < i ==> !Open(b, w, h, x, ty, dirs[j], mover)
    ensures FirstOpen(b, w, h, x, ty, dirs, mover) == Some(i)
  {
  }

  /** The board after the cell at (x, y) trades places with t, if any. */
  function Moved(b: Board, w: nat, h: nat, x: nat, y: nat, t: Option<Pos>): (r: Board)
    requires Shaped(b, w, h)
    ensures Shaped(r, w, h)
  {
    match t
    case None => b
    case Some(p) => Exchange(b, w, h, x, y, p.x, p.y)
  }

  /** Trading places with at most one cell keeps the per-kind counts. */
  lemma MovedCounts(b: Board, w: nat, h: nat, x: nat, y: nat, t: Option<Pos>)
    requires Shaped(b, w, h)
    ensures CountsKept(b, Moved(b, w, h, x, y, t))
  {
    if t.Some? {
      ExchangeCounts(b, w, h, x, y, t.value.x, t.value.y);
    }
  }

  // ---------------------------------------------------------------------------
  // Sand

  /** Where a sand grain at (x, y) goes: straight down into Air or Water,
      else the first diagonal-down cell, in the drawn order, that is in range
      and holds Air or Water; nowhere on the bottom row. */
  function SandTarget(b: Board, w: nat, h: nat, x: nat, y: nat, coin: bool): (t: Option<Pos>)
    requires Shaped(b, w, h)
    ensures t.Some? ==> t.value.y == y + 1 && InBounds(w, h, t.value.x, t.value.y)
    ensures t.Some? ==> Admits(Sand, b[t.value.y][t.value.x])
    ensures t.Some? ==> t.value.x == x || t.value.x == x - 1 || t.value.x == x + 1
    ensures t.None? <==> (y + 1 >= h ||
              (!Admits(Sand, At(b, w, h, x, y + 1)) && !Open(b, w, h, x, y + 1, -1, Sand) && !Open(b, w, h, x, y + 1, 1, Sand)))
    ensures y + 1 < h && Admits(Sand, At(b, w, h, x, y + 1)) ==> t == Some(Pos(x, y + 1))
    ensures t.Some? && t.value.x == x + Directions(coin)[1] ==>
              !Admits(Sand, At(b, w, h, x, y + 1)) && !Open(b, w, h, x, y + 1, Directions(coin)[0], Sand)
  {
    if y + 1 >= h then None
    else if Admits(Sand, At(b, w, h, x, y + 1)) then Some(Pos(x, y + 1))
    else
      var dirs := Directions(coin);
      match FirstOpen(b, w, h, x, y + 1, dirs, Sand)
      case None => None
      case Some(i) => Some(Pos(x + dirs[i], y + 1))
  }

  /** A grain draws a lateral order exactly when it cannot fall straight down. */
  predicate SandDraws(b: Board, w: nat, h: nat, x: nat, y: nat)
    requires Shaped(b, w, h)
  {
    y + 1 < h && !Admits(Sand, At(b, w, h, x, y + 1))
  }

  /** The sand rule at (x, y): the cell trades places with its target, if
      any, and the lateral order is drawn only when the grain cannot fall
      straight down. */
  function SandStep(b: Board, w: nat, h: nat, x: nat, y: nat, coins: Coins, next: nat): (r: Outcome)
    requires Shaped(b, w, h)
    ensures Shaped(r.board, w, h)
    ensures next <= r.next <= next + 1
  {
    var t := SandTarget(b, w, h, x, y, coins(next));
    Outcome(Moved(b, w, h, x, y, t), if SandDraws(b, w, h, x, y) then next + 1 else next)
  }

  // ---------------------------------------------------------------------------
  // Water

  /** Where water at (x, y) goes: straight down into Air, else the first
      diagonal-down Air cell in the drawn order, else the first same-row Air
      cell in that order; nowhere on the bottom row. */
  function WaterTarget(b: Board, w: nat, h: nat, x: nat, y: nat, coin: bool): (t: Option<Pos>)
    requires Shaped(b, w, h)
    ensures t.Some? ==> InBounds(w, h, t.value.x, t.value.y) && b[t.value.y][t.value.x] == Air
    ensures t.Some? ==> t.value.y == y + 1 || t.value.y == y
    ensures t.Some? ==> t.value.x == x || t.value.x == x - 1 || t.value.x == x + 1
    ensures t.Some? && t.value.y == y ==> t.value.x != x
    ensures t.None? <==> (y + 1 >= h ||
              (At(b, w, h, x, y + 1) != Air &&
               !Open(b, w, h, x, y + 1, -1, Water) && !Open(b, w, h, x, y + 1, 1, Water) &&
               !Open(b, w, h, x, y, -1, Water) && !Open(b, w, h, x, y, 1, Water)))
    ensures y + 1 < h && At(b, w, h, x, y + 1) == Air ==> t == Some(Pos(x, y + 1))
    ensures t.Some? && t.value.y == y ==>
              !Open(b, w, h, x, y + 1, -1, Water) && !Open(b, w, h, x, y + 1, 1, Water)
    ensures t.Some? && t.value.x == x + Directions(coin)[1] ==>
              !Open(b, w, h, x, t.value.y, Directions(coin)[0], Water)
  {
    if y + 1 >= h then None
    else if At(b, w, h, x, y + 1) == Air then Some(Pos(x, y + 1))
    else
      var dirs := Directions(coin);
      match FirstOpen(b, w, h, x, y + 1, dirs, Water)
      case Some(i) => Some(Pos(x + dirs[i], y + 1))
      case None =>
        match FirstOpen(b, w, h, x, y, dirs, Water)
        case Some(i) => Some(Pos(x + dirs[i], y))
        case None => None
  }

  /** Water draws a lateral order exactly when it cannot fall straight down. */
  predicate WaterDraws(b: Board, w: nat, h: nat, x: nat, y: nat)
    requires Shaped(b, w, h)
  {
    y + 1 < h && At(b, w, h, x, y + 1) != Air
  }

  /** The water rule at (x, y): the cell trades places with its target, if
      any, and the lateral order is drawn only when the water cannot fall
      straight down. */
  function WaterStep(b: Board, w: nat, h: nat, x: nat, y: nat, coins: Coins, next: nat): (r: Outcome)
    requires Shaped(b, w, h)
    ensures Shaped(r.board, w, h)
    ensures next <= r.next <= next + 1
  {
    var t := WaterTarget(b, w, h, x, y, coins(next));
    Outcome(Moved(b, w, h, x, y, t), if WaterDraws(b, w, h, x, y) then next + 1 else next)
  }

  // ---------------------------------------------------------------------------
  // The tick

  /** The rule the tick runs for the element it finds at (x, y): only sand
      and water have one. */
  function Dispatch(b: Board, w: nat, h: nat, x: nat, y: nat, coins: Coins, next: nat): (r: Outcome)
    requires Shaped(b, w, h)
    ensures Shaped(r.board, w, h)
  {
    match At(b, w, h, x, y)
    case Sand => SandStep(b, w, h, x, y, coins, next)
    case Water => WaterStep(b, w, h, x, y, coins, next)
    case _ => Outcome(b, next)
  }

  /** The columns of a row in scan order. */
  function RowOrder(w: nat, leftToRight: bool): (xs: seq<nat>)
    ensures |xs| == w
    ensures forall i :: 0 <= i < w ==> xs[i] == if leftToRight then i else w - 1 - i
  {
    if leftToRight then seq(w, i => i) else seq(w, i requires 0 <= i < w => w - 1 - i)
  }

  /** Visit the columns xs of row y in order, each re-read just before its rule runs. */
  function ScanRow(b: Board, w: nat, h: nat, xs: seq<nat>, y: nat, coins: Coins, next: nat): (r: Outcome)
    requires Shaped(b, w, h)
    ensures Shaped(r.board, w, h)
    decreases |xs|
  {
    if |xs| == 0 then Outcome(b, next)
    else
      var o := Dispatch(b, w, h, xs[0], y, coins, next);
      ScanRow(o.board, w, h, xs[1..], y, coins, o.next)
  }

  /** Visit rows rows-1 down to 0, each in a freshly drawn direction. */
  function ScanRows(b: Board, w: nat, h: nat, rows: nat, coins: Coins, next: nat): (r: Outcome)
    requires Shaped(b, w, h)
    ensures Shaped(r.board, w, h)
    decreases rows
  {
    if rows == 0 then Outcome(b, next)
    else
      var o := ScanRow(b, w, h, RowOrder(w, coins(next)), rows - 1, coins, next + 1);
      ScanRows(o.board, w, h, rows - 1, coins, o.next)
  }

  /** One tick: every row from the bottom one up. */
  function Tick(b: Board, w: nat, h: nat, coins: Coins, next: nat): (r: Outcome)
    requires Shaped(b, w, h)
    ensures Shaped(r.board, w, h)
  {
    ScanRows(b, w, h, h, coins, next)
  }

  // ---------------------------------------------------------------------------
  // What the rules and the tick preserve

  /** Neither Stone nor Person is ever moved by the tick. */
  ghost predicate InertKept(b: Board, b': Board, w: nat, h: nat)
    requires Shaped(b, w, h) && Shaped(b', w, h)
  {
    SameCellsHold(b, b', w, h, Stone) && SameCellsHold(b, b', w, h, Person)
  }

  ghost predicate CountsKept(b: Board, b': Board)
  {
    forall k :: Count(b', k) == Count(b, k)
  }

  /** A sand or water cell trades places with at most one Air or Water cell. */
  lemma DispatchPreserves(b: Board, w: nat, h: nat, x: nat, y: nat, coins: Coins, next: nat)
    requires Shaped(b, w, h)
    ensures var r := Dispatch(b, w, h, x, y, coins, next);
      CountsKept(b, r.board) && InertKept(b, r.board, w, h) && next <= r.next <= next + 1
  {
    var e := At(b, w, h, x, y);
    if e == Sand || e == Water {
      var t := if e == Sand then SandTarget(b, w, h, x, y, coins(next)) else WaterTarget(b, w, h, x, y, coins(next));
      if t.Some? {
        ExchangeCounts(b, w, h, x, y, t.value.x, t.value.y);
        ExchangeKeepsKind(b, w, h, x, y, t.value.x, t.value.y, Stone);
        ExchangeKeepsKind(b, w, h, x, y, t.value.x, t.value.y, Person);
      }
    }
  }

  lemma {:induction false} ScanRowPreserves(b: Board, w: nat, h: nat, xs: seq<nat>, y: nat, coins: Coins, next: nat)
    requires Shaped(b, w, h)
    ensures var r := ScanRow(b, w, h, xs, y, coins, next);
      CountsKept(b, r.board) && InertKept(b, r.board, w, h)
    decreases |xs|
  {
    if |xs| > 0 {
      var o := Dispatch(b, w, h, xs[0], y, coins, next);
      DispatchPreserves(b, w, h, xs[0], y, coins, next);
      var r := ScanRow(o.board, w, h, xs[1..], y, coins, o.next);
      ScanRowPreserves(o.board, w, h, xs[1..], y, coins, o.next);
      assert ScanRow(b, w, h, xs, y, coins, next) == r;
      KeptChain(b, o.board, r.board, w, h);
    }
  }

  lemma {:induction false} ScanRowDraws(b: Board, w: nat, h: nat, xs: seq<nat>, y: nat, coins: Coins, next: nat)
    requires Shaped(b, w, h)
    ensures var r := ScanRow(b, w, h, xs, y, coins, next);
      next <= r.next <= next + |xs|
    decreases |xs|
  {
    if |xs| > 0 {
      var o := Dispatch(b, w, h, xs[0], y, coins, next);
      DispatchPreserves(b, w, h, xs[0], y, coins, next);
      ScanRowDraws(o.board, w, h, xs[1..], y, coins, o.next);
    }
  }

  /** Keeping the counts and the inert cells composes. */
  lemma KeptChain(b: Board, m: Board, r: Board, w: nat, h: nat)
    requires Shaped(b, w, h) && Shaped(m, w, h) && Shaped(r, w, h)
    requires CountsKept(b, m) && InertKept(b, m, w, h)
    requires CountsKept(m, r) && InertKept(m, r, w, h)
    ensures CountsKept(b, r) && InertKept(b, r, w, h)
  {
  }

  lemma {:induction false} ScanRowsPreserves(b: Board, w: nat, h: nat, rows: nat, coins: Coins, next: nat)
    requires Shaped(b, w, h)
    ensures var r := ScanRows(b, w, h, rows, coins, next);
      CountsKept(b, r.board) && InertKept(b, r.board, w, h)
    decreases rows
  {
    if rows > 0 {
      var xs := RowOrder(w, coins(next));
      var o := ScanRow(b, w, h, xs, rows - 1, coins, next + 1);
      ScanRowPreserves(b, w, h, xs, rows - 1, coins, next + 1);
      var r := ScanRows(o.board, w, h, rows - 1, coins, o.next);
      ScanRowsPreserves(o.board, w, h, rows - 1, coins, o.next);
      assert ScanRows(b, w, h, rows, coins, next) == r;
      KeptChain(b, o.board, r.board, w, h);
    }
  }

  lemma {:induction false} ScanRowsDraws(b: Board, w: nat, h: nat, rows: nat, coins: Coins, next: nat)
    requires Shaped(b, w, h)
    ensures var r := ScanRows(b, w, h, rows, coins, next);
      next + rows <= r.next <= next + Budget(rows, w)
    decreases rows
  {
    if rows > 0 {
      var xs := RowOrder(w, coins(next));
      var o := ScanRow(b, w, h, xs, rows - 1, coins, next + 1);
      ScanRowDraws(b, w, h, xs, rows - 1, coins, next + 1);
      var r := ScanRows(o.board, w, h, rows - 1, coins, o.next);
      ScanRowsDraws(o.board, w, h, rows - 1, coins, o.next);
      ScanRowsUnfold(b, w, h, rows, coins, next);
      BudgetStep(rows, w, next, o.next, r.next);
    }
  }

  /** A scan of rows rows is the scan of its top row followed by the rest. */
  lemma ScanRowsUnfold(b: Board, w: nat, h: nat, rows: nat, coins: Coins, next: nat)
    requires Shaped(b, w, h) && rows > 0
    ensures var o := ScanRow(b, w, h, RowOrder(w, coins(next)), rows - 1, coins, next + 1);
      ScanRows(b, w, h, rows, coins, next) == ScanRows(o.board, w, h, rows - 1, coins, o.next)
  {
  }

  /** The most draws a scan of rows rows of width w can make. */
  function Budget(rows: nat, w: nat): nat
  {
    if rows == 0 then 0 else w + 1 + Budget(rows - 1, w)
  }

  /** One row's draws followed by the rest's stay within the budget. */
  lemma BudgetStep(rows: nat, w: nat, next: nat, mid: nat, last: nat)
    requires rows > 0
    requires next + 1 <= mid <= next + 1 + w
    requires mid + (rows - 1) <= last <= mid + Budget(rows - 1, w)
    ensures next + rows <= last <= next + Budget(rows, w)
  {
  }

  lemma {:induction false} BudgetIsProduct(rows: nat, w: nat)
    ensures Budget(rows, w) == rows * (w + 1)
  {
    if rows > 0 {
      BudgetIsProduct(rows - 1, w);
    }
  }

  /** A tick keeps the grid's shape and the number of cells of every kind,
      never changes a Stone or Person cell, draws one row direction per row
      and at most one lateral order per cell. */
  lemma TickPreserves(b: Board, w: nat, h: nat, coins: Coins, next: nat)
    requires Shaped(b, w, h)
    ensures var r := Tick(b, w, h, coins, next);
      Shaped(r.board, w, h) && CountsKept(b, r.board) && InertKept(b, r.board, w, h) &&
      next + h <= r.next <= next + h * (w + 1)
  {
    ScanRowsPreserves(b, w, h, h, coins, next);
    ScanRowsDraws(b, w, h, h, coins, next);
    BudgetIsProduct(h, w);
  }

  /** The tick runs a rule only for kinds the four-kind catalogue calls
      movable: a cell of any other kind (Air, Stone, and Person, which that
      catalogue lacks) is passed over. */
  lemma DispatchOnlyMovable(b: Board, w: nat, h: nat, x: nat, y: nat, coins: Coins, next: nat)
    requires Shaped(b, w, h)
    ensures (forall l :: Legacy.Widen(l) == At(b, w, h, x, y) ==> !Legacy.IsMovable(l)) ==>
              Dispatch(b, w, h, x, y, coins, next) == Outcome(b, next)
  {
    var e := At(b, w, h, x, y);
    if e == Sand {
      assert Legacy.Widen(Legacy.Sand) == e;
    } else if e == Water {
      assert Legacy.Widen(Legacy.Water) == e;
    }
  }

  /** Sand directly above water sinks through it in one step. */
  lemma SandSinksThroughWater(b: Board, w: nat, h: nat, x: nat, y: nat, coins: Coins, next: nat)
    requires Shaped(b, w, h) && InBounds(w, h, x, y + 1)
    requires b[y][x] == Sand && b[y + 1][x] == Water
    ensures var r := Dispatch(b, w, h, x, y, coins, next);
      r.board[y][x] == Water && r.board[y + 1][x] == Sand && r.next == next
  {
  }
}
