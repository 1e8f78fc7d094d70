// The stand-alone water rule, written against the grid's public operations.
// It follows the same rule as the grid's own water update, so both are
// proved against the one specification, Moves.WaterStep.

module WaterRule {
  import opened Elements
  import opened Boards
  import opened Moves
  import opened Grids

  /** Fall into Air below, else into the first diagonal-down Air cell, else
      into the first same-row Air cell, the drawn side first each time. */
  method Update(grid: Grid, x: nat, y: nat, coins: Coins, next: nat) returns (next': nat)
    requires grid.Valid()
    modifies grid`cells
    ensures grid.Valid()
    ensures Outcome(grid.cells, next') == WaterStep(old(grid.cells), grid.width, grid.height, x, y, coins, next)
  {
    next' := next;
    if y + 1 >= grid.height {
      return;
    }
    var below := grid.Get(x, y + 1);
    if below == Air {
      grid.Swap(x, y, x, y + 1);
      return;
    }
    var directions := Directions(coins(next'));
    next' := next' + 1;
    for i := 0 to |directions|
      invariant grid.Valid() && grid.cells == old(grid.cells)
      invariant forall j :: 0 <= j < i ==> !Open(grid.cells, grid.width, grid.height, x, y + 1, directions[j], Water)
    {
      var nx := x + directions[i];
      if 0 <= nx < grid.width {
        var belowSide := grid.Get(nx, y + 1);
        if belowSide == Air {
          FirstOpenIs(grid.cells, grid.width, grid.height, x, y + 1, directions, Water, i);
          grid.Swap(x, y, nx, y + 1);
          return;
        }
      }
    }
    for i := 0 to |directions|
      invariant grid.Valid() && grid.cells == old(grid.cells)
      invariant forall j :: 0 <= j < i ==> !Open(grid.cells, grid.width, grid.height, x, y, directions[j], Water)
    {
      var nx := x + directions[i];
      if 0 <= nx < grid.width {
        var side := grid.Get(nx, y);
        if side == Air {
          FirstOpenIs(grid.cells, grid.width, grid.height, x, y, directions, Water, i);
          grid.Swap(x, y, nx, y);
          return;
        }
      }
    }
  }

  /** Water displaces nothing: apart from its own cell, only one Air cell
      can change, and the number of cells of every kind stays the same. */
  lemma WaterDisplacesNothing(b: Board, w: nat, h: nat, x: nat, y: nat, coins: Coins, next: nat)
    requires Shaped(b, w, h)
    ensures var r := WaterStep(b, w, h, x, y, coins, next);
      CountsKept(b, r.board) &&
      forall cy, cx :: 0 <= cy < h && 0 <= cx < w && !(cx == x && cy == y) && b[cy][cx] != Air ==>
        r.board[cy][cx] == b[cy][cx]
  {
    var t := WaterTarget(b, w, h, x, y, coins(next));
    if t.Some? {
      ExchangeCounts(b, w, h, x, y, t.value.x, t.value.y);
    }
  }
}
