# garubox core in Dafny

A model of the simulation core of garubox, a falling-sand toy. A rectangular
grid of cells holds Air, Sand, Water, Stone or a Person. Each tick scans the
rows from the bottom up, each row in a freshly drawn direction. Sand falls
through Air and Water and slides diagonally down. Water falls into Air,
slides diagonally down, and spreads sideways. A brush paints a filled disk of
one element. A separate person rule makes a person walk, climb one-cell steps,
jump, fall and drown.

Files, one module each:

- `elements.dfy` (`Elements`): the five-kind catalogue, with its palette order, labels and classification predicates.
- `legacy_elements.dfy` (`LegacyElements`): the older four-kind catalogue, and how it embeds in the five-kind one.
- `person_state.dfy` (`PersonStates`): the per-person record, with its 32-bit fields.
- `boards.dfy` (`Boards`): boards as values, covering bounds-checked reads, writes and exchanges, per-kind cell counts, and the painted disk.
- `moves.dfy` (`Moves`): the sand rule, the water rule and the tick as functions of the board, plus what they preserve.
- `grid.dfy` (`Grids`): the `Grid` class. Its methods update the cells in place, and each is proved equal to the function in `Moves` or `Boards` that specifies it.
- `water.dfy` (`WaterRule`): the stand-alone water rule, written over the grid's public operations.
- `person.dfy` (`PersonRule`): the person rule as a pure decision (`Decide`), a method that carries it out on a grid, and its properties.

Randomness is an explicit stream of coins, `coins: nat -> bool`, read from
index `next`. Every rule returns the index after the coins it drew. A draw
happens exactly where the source draws one:

- one row direction per row;
- one lateral order per sand or water cell that cannot fall straight down;
- one lateral order for a person standing on footing, whether or not it then moves;
- one jump roll per blocked direction, and only when the short-circuit condition before the roll holds.

The probabilities (one half, three tenths) are not modelled. Any coin stream
is allowed.

The grid is modelled over the five-kind element, because the person rule
reads, writes and swaps Person cells through it. In the source, the grid
module imports the four-kind catalogue (src/grid.rs:1). The person rule
imports that same four-kind catalogue (src/elements/person.rs:1), yet uses
`Person` and `can_walk_on`, which only the five-kind one has. It takes
`PersonState` from the grid module (src/elements/person.rs:2) rather than
from src/states/person_state.rs; the model uses the latter's record. The
person rule also calls `swap_cells`, `get_person_state` and
`set_person_state`, which src/grid.rs does not define. Here those are:

- the same exchange as `swap`;
- a lookup in a `personStates` map field;
- an update of that map field.

Only `SetPersonState` writes the map. Swapping or setting a cell does not move
or delete a record.

The tick dispatches only Sand and Water (src/grid.rs:62-66). A Person cell is
passed over, and the person rule is a separate method, `PersonRule.Update`.

`Grid::width` and `Grid::height` are the class's constant fields. `Grid::get`
is the function `Grids.Grid.Get`, specified by `Boards.At`. The last
`set_person_state` of the person rule (src/elements/person.rs:92) is reached
only after a walk that found nothing. The cell below an in-range person is
always either passable or footing, so the path that skips walking cannot be
taken.

## Model

| member | source | states |
|---|---|---|
| Elements.All | src/types/element.rs:13-15 | the palette has five pairwise-distinct entries, Sand first and the eraser (Air) last |
| Elements.AllComplete | src/types/element.rs:13-15 | every kind appears in the palette |
| Elements.Name | src/types/element.rs:17-25 | every label is non-empty, and the label is "Eraser" exactly for Air |
| Elements.NameInjective | src/types/element.rs:17-25 | no two kinds share a label |
| Elements.IsLiquid | src/types/element.rs:43-45 | liquid exactly for Water |
| Elements.IsSolid | src/types/element.rs:37-40 | solid exactly when neither Air nor liquid |
| Elements.IsMovable | src/types/element.rs:47-50 | movable exactly when neither Air nor Stone (Sand, Water, Person) |
| Elements.CanWalkOn | src/types/element.rs:52-54 | walkable exactly when solid and not a person (Stone, Sand) |
| Elements.WalkableIsSolid | src/types/element.rs:38-54 | walkable implies solid and not liquid, and sand is the only walkable kind that moves |
| LegacyElements.All | src/element.rs:12-14 | the four-kind palette has four pairwise-distinct entries, Sand first and Air last |
| LegacyElements.AllComplete | src/element.rs:12-14 | every four-kind element appears in the palette |
| LegacyElements.Name | src/element.rs:16-23 | every label is non-empty, and the label is "Eraser" exactly for Air |
| LegacyElements.NameInjective | src/element.rs:16-23 | no two of the four kinds share a label |
| LegacyElements.IsLiquid | src/element.rs:40-42 | liquid exactly for Water |
| LegacyElements.IsSolid | src/element.rs:34-37 | solid exactly when neither Air nor liquid |
| LegacyElements.IsMovable | src/element.rs:44-47 | movable exactly when neither Air nor Stone (Sand, Water) |
| LegacyElements.Widen | src/element.rs:4-9 | each four-kind element maps to a non-person five-kind element with the same label |
| LegacyElements.WidenAgrees | src/element.rs:34-47 | the embedding keeps the solid, liquid and movable classifications |
| LegacyElements.WidenOnto | src/element.rs:4-9 | the embedding is injective and reaches every non-person kind |
| PersonStates.New | src/states/person_state.rs:8-13 | a new record has zero covered ticks and no jump |
| PersonStates.WrappingIncrement | src/elements/person.rs:18 | the unsigned 32-bit increment adds one below the limit and wraps to 0 at it |
| Boards.Blank | src/grid.rs:11-17 | a w-by-h board every cell of which is Air |
| Boards.At | src/grid.rs:27-33 | an out-of-range read gives Stone, and an in-range read gives the stored cell |
| Boards.Put | src/grid.rs:35-39 | exactly cell (x, y) becomes e when in range, and nothing changes otherwise |
| Boards.Exchange | src/grid.rs:41-47 | with both cells in range, those two trade contents and all others stay; otherwise nothing changes |
| Boards.ExchangeTwice | src/grid.rs:41-47 | the same exchange applied twice restores the board |
| Boards.CountPut | src/grid.rs:35-39 | a write changes the per-kind counts only by the cell overwritten and the value written |
| Boards.ExchangeCounts | src/grid.rs:41-47 | an exchange keeps the number of cells of every kind |
| Boards.ExchangeKeepsKind | src/grid.rs:41-47 | an exchange whose two cells are not of kind k changes no cell of kind k |
| Boards.Painted | src/grid.rs:142-162 | exactly the in-range cells within Euclidean distance r of (x, y) hold e, and all others are unchanged |
| Boards.InDiskIsDistance | src/grid.rs:145-146 | the disk test is (cx-x)² + (cy-y)² <= r² on integers |
| Boards.DiskWithinSquare | src/grid.rs:143-146 | every disk cell lies within the scanned square of offsets 0..r |
| Boards.PaintRadiusZero | src/grid.rs:142-162 | with radius 0 only (x, y) is painted |
| Moves.Directions | src/grid.rs:83-87 | the lateral order is (-1, 1) or (1, -1), with -1 first exactly on a true draw |
| Moves.FirstOpen | src/grid.rs:89-98 | the index found is open and all earlier ones are not, and nothing is found exactly when no candidate is open |
| Moves.SandTarget | src/grid.rs:71-99 | sand moves one row down, into Air or Water, to column x or x±1. Straight down has priority, and the second diagonal only follows a failed first one. Sand stays exactly on the bottom row or when all three candidates are blocked |
| Moves.WaterTarget | src/grid.rs:101-140 | water moves only into an in-range Air cell, one row down or sideways. Straight down has priority. A sideways move follows only when both diagonals fail, and the second direction only when the first fails. Water stays exactly when all five candidates fail |
| Moves.SandStep | src/grid.rs:71-99 | the sand rule's outcome: the cell trades places with Moves.SandTarget, if any; the shape is kept and at most one coin is drawn (that it keeps the per-kind counts and every Stone and Person cell is Moves.DispatchPreserves) |
| Moves.WaterStep | src/grid.rs:101-140 | the water rule's outcome: the cell trades places with Moves.WaterTarget, if any; the shape is kept and at most one coin is drawn (that it keeps the per-kind counts is WaterRule.WaterDisplacesNothing) |
| Moves.Dispatch | src/grid.rs:60-66 | the reference definition of one cell of the scan (Sand to Moves.SandStep, Water to Moves.WaterStep, anything else left alone); it keeps the board's shape, and what it preserves is Moves.DispatchPreserves and Moves.DispatchOnlyMovable |
| Moves.ScanRow | src/grid.rs:59-67 | the reference definition of one row's scan, each column re-read just before its rule runs; it keeps the board's shape, and what it preserves is Moves.ScanRowPreserves and Moves.ScanRowDraws |
| Moves.ScanRows | src/grid.rs:52-68 | the reference definition of the bottom-up scan of rows, one drawn direction per row; it keeps the board's shape, and what it preserves is Moves.ScanRowsPreserves and Moves.ScanRowsDraws |
| Moves.Tick | src/grid.rs:49-69 | the reference definition of a tick (all rows); it keeps the board's shape, and what it preserves is Moves.TickPreserves |
| Moves.RowOrder | src/grid.rs:53-57 | the row order is 0..w-1 or its reverse, by the draw |
| Moves.DispatchPreserves | src/grid.rs:60-66 | one cell's rule keeps the per-kind counts and every Stone and Person cell, and draws at most once |
| Moves.ScanRowPreserves | src/grid.rs:59-67 | scanning a row keeps the per-kind counts and every Stone and Person cell |
| Moves.ScanRowDraws | src/grid.rs:59-67 | scanning a row draws at most once per visited cell |
| Moves.ScanRowsPreserves | src/grid.rs:52-68 | scanning any number of rows keeps the per-kind counts and every Stone and Person cell |
| Moves.ScanRowsDraws | src/grid.rs:52-68 | scanning rows draws at least one coin per row, and at most w + 1 per row |
| Moves.TickPreserves | src/grid.rs:49-69 | a tick keeps the shape, the per-kind counts and every Stone and Person cell, and draws between h and h·(w+1) coins |
| Moves.DispatchOnlyMovable | src/grid.rs:62-66 | a cell whose kind the four-kind catalogue does not call movable is left alone by the tick |
| Moves.SandSinksThroughWater | src/grid.rs:76-80 | sand above water trades places with it and draws nothing |
| Grids.Grid.Get | src/grid.rs:27-33 | an out-of-range read gives Stone, and an in-range read gives the stored cell |
| Grids.Grid.constructor | src/grid.rs:11-17 | a new grid has the given dimensions, all cells Air, and no person records |
| Grids.Grid.Set | src/grid.rs:35-39 | the cells become Boards.Put of the old cells |
| Grids.Grid.Swap | src/grid.rs:41-47 | the cells become Boards.Exchange of the old cells |
| Grids.Grid.GetPersonState | src/elements/person.rs:10 | a record is found exactly when one is stored at (x, y), and it is that record |
| Grids.Grid.SetPersonState | src/elements/person.rs:33 | the table gains or replaces exactly the entry at (x, y) |
| Grids.Grid.UpdateSand | src/grid.rs:71-99 | the in-place sand rule ends in the cells and coin index given by Moves.SandStep |
| Grids.Grid.UpdateWater | src/grid.rs:101-140 | the in-place water rule ends in the cells and coin index given by Moves.WaterStep |
| Grids.Grid.Update | src/grid.rs:49-69 | the in-place tick ends in the cells and coin index given by Moves.Tick |
| Grids.Grid.PlaceElement | src/grid.rs:142-162 | the cells become Boards.Painted of the old cells (the disk of the given radius) |
| Grids.Grid.PaintMirrored | src/grid.rs:147-158 | the in-range cells at offset (±dx, ±dy) become the element, and no other cell changes |
| Grids.PutPair | src/grid.rs:147-152 | the cells of one row at column offset dx either side of x that are in range become the element, and no other cell changes |
| WaterRule.Update | src/elements/water.rs:5-44 | the stand-alone water rule ends in the cells and coin index given by Moves.WaterStep |
| WaterRule.WaterDisplacesNothing | src/elements/water.rs:12-43 | water keeps the per-kind counts and changes no non-Air cell other than its own |
| PersonRule.Breathe | src/elements/person.rs:15-25 | covered by Water or Sand, the counter goes up by one; otherwise it resets to 0; the jump is untouched |
| PersonRule.Attempt | src/elements/person.rs:56-89 | one direction steps onto supported Air in range if there is any, else climbs onto a walkable block with Air above it, else (blocked, y > 0, a true roll, room above) starts a jump, and in no other case. A roll is drawn exactly when the target is in range and not Air, y > 0, and no climb happened |
| PersonRule.Walk | src/elements/person.rs:49-90 | the first direction that acts decides the walk: the first direction's own outcome when it acts, else the second direction's, else no walk; no directions means no walk; a walk moves only into Air, beside or diagonally up, onto footing or a walkable block; a jump needs room above and a true roll as the last draw; at most one roll is drawn per direction |
| PersonRule.AfterWalk | src/elements/person.rs:66-87 | a step is a move to the step's own target cell, anything else is a stay, and a jump start sets the jump velocity to 2 |
| PersonRule.FallOrWalk | src/elements/person.rs:43-92 | Air or Water below means a fall before any walking. Otherwise the drawn direction is tried first: a side step, a climb or a jump start there happens, with one or two coins drawn. When it does nothing, the other direction's side step, climb or jump start happens at the coin index where the first attempt left off; when neither acts, the person stays with its record unchanged. A sideways move needs footing below. Only a jump start changes the record, and it needs room above and a true roll as the last draw |
| PersonRule.Decide | src/elements/person.rs:5-92 | nothing happens exactly on the bottom row. Drowning happens exactly when the cell is covered and the counter reaches 600. A move goes into an in-range Air or Water neighbour. At most three coins are drawn |
| PersonRule.Commit | src/elements/person.rs:20-92 | nothing changes on Skip; a drowning erases the cell and leaves the records; a stay leaves the cells and a move is the one exchange with its target; after a stay or a move the record is stored exactly where the person ends and no other record changes |
| PersonRule.Step | src/elements/person.rs:5-93 | the reference definition of the whole rule (Commit of Decide); it keeps the board's shape, and its properties are the PersonRule lemmas below |
| PersonRule.Update | src/elements/person.rs:5-93 | the in-place person rule ends in the cells, record table and coin index given by PersonRule.Step |
| PersonRule.FallOrWalkOnGrid | src/elements/person.rs:43-92 | the in-place fall-or-walk part ends as PersonRule.FallOrWalk decides |
| PersonRule.WalkOnGrid | src/elements/person.rs:49-90 | the in-place walk ends as PersonRule.Walk decides, and with nothing changed when no direction acts |
| PersonRule.AttemptOnGrid | src/elements/person.rs:56-89 | one in-place direction of the walk ends as PersonRule.Attempt decides |
| PersonRule.BottomRowInert | src/elements/person.rs:6-8 | on the bottom row the cells, the records and the coin index stay as they are |
| PersonRule.DrownsAfterTooLong | src/elements/person.rs:15-22 | a drowning erases the person's cell, stores no record and draws nothing |
| PersonRule.JumpContinues | src/elements/person.rs:27-34 | a pending jump with Air or Water above moves the person up one cell, lowers the velocity by one, and stores the record there |
| PersonRule.FallsFirst | src/elements/person.rs:35-47 | with no jump to continue, Air or Water below makes the person fall one cell with the jump cancelled, before any walking |
| PersonRule.WalksDrawnDirectionFirst | src/elements/person.rs:49-78 | standing on something, a person steps onto supported Air or climbs onto a walkable block with Air above in the drawn direction, takes its record along, and draws one coin |
| PersonRule.StartsJump | src/elements/person.rs:81-87 | blocked in the drawn direction with room above, a true roll makes the person stay with jump velocity 2 stored in place, after two coins |
| PersonRule.TriesOtherDirection | src/elements/person.rs:56-89 | when the drawn direction does nothing, a side step or climb in the other direction moves the person with its record, and a true roll there while blocked, with room above, starts a jump in place |
| PersonRule.StepKeepsSettled | src/elements/person.rs:17-40 | when all stored records have fewer than 600 covered ticks and a jump velocity in 0..2, so do all records after the rule |
| PersonRule.StepConserves | src/elements/person.rs:17-92 | from a person cell: Stone cells never change, and per-kind counts are kept except that drowning turns the one Person into Air. A record is written only where a person now stands |

## Left out

- The user interface (drawing, input, buttons, pixel geometry) and the frame loop of the binary are not modelled. Neither are the `color` methods of both catalogues, which return floating-point colours.
- The probabilities of the draws and the random generator are not modelled: every coin stream is allowed, so no claim about how often something happens, or about sand settling or water levelling, is made.
- `usize` arithmetic is modelled with unbounded naturals: overflow of `x + dx` or `y + 1` near the largest coordinate, and the `i32` conversion of a column, are not modelled.
- The tick is not claimed to update each particle at most once. Water moved sideways into a column not yet scanned in the same row is visited again, and the model keeps that behaviour.
- The internals of the person-record table are not visible in the source files of this model. The model assumes only a lookup and an overwrite. It assumes no cleanup on `set` and no record that follows a swapped person.
- PersonStates.WrappingIncrement: the `u32` increment of the covered-ticks counter is modelled as wrapping (release-build semantics). A debug build would panic instead. PersonRule.StepKeepsSettled shows that neither can happen for records the rule itself stored.
