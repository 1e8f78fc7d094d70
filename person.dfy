// The person rule: a walker that drowns when covered too long, continues a
// jump one cell per tick, falls, walks, steps up onto a block and starts
// jumps. Its record lives in the grid's person-state table.

module PersonRule {
  import opened Elements
  import opened Boards
  import opened PersonStates
  import opened Grids
  import M = Moves

  /** Ticks of being covered after which a person turns into Air. */
  const DROWN_TICKS: nat := 600
  /** Cells of rise a new jump is given. */
  const JUMP_HEIGHT: nat := 2

  /** Water or sand directly above smothers a person. */
  predicate Smothers(e: Element)
  {
    e == Water || e == Sand
  }

  /** A person moves into Air and sinks through Water. */
  predicate Passable(e: Element)
  {
    e == Air || e == Water
  }

  /** What a person can stand on: walkable ground or another person. */
  predicate Footing(e: Element)
  {
    CanWalkOn(e) || e == Person
  }

  /** The cell above (x, y); above the top row counts as Air. */
  function Above(b: Board, w: nat, h: nat, x: nat, y: nat): Element
    requires Shaped(b, w, h)
  {
    if y > 0 then At(b, w, h, x, y - 1) else Air
  }

  /** The record the rule starts from: the stored one, or a fresh one. */
  function Prior(stored: Option<PersonState>): PersonState
  {
    match stored
    case Some(s) => s
    case None => New()
  }

  /** The covered-ticks counter after this tick's look at the cell above. */
  function Breathe(above: Element, s: PersonState): (r: PersonState)
    ensures r.jumpVelocity == s.jumpVelocity
    ensures Smothers(above) && s.waterTicks < U32_LIMIT - 1 ==> r.waterTicks == s.waterTicks + 1
    ensures !Smothers(above) ==> r.waterTicks == 0
  {
    if Smothers(above) then s.(waterTicks := WrappingIncrement(s.waterTicks))
    else s.(waterTicks := 0)
  }

  // ---------------------------------------------------------------------------
  // Walking

  datatype WalkChoice = NoWalk | StepTo(to: Pos) | BeginJump
  datatype Walked = Walked(choice: WalkChoice, next: nat)

  /** One lateral direction dx: step sideways onto supported Air, step up onto
      a walkable block with Air above it, or, when blocked and the draw says
      so, start a jump. NoWalk means: try the next direction. */
  function Attempt(b: Board, w: nat, h: nat, x: nat, y: nat, dx: int, coins: M.Coins, next: nat): (r: Walked)
    requires Shaped(b, w, h)
    ensures next <= r.next <= next + 1
    ensures r.choice.StepTo? ==> r.choice.to.x == x + dx
    ensures r.choice.StepTo? ==>
              InBounds(w, h, r.choice.to.x, r.choice.to.y) && b[r.choice.to.y][r.choice.to.x] == Air
    ensures r.choice.StepTo? ==>
              (r.choice.to.y == y && Footing(At(b, w, h, r.choice.to.x, y + 1))) ||
              (r.choice.to.y + 1 == y && CanWalkOn(At(b, w, h, r.choice.to.x, y)))
    ensures r.choice.BeginJump? ==> y > 0 && Passable(At(b, w, h, x, y - 1)) && r.next == next + 1 && coins(next)
    ensures r.next == next + 1 <==> 0 <= x + dx < w && y > 0 && At(b, w, h, x + dx, y) != Air && !r.choice.StepTo?
    ensures 0 <= x + dx < w && At(b, w, h, x + dx, y) == Air && Footing(At(b, w, h, x + dx, y + 1)) ==>
              r.choice == StepTo(Pos(x + dx, y))
    ensures 0 <= x + dx < w && y > 0 && CanWalkOn(At(b, w, h, x + dx, y)) && At(b, w, h, x + dx, y - 1) == Air ==>
              r.choice == StepTo(Pos(x + dx, y - 1))
    ensures 0 <= x + dx < w && y > 0 && At(b, w, h, x + dx, y) != Air &&
            !(CanWalkOn(At(b, w, h, x + dx, y)) && At(b, w, h, x + dx, y - 1) == Air) &&
            coins(next) && Passable(At(b, w, h, x, y - 1)) ==>
              r.choice.BeginJump?
  {
    var nx := x + dx;
    if nx < 0 || nx >= w then Walked(NoWalk, next)
    else
      var target := At(b, w, h, nx, y);
      var targetBelow := if y + 1 < h then At(b, w, h, nx, y + 1) else Stone;
      if target == Air && Footing(targetBelow) then Walked(StepTo(Pos(nx, y)), next)
      else if y > 0 && CanWalkOn(target) && At(b, w, h, nx, y - 1) == Air then Walked(StepTo(Pos(nx, y - 1)), next)
      else if target != Air && y > 0 then
        if coins(next) && Passable(At(b, w, h, x, y - 1)) then Walked(BeginJump, next + 1)
        else Walked(NoWalk, next + 1)
      else Walked(NoWalk, next)
  }

  /** Attempt the lateral directions dirs in order until one of them acts. */
  function Walk(b: Board, w: nat, h: nat, x: nat, y: nat, dirs: seq<int>, coins: M.Coins, next: nat): (r: Walked)
    requires Shaped(b, w, h)
    ensures next <= r.next <= next + |dirs|
    ensures r.choice.StepTo? ==> (r.choice.to.x - x) in dirs
    ensures r.choice.StepTo? ==>
              InBounds(w, h, r.choice.to.x, r.choice.to.y) && b[r.choice.to.y][r.choice.to.x] == Air
    ensures r.choice.StepTo? ==>
              (r.choice.to.y == y && Footing(At(b, w, h, r.choice.to.x, y + 1))) ||
              (r.choice.to.y + 1 == y && CanWalkOn(At(b, w, h, r.choice.to.x, y)))
    ensures r.choice.BeginJump? ==> y > 0 && Passable(At(b, w, h, x, y - 1)) && r.next > next
    ensures r.choice.BeginJump? ==> r.next > next && coins(r.next - 1)
    ensures |dirs| == 0 ==> r == Walked(NoWalk, next)
    ensures |dirs| > 0 && !Attempt(b, w, h, x, y, dirs[0], coins, next).choice.NoWalk? ==>
              r == Attempt(b, w, h, x, y, dirs[0], coins, next)
    ensures |dirs| == 2 ==>
              var a := Attempt(b, w, h, x, y, dirs[0], coins, next);
              var a2 := Attempt(b, w, h, x, y, dirs[1], coins, a.next);
              a.choice.NoWalk? ==> r == (if a2.choice.NoWalk? then Walked(NoWalk, a2.next) else a2)
    decreases |dirs|
  {
    if |dirs| == 0 then Walked(NoWalk, next)
    else
      var a := Attempt(b, w, h, x, y, dirs[0], coins, next);
      if a.choice.NoWalk? then Walk(b, w, h, x, y, dirs[1..], coins, a.next) else a
  }

  // ---------------------------------------------------------------------------
  // The decision

  datatype Move =
    | Skip            // bottom row: nothing happens at all
    | Drown           // covered for DROWN_TICKS ticks: the cell becomes Air
    | Stay            // no movement; the record is stored in place
    | MoveTo(to: Pos) // one exchange with `to`; the record is stored there

  datatype Decision = Decision(move: Move, state: PersonState, next: nat)

  /** The decision a walk attempt amounts to. */
  function AfterWalk(walked: Walked, s: PersonState): (d: Decision)
    ensures d.next == walked.next
    ensures d.move.Stay? || d.move.MoveTo?
    ensures d.move.MoveTo? <==> walked.choice.StepTo?
    ensures walked.choice.StepTo? ==> d.move == MoveTo(walked.choice.to)
    ensures d.state == (if walked.choice.BeginJump? then s.(jumpVelocity := JUMP_HEIGHT) else s)
  {
    match walked.choice
    case NoWalk => Decision(Stay, s, walked.next)
    case StepTo(p) => Decision(MoveTo(p), s, walked.next)
    case BeginJump => Decision(Stay, s.(jumpVelocity := JUMP_HEIGHT), walked.next)
  }

  /** Fall, else walk when standing on something, else stay. */
  function FallOrWalk(b: Board, w: nat, h: nat, x: nat, y: nat, s: PersonState, coins: M.Coins, next: nat): (d: Decision)
    requires Shaped(b, w, h)
    ensures d.move.Stay? || d.move.MoveTo?
    ensures d.state == s || (d.state == s.(jumpVelocity := JUMP_HEIGHT) && d.move.Stay?)
    ensures next <= d.next <= next + 3
    ensures d.move.MoveTo? ==>
              InBounds(w, h, d.move.to.x, d.move.to.y) && Passable(b[d.move.to.y][d.move.to.x])
    ensures Passable(At(b, w, h, x, y + 1)) ==> d == Decision(MoveTo(Pos(x, y + 1)), s, next)
    ensures d.move.MoveTo? && d.move.to != Pos(x, y + 1) ==>
              Footing(At(b, w, h, x, y + 1)) && d.move.to.x != x &&
              (d.move.to.x + 1 == x || d.move.to.x == x + 1) && (d.move.to.y == y || d.move.to.y + 1 == y)
    ensures d.state != s ==> y > 0 && Passable(At(b, w, h, x, y - 1)) && d.next > next && coins(d.next - 1)
    ensures var dx := M.Directions(coins(next))[0];
      !Passable(At(b, w, h, x, y + 1)) && 0 <= x + dx < w ==>
        (At(b, w, h, x + dx, y) == Air && Footing(At(b, w, h, x + dx, y + 1)) ==>
           d == Decision(MoveTo(Pos(x + dx, y)), s, next + 1)) &&
        (y > 0 && CanWalkOn(At(b, w, h, x + dx, y)) && At(b, w, h, x + dx, y - 1) == Air ==>
           d == Decision(MoveTo(Pos(x + dx, y - 1)), s, next + 1)) &&
        (y > 0 && At(b, w, h, x + dx, y) != Air &&
         !(CanWalkOn(At(b, w, h, x + dx, y)) && At(b, w, h, x + dx, y - 1) == Air) &&
         coins(next + 1) && Passable(At(b, w, h, x, y - 1)) ==>
           d == Decision(Stay, s.(jumpVelocity := JUMP_HEIGHT), next + 2))
    ensures var dx := M.Directions(coins(next))[0];
      var a := Attempt(b, w, h, x, y, dx, coins, next + 1);
      !Passable(At(b, w, h, x, y + 1)) && a.choice.NoWalk? && 0 <= x - dx < w ==>
        (At(b, w, h, x - dx, y) == Air && Footing(At(b, w, h, x - dx, y + 1)) ==>
           d == Decision(MoveTo(Pos(x - dx, y)), s, a.next)) &&
        (y > 0 && CanWalkOn(At(b, w, h, x - dx, y)) && At(b, w, h, x - dx, y - 1) == Air ==>
           d == Decision(MoveTo(Pos(x - dx, y - 1)), s, a.next)) &&
        (y > 0 && At(b, w, h, x - dx, y) != Air &&
         !(CanWalkOn(At(b, w, h, x - dx, y)) && At(b, w, h, x - dx, y - 1) == Air) &&
         coins(a.next) && Passable(At(b, w, h, x, y - 1)) ==>
           d == Decision(Stay, s.(jumpVelocity := JUMP_HEIGHT), a.next + 1))
    ensures var dx := M.Directions(coins(next))[0];
      var a := Attempt(b, w, h, x, y, dx, coins, next + 1);
      var a2 := Attempt(b, w, h, x, y, -dx, coins, a.next);
      !Passable(At(b, w, h, x, y + 1)) && a.choice.NoWalk? && a2.choice.NoWalk? ==>
        d == Decision(Stay, s, a2.next)
  {
    var below := At(b, w, h, x, y + 1);
    if Passable(below) then Decision(MoveTo(Pos(x, y + 1)), s, next)
    else if Footing(below) then
      AfterWalk(Walk(b, w, h, x, y, M.Directions(coins(next)), coins, next + 1), s)
    else Decision(Stay, s, next)
  }

  /** What the person at (x, y) does this tick, given its stored record. */
  function Decide(b: Board, w: nat, h: nat, x: nat, y: nat, stored: Option<PersonState>, coins: M.Coins, next: nat): (d: Decision)
    requires Shaped(b, w, h)
    ensures d.move.Skip? <==> y + 1 >= h
    ensures d.move.Skip? ==> d.next == next
    ensures d.move.Drown? <==>
              (y + 1 < h && Smothers(Above(b, w, h, x, y)) && WrappingIncrement(Prior(stored).waterTicks) >= DROWN_TICKS)
    ensures d.move.Drown? ==> d.next == next
    ensures next <= d.next <= next + 3
    ensures d.move.MoveTo? ==>
              InBounds(w, h, d.move.to.x, d.move.to.y) && Passable(b[d.move.to.y][d.move.to.x])
    ensures d.move.MoveTo? ==>
              (d.move.to.y + 1 == y || d.move.to.y == y || d.move.to.y == y + 1) &&
              (d.move.to.x + 1 == x || d.move.to.x == x || d.move.to.x == x + 1) && d.move.to != Pos(x, y)
    ensures !d.move.Skip? ==> d.state.waterTicks == Breathe(Above(b, w, h, x, y), Prior(stored)).waterTicks
  {
    if y + 1 >= h then Decision(Skip, Prior(stored), next)
    else
      var s := Breathe(Above(b, w, h, x, y), Prior(stored));
      if Smothers(Above(b, w, h, x, y)) && s.waterTicks >= DROWN_TICKS then Decision(Drown, s, next)
      else if s.jumpVelocity > 0 && y > 0 && Passable(At(b, w, h, x, y - 1)) then
        Decision(MoveTo(Pos(x, y - 1)), s.(jumpVelocity := s.jumpVelocity - 1), next)
      else
        FallOrWalk(b, w, h, x, y, if s.jumpVelocity > 0 then s.(jumpVelocity := 0) else s, coins, next)
  }

  datatype PersonOutcome = PersonOutcome(board: Board, states: map<Pos, PersonState>, next: nat)

  /** Carry out a decision: at most one erase or one exchange, and the record
      stored where the person ends up. */
  function Commit(b: Board, states: map<Pos, PersonState>, w: nat, h: nat, x: nat, y: nat, d: Decision): (r: PersonOutcome)
    requires Shaped(b, w, h)
    ensures Shaped(r.board, w, h)
    ensures r.next == d.next
    ensures d.move.Skip? ==> r.board == b && r.states == states
    ensures d.move.Drown? ==> r.board == Put(b, w, h, x, y, Air) && r.states == states
    ensures d.move.Stay? ==> r.board == b
    ensures d.move.MoveTo? ==> r.board == Exchange(b, w, h, x, y, d.move.to.x, d.move.to.y)
    ensures var at := if d.move.MoveTo? then d.move.to else Pos(x, y);
      (d.move.Stay? || d.move.MoveTo?) ==>
        r.states.Keys == states.Keys + {at} && r.states[at] == d.state &&
        forall q :: q in states && q != at ==> r.states[q] == states[q]
  {
    match d.move
    case Skip => PersonOutcome(b, states, d.next)
    case Drown => PersonOutcome(Put(b, w, h, x, y, Air), states, d.next)
    case Stay => PersonOutcome(b, states[Pos(x, y) := d.state], d.next)
    case MoveTo(p) => PersonOutcome(Exchange(b, w, h, x, y, p.x, p.y), states[p := d.state], d.next)
  }

  /** The person rule's effect on the cells and the record table. */
  function Step(b: Board, states: map<Pos, PersonState>, w: nat, h: nat, x: nat, y: nat, coins: M.Coins, next: nat): (r: PersonOutcome)
    requires Shaped(b, w, h)
    ensures Shaped(r.board, w, h)
  {
    Commit(b, states, w, h, x, y, Decide(b, w, h, x, y, Lookup(states, Pos(x, y)), coins, next))
  }

  // ---------------------------------------------------------------------------
  // The rule over the grid

  /** The person rule at (x, y). */
  method Update(grid: Grid, x: nat, y: nat, coins: M.Coins, next: nat) returns (next': nat)
    requires grid.Valid()
    modifies grid
    ensures grid.Valid()
    ensures PersonOutcome(grid.cells, grid.personStates, next')
         == Step(old(grid.cells), old(grid.personStates), grid.width, grid.height, x, y, coins, next)
  {
    next' := next;
    if y + 1 >= grid.height {
      return;
    }
    var stored := grid.GetPersonState(x, y);
    var state := if stored.Some? then stored.value else New();
    assert state == Prior(Lookup(grid.personStates, Pos(x, y)));
    var below := grid.Get(x, y + 1);
    var above := if y > 0 then grid.Get(x, y - 1) else Air;
    var isSuffocating := above == Water || above == Sand;
    if isSuffocating {
      state := state.(waterTicks := WrappingIncrement(state.waterTicks));
      if state.waterTicks >= DROWN_TICKS {
        grid.Set(x, y, Air);
        return;
      }
    } else {
      state := state.(waterTicks := 0);
    }

    if state.jumpVelocity > 0 {
      if y > 0 {
        var above := grid.Get(x, y - 1);
        if above == Air || above == Water {
          grid.Swap(x, y, x, y - 1);
          state := state.(jumpVelocity := state.jumpVelocity - 1);
          grid.SetPersonState(x, y - 1, state);
          return;
        } else {
          state := state.(jumpVelocity := 0);
        }
      } else {
        state := state.(jumpVelocity := 0);
      }
    }

    next' := FallOrWalkOnGrid(grid, x, y, below, state, coins, next');
  }

  /** The fall-or-walk part of the rule, with the record as updated so far. */
  method FallOrWalkOnGrid(grid: Grid, x: nat, y: nat, below: Element, state: PersonState, coins: M.Coins, next: nat)
    returns (next': nat)
    requires grid.Valid() && y + 1 < grid.height && below == grid.Get(x, y + 1)
    modifies grid
    ensures grid.Valid()
    ensures PersonOutcome(grid.cells, grid.personStates, next')
         == Commit(old(grid.cells), old(grid.personStates), grid.width, grid.height, x, y,
                   FallOrWalk(old(grid.cells), grid.width, grid.height, x, y, state, coins, next))
  {
    next' := next;
    if below == Air || below == Water {
      grid.Swap(x, y, x, y + 1);
      grid.SetPersonState(x, y + 1, state);
      return;
    }

    if CanWalkOn(below) || below == Person {
      var directions := M.Directions(coins(next'));
      var acted;
      acted, next' := WalkOnGrid(grid, x, y, directions, state, coins, next' + 1);
      if acted {
        return;
      }
    }

    grid.SetPersonState(x, y, state);
  }

  /** Try each direction in turn until the person steps, climbs or starts a
      jump; acted says whether one of those happened (and was committed). */
  method WalkOnGrid(grid: Grid, x: nat, y: nat, directions: seq<int>, state: PersonState, coins: M.Coins, next: nat)
    returns (acted: bool, next': nat)
    requires grid.Valid() && y + 1 < grid.height
    modifies grid
    ensures grid.Valid()
    ensures var walked := Walk(old(grid.cells), grid.width, grid.height, x, y, directions, coins, next);
      acted == !walked.choice.NoWalk? && next' == walked.next &&
      if acted then
        PersonOutcome(grid.cells, grid.personStates, next')
          == Commit(old(grid.cells), old(grid.personStates), grid.width, grid.height, x, y, AfterWalk(walked, state))
      else
        grid.cells == old(grid.cells) && grid.personStates == old(grid.personStates)
  {
    acted, next' := true, next;
    for i := 0 to |directions|
      invariant grid.Valid()
      invariant grid.cells == old(grid.cells) && grid.personStates == old(grid.personStates)
      invariant Walk(grid.cells, grid.width, grid.height, x, y, directions, coins, next)
             == Walk(grid.cells, grid.width, grid.height, x, y, directions[i..], coins, next')
    {
      assert directions[i..][1..] == directions[i + 1..];
      acted, next' := AttemptOnGrid(grid, x, y, directions[i], state, coins, next');
      if acted {
        return;
      }
    }
    acted := false;
  }

  /** One direction of the walk on the grid; acted says whether the person
      stepped, climbed or started a jump (and that was committed). */
  method AttemptOnGrid(grid: Grid, x: nat, y: nat, dx: int, state: PersonState, coins: M.Coins, next: nat)
    returns (acted: bool, next': nat)
    requires grid.Valid() && y + 1 < grid.height
    modifies grid
    ensures grid.Valid()
    ensures var a := Attempt(old(grid.cells), grid.width, grid.height, x, y, dx, coins, next);
      acted == !a.choice.NoWalk? && next' == a.next &&
      if acted then
        PersonOutcome(grid.cells, grid.personStates, next')
          == Commit(old(grid.cells), old(grid.personStates), grid.width, grid.height, x, y, AfterWalk(a, state))
      else
        grid.cells == old(grid.cells) && grid.personStates == old(grid.personStates)
  {
    acted, next' := true, next;
    var nx := x + dx;
    if nx < 0 || nx >= grid.width {
      acted := false;
      return;
    }
    var target := grid.Get(nx, y);
    var targetBelow := if y + 1 < grid.height then grid.Get(nx, y + 1) else Stone;

    if target == Air && (CanWalkOn(targetBelow) || targetBelow == Person) {
      grid.Swap(x, y, nx, y);
      grid.SetPersonState(nx, y, state);
      return;
    }

    if y > 0 && CanWalkOn(target) {
      var aboveTarget := grid.Get(nx, y - 1);
      if aboveTarget == Air {
        grid.Swap(x, y, nx, y - 1);
        grid.SetPersonState(nx, y - 1, state);
        return;
      }
    }

    if target != Air && y > 0 {
      var roll := coins(next');
      next' := next' + 1;
      if roll {
        var above := grid.Get(x, y - 1);
        if above == Air || above == Water {
          grid.SetPersonState(x, y, state.(jumpVelocity := JUMP_HEIGHT));
          return;
        }
      }
    }
    acted := false;
  }

  // ---------------------------------------------------------------------------
  // Properties

  /** On the bottom row the rule changes nothing and draws nothing. */
  lemma BottomRowInert(b: Board, states: map<Pos, PersonState>, w: nat, h: nat, x: nat, y: nat, coins: M.Coins, next: nat)
    requires Shaped(b, w, h) && y + 1 >= h
    ensures Step(b, states, w, h, x, y, coins, next) == PersonOutcome(b, states, next)
  {
  }

  /** The record after the covered-ticks update, for the person at (x, y). */
  function Breathed(b: Board, states: map<Pos, PersonState>, w: nat, h: nat, x: nat, y: nat): PersonState
    requires Shaped(b, w, h)
  {
    Breathe(Above(b, w, h, x, y), Prior(Lookup(states, Pos(x, y))))
  }

  /** The person survives this tick's covered-ticks update. */
  predicate Survives(b: Board, states: map<Pos, PersonState>, w: nat, h: nat, x: nat, y: nat)
    requires Shaped(b, w, h)
  {
    !(Smothers(Above(b, w, h, x, y)) && Breathed(b, states, w, h, x, y).waterTicks >= DROWN_TICKS)
  }

  /** Drowning erases the person, stores no record and draws nothing. */
  lemma DrownsAfterTooLong(b: Board, states: map<Pos, PersonState>, w: nat, h: nat, x: nat, y: nat, coins: M.Coins, next: nat)
    requires Shaped(b, w, h) && y + 1 < h && !Survives(b, states, w, h, x, y)
    ensures Step(b, states, w, h, x, y, coins, next) == PersonOutcome(Put(b, w, h, x, y, Air), states, next)
  {
  }

  /** A pending jump with Air or Water above moves the person one cell up,
      spends one unit of the jump, stores the record there and draws nothing. */
  lemma JumpContinues(b: Board, states: map<Pos, PersonState>, w: nat, h: nat, x: nat, y: nat, coins: M.Coins, next: nat)
    requires Shaped(b, w, h) && 0 < y && y + 1 < h && Survives(b, states, w, h, x, y)
    requires Breathed(b, states, w, h, x, y).jumpVelocity > 0 && Passable(At(b, w, h, x, y - 1))
    ensures var s := Breathed(b, states, w, h, x, y);
      Step(b, states, w, h, x, y, coins, next)
        == PersonOutcome(Exchange(b, w, h, x, y, x, y - 1), states[Pos(x, y - 1) := s.(jumpVelocity := s.jumpVelocity - 1)], next)
  {
  }

  /** Without a jump to continue, Air or Water below makes the person fall one
      cell before any walking is tried; a blocked jump is cancelled. */
  lemma FallsFirst(b: Board, states: map<Pos, PersonState>, w: nat, h: nat, x: nat, y: nat, coins: M.Coins, next: nat)
    requires Shaped(b, w, h) && y + 1 < h && Survives(b, states, w, h, x, y)
    requires Breathed(b, states, w, h, x, y).jumpVelocity > 0 ==> y == 0 || !Passable(At(b, w, h, x, y - 1))
    requires x < w && Passable(b[y + 1][x])
    ensures var s := Breathed(b, states, w, h, x, y);
      var s' := if s.jumpVelocity > 0 then s.(jumpVelocity := 0) else s;
      Step(b, states, w, h, x, y, coins, next)
        == PersonOutcome(Exchange(b, w, h, x, y, x, y + 1), states[Pos(x, y + 1) := s'], next)
  {
  }

  /** The record a person that neither drowns nor continues a jump carries into
      falling or walking: the jump, if any, is cancelled. */
  function Grounded(b: Board, states: map<Pos, PersonState>, w: nat, h: nat, x: nat, y: nat): PersonState
    requires Shaped(b, w, h)
  {
    var s := Breathed(b, states, w, h, x, y);
    if s.jumpVelocity > 0 then s.(jumpVelocity := 0) else s
  }

  /** No jump continues this tick: none is pending, or there is no room above. */
  predicate NoJumpToContinue(b: Board, states: map<Pos, PersonState>, w: nat, h: nat, x: nat, y: nat)
    requires Shaped(b, w, h)
  {
    Breathed(b, states, w, h, x, y).jumpVelocity > 0 ==> y == 0 || !Passable(At(b, w, h, x, y - 1))
  }

  /** Standing on something, a person tries the drawn direction first: onto
      supported Air beside it, or up onto a walkable block with Air above it.
      The record goes with the person, and one coin (the order) is drawn. */
  lemma WalksDrawnDirectionFirst(b: Board, states: map<Pos, PersonState>, w: nat, h: nat, x: nat, y: nat, coins: M.Coins, next: nat)
    requires Shaped(b, w, h) && y + 1 < h && Survives(b, states, w, h, x, y) && NoJumpToContinue(b, states, w, h, x, y)
    requires !Passable(At(b, w, h, x, y + 1))
    requires 0 <= x + M.Directions(coins(next))[0] < w
    ensures var nx: nat := x + M.Directions(coins(next))[0];
      var s := Grounded(b, states, w, h, x, y);
      (At(b, w, h, nx, y) == Air && Footing(At(b, w, h, nx, y + 1)) ==>
         Step(b, states, w, h, x, y, coins, next)
           == PersonOutcome(Exchange(b, w, h, x, y, nx, y), states[Pos(nx, y) := s], next + 1)) &&
      (0 < y && CanWalkOn(At(b, w, h, nx, y)) && At(b, w, h, nx, y - 1) == Air ==>
         Step(b, states, w, h, x, y, coins, next)
           == PersonOutcome(Exchange(b, w, h, x, y, nx, y - 1), states[Pos(nx, y - 1) := s], next + 1))
  {
  }

  /** Blocked in the drawn direction with room above, a person starts a jump
      on a true roll: it stays put with jump velocity 2 stored in place. */
  lemma StartsJump(b: Board, states: map<Pos, PersonState>, w: nat, h: nat, x: nat, y: nat, coins: M.Coins, next: nat)
    requires Shaped(b, w, h) && 0 < y && y + 1 < h && Survives(b, states, w, h, x, y) && NoJumpToContinue(b, states, w, h, x, y)
    requires !Passable(At(b, w, h, x, y + 1)) && Passable(At(b, w, h, x, y - 1))
    requires 0 <= x + M.Directions(coins(next))[0] < w
    requires var nx: nat := x + M.Directions(coins(next))[0];
      At(b, w, h, nx, y) != Air && !(CanWalkOn(At(b, w, h, nx, y)) && At(b, w, h, nx, y - 1) == Air)
    requires coins(next + 1)
    ensures Step(b, states, w, h, x, y, coins, next)
         == PersonOutcome(b, states[Pos(x, y) := Grounded(b, states, w, h, x, y).(jumpVelocity := JUMP_HEIGHT)], next + 2)
  {
  }

  /** When the drawn direction does nothing, the other one is tried: a side
      step or climb there moves the person and its record, and a true roll
      there while blocked, with room above, starts a jump in place. */
  lemma TriesOtherDirection(b: Board, states: map<Pos, PersonState>, w: nat, h: nat, x: nat, y: nat, coins: M.Coins, next: nat)
    requires Shaped(b, w, h) && y + 1 < h && Survives(b, states, w, h, x, y) && NoJumpToContinue(b, states, w, h, x, y)
    requires !Passable(At(b, w, h, x, y + 1))
    requires Attempt(b, w, h, x, y, M.Directions(coins(next))[0], coins, next + 1).choice.NoWalk?
    requires 0 <= x - M.Directions(coins(next))[0] < w
    ensures var nx: nat := x - M.Directions(coins(next))[0];
      var n := Attempt(b, w, h, x, y, M.Directions(coins(next))[0], coins, next + 1).next;
      var s := Grounded(b, states, w, h, x, y);
      (At(b, w, h, nx, y) == Air && Footing(At(b, w, h, nx, y + 1)) ==>
         Step(b, states, w, h, x, y, coins, next)
           == PersonOutcome(Exchange(b, w, h, x, y, nx, y), states[Pos(nx, y) := s], n)) &&
      (0 < y && CanWalkOn(At(b, w, h, nx, y)) && At(b, w, h, nx, y - 1) == Air ==>
         Step(b, states, w, h, x, y, coins, next)
           == PersonOutcome(Exchange(b, w, h, x, y, nx, y - 1), states[Pos(nx, y - 1) := s], n)) &&
      (0 < y && At(b, w, h, nx, y) != Air && !(CanWalkOn(At(b, w, h, nx, y)) && At(b, w, h, nx, y - 1) == Air) &&
       coins(n) && Passable(At(b, w, h, x, y - 1)) ==>
         Step(b, states, w, h, x, y, coins, next)
           == PersonOutcome(b, states[Pos(x, y) := s.(jumpVelocity := JUMP_HEIGHT)], n + 1))
  {
    var s := Grounded(b, states, w, h, x, y);
    var d := FallOrWalk(b, w, h, x, y, s, coins, next);
    assert Step(b, states, w, h, x, y, coins, next) == Commit(b, states, w, h, x, y, d);
  }

  /** A record as the rule leaves it: not yet drowned, and within a jump's height. */
  predicate Settled(s: PersonState)
  {
    s.waterTicks < DROWN_TICKS && 0 <= s.jumpVelocity <= JUMP_HEIGHT
  }

  ghost predicate AllSettled(states: map<Pos, PersonState>)
  {
    forall p :: p in states ==> Settled(states[p])
  }

  /** The rule only ever stores settled records, so the covered-ticks counter
      never comes near its 32-bit limit. */
  lemma StepKeepsSettled(b: Board, states: map<Pos, PersonState>, w: nat, h: nat, x: nat, y: nat, coins: M.Coins, next: nat)
    requires Shaped(b, w, h) && AllSettled(states)
    ensures AllSettled(Step(b, states, w, h, x, y, coins, next).states)
  {
    var d := Decide(b, w, h, x, y, Lookup(states, Pos(x, y)), coins, next);
    var prior := Prior(Lookup(states, Pos(x, y)));
    assert Settled(prior);
    if !d.move.Skip? && !d.move.Drown? {
      var s := Breathe(Above(b, w, h, x, y), prior);
      assert d.state.waterTicks == s.waterTicks;
      if !(s.jumpVelocity > 0 && y > 0 && Passable(At(b, w, h, x, y - 1))) {
        var s' := if s.jumpVelocity > 0 then s.(jumpVelocity := 0) else s;
        assert d == FallOrWalk(b, w, h, x, y, s', coins, next);
      }
      assert Settled(d.state);
    }
  }

  /** Started on a person cell, the rule keeps every Stone cell; it keeps the
      number of cells of every kind, except that a drowning turns the one
      Person into Air; and it stores a record only where the person now stands. */
  lemma StepConserves(b: Board, states: map<Pos, PersonState>, w: nat, h: nat, x: nat, y: nat, coins: M.Coins, next: nat)
    requires Shaped(b, w, h) && InBounds(w, h, x, y) && b[y][x] == Person
    ensures var d := Decide(b, w, h, x, y, Lookup(states, Pos(x, y)), coins, next);
      var r := Step(b, states, w, h, x, y, coins, next);
      SameCellsHold(b, r.board, w, h, Stone) &&
      (d.move.Drown? ==> r.board[y][x] == Air &&
                         forall k :: Count(r.board, k) + Indicator(Person, k) == Count(b, k) + Indicator(Air, k)) &&
      (!d.move.Drown? ==> M.CountsKept(b, r.board)) &&
      (forall p :: p in r.states && (p !in states || r.states[p] != states[p]) ==>
                   InBounds(w, h, p.x, p.y) && r.board[p.y][p.x] == Person)
  {
    var d := Decide(b, w, h, x, y, Lookup(states, Pos(x, y)), coins, next);
    match d.move
    case Skip =>
    case Drown =>
      forall k
        ensures Count(Put(b, w, h, x, y, Air), k) + Indicator(Person, k) == Count(b, k) + Indicator(Air, k)
      {
        CountPut(b, w, h, x, y, Air, k);
      }
    case Stay =>
    case MoveTo(p) =>
      ExchangeCounts(b, w, h, x, y, p.x, p.y);
      ExchangeKeepsKind(b, w, h, x, y, p.x, p.y, Stone);
  }
}
