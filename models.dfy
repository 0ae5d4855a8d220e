/** The models of environment/models.py that the learning code relies on: the grid
    world with its border and wall rules, and the clamping setters of the mountain
    car and the cart-pole.  The continuous equations of motion are not modelled. */
module Models {
  import opened Wrappers

  /** `Grid.actions`, in the order action indices refer to. */
  const Actions: seq<string> := ["up", "right", "down", "left"]

  type Position = (int, int)

  /** Number of columns of a grid given as its rows. */
  function Cols(g: seq<seq<real>>): nat {
    if |g| == 0 then 0 else |g[0]|
  }

  /** A two-dimensional numpy array: every row has the same length. */
  predicate Rectangular(g: seq<seq<real>>) {
    forall i :: 0 <= i < |g| ==> |g[i]| == Cols(g)
  }

  predicate InBorders(g: seq<seq<real>>, p: Position) {
    0 <= p.0 < |g| && 0 <= p.1 < Cols(g)
  }

  /** `walls_mark or None`: a mark of 0 counts as no mark at all. */
  function WallsMark(mark: Option<real>): (w: Option<real>)
    ensures w.Some? <==> mark.Some? && mark.value != 0.0
    ensures w.Some? ==> w == mark
  {
    if mark.Some? && mark.value != 0.0 then mark else None
  }

  /** `is_move_possible`: the border check comes first, so a wall is only looked up
      inside the grid. */
  function MovePossible(g: seq<seq<real>>, walls: Option<real>, p: Position): (r: bool)
    requires Rectangular(g)
    ensures r ==> InBorders(g, p)
    ensures InBorders(g, p) ==> (r <==> !(walls.Some? && g[p.0][p.1] == walls.value))
  {
    var bordersHit := p.0 < 0 || p.0 >= |g| || p.1 < 0 || p.1 >= Cols(g);
    if bordersHit then false
    else if walls.Some? && g[p.0][p.1] == walls.value then false
    else true
  }

  /** The cell a control aims at: up is one row less, right one column more, down one
      row more, left one column less. */
  function Target(p: Position, control: string): (t: Position)
    requires control in Actions
    ensures control == "up" ==> t == (p.0 - 1, p.1)
    ensures control == "right" ==> t == (p.0, p.1 + 1)
    ensures control == "down" ==> t == (p.0 + 1, p.1)
    ensures control == "left" ==> t == (p.0, p.1 - 1)
  {
    if control == "up" then (p.0 - 1, p.1)
    else if control == "right" then (p.0, p.1 + 1)
    else if control == "down" then (p.0 + 1, p.1)
    else (p.0, p.1 - 1)
  }

  /** Where the agent ends up: the target when it may stand there, else where it was. */
  function NextPosition(g: seq<seq<real>>, walls: Option<real>, p: Position, control: string): Position
    requires Rectangular(g) && control in Actions
  {
    var t := Target(p, control);
    if MovePossible(g, walls, t) then t else p
  }

  /** A move keeps the agent on a possible cell, changes at most one coordinate by one,
      and is refused exactly when its target is impossible. */
  lemma NextPositionFacts(g: seq<seq<real>>, walls: Option<real>, p: Position, control: string)
    requires Rectangular(g) && control in Actions && MovePossible(g, walls, p)
    ensures var q := NextPosition(g, walls, p, control);
            && MovePossible(g, walls, q)
            && (q == p <==> !MovePossible(g, walls, Target(p, control)))
            && (if q.0 >= p.0 then q.0 - p.0 else p.0 - q.0) + (if q.1 >= p.1 then q.1 - p.1 else p.1 - q.1) <= 1
  {
  }

  /** The agent position after a sequence of controls. */
  function RunControls(g: seq<seq<real>>, walls: Option<real>, p: Position, controls: seq<string>): Position
    requires Rectangular(g)
    requires forall i :: 0 <= i < |controls| ==> controls[i] in Actions
    decreases |controls|
  {
    if |controls| == 0 then p
    else RunControls(g, walls, NextPosition(g, walls, p, controls[0]), controls[1..])
  }

  function Zeros(rows: nat, cols: nat): (g: seq<seq<real>>)
    ensures Rectangular(g) && |g| == rows && (rows > 0 ==> Cols(g) == cols)
    ensures forall i, j :: 0 <= i < rows && 0 <= j < cols ==> g[i][j] == 0.0
  {
    seq(rows, _ => seq(cols, _ => 0.0))
  }

  /** Blocked moves at the borders of a 2x2 grid and two walks on a 4x5 grid. */
  lemma GridMoveExamples()
    ensures NextPosition(Zeros(2, 2), None, (0, 0), "left") == (0, 0)
    ensures NextPosition(Zeros(2, 2), None, (1, 0), "down") == (1, 0)
    ensures NextPosition(Zeros(2, 2), None, (0, 0), "up") == (0, 0)
    ensures NextPosition(Zeros(2, 2), None, (0, 1), "right") == (0, 1)
    ensures RunControls(Zeros(4, 5), None, (2, 3), ["left", "left", "right"]) == (2, 2)
    ensures RunControls(Zeros(4, 5), None, (1, 1), ["down", "down", "right", "up"]) == (2, 2)
  {
    var g := Zeros(4, 5);
    assert ["left", "left", "right"][1..] == ["left", "right"];
    assert ["left", "right"][1..] == ["right"];
    assert RunControls(g, None, (2, 3), ["left", "left", "right"]) == RunControls(g, None, (2, 2), ["left", "right"]);
    assert RunControls(g, None, (2, 2), ["left", "right"]) == RunControls(g, None, (2, 1), ["right"]);
    assert ["down", "down", "right", "up"][1..] == ["down", "right", "up"];
    assert ["down", "right", "up"][1..] == ["right", "up"];
    assert ["right", "up"][1..] == ["up"];
    assert RunControls(g, None, (1, 1), ["down", "down", "right", "up"]) == RunControls(g, None, (2, 1), ["down", "right", "up"]);
    assert RunControls(g, None, (2, 1), ["down", "right", "up"]) == RunControls(g, None, (3, 1), ["right", "up"]);
    assert RunControls(g, None, (3, 1), ["right", "up"]) == RunControls(g, None, (3, 2), ["up"]);
  }

  /** The grid world: the agent moves on the cells of `grid`, never onto a wall. */
  class Grid {
    const grid: seq<seq<real>>
    const wallsMark: Option<real>
    const initAgentPosition: Position
    var agentPosition: Position
    var agentDirection: string
    var currentStep: nat

    /** The setter only ever stores possible positions, and the constructor refuses an
        impossible initial one. */
    ghost predicate Valid()
      reads this
    {
      && Rectangular(grid)
      && MovePossible(grid, wallsMark, initAgentPosition)
      && MovePossible(grid, wallsMark, agentPosition)
    }

    function IsMovePossible(p: Position): (r: bool)
      requires Rectangular(grid)
      ensures r == MovePossible(grid, wallsMark, p)
    {
      MovePossible(grid, wallsMark, p)
    }

    /** `Grid(init_agent_position, grid, walls_mark)` for an initial position the agent
        can be placed on; `NewGrid` handles the other case. */
    constructor (init: Position, g: seq<seq<real>>, mark: Option<real>)
      requires Rectangular(g) && MovePossible(g, WallsMark(mark), init)
      ensures Valid()
      ensures grid == g && wallsMark == WallsMark(mark) && initAgentPosition == init
      ensures agentPosition == init && agentDirection == "up" && currentStep == 0
    {
      grid := g;
      wallsMark := WallsMark(mark);
      initAgentPosition := init;
      agentPosition := init;
      agentDirection := "up";
      currentStep := 0;
    }

    /** The `agent_position` setter: an impossible position raises ValueError and
        leaves the grid as it was. */
    method SetAgentPosition(p: Position) returns (r: Result<()>)
      requires Valid()
      modifies this
      ensures Valid()
      ensures MovePossible(grid, wallsMark, p) ==> r == Ok(()) && agentPosition == p
      ensures !MovePossible(grid, wallsMark, p) ==> r == Err(ValueError) && agentPosition == old(agentPosition)
      ensures agentDirection == old(agentDirection) && currentStep == old(currentStep)
    {
      if IsMovePossible(p) {
        agentPosition := p;
        r := Ok(());
      } else {
        r := Err(ValueError);
      }
    }

    /** `reset`: back to the initial position, facing up, at step 0. */
    method Reset()
      requires Valid()
      modifies this
      ensures Valid()
      ensures agentPosition == initAgentPosition && agentDirection == "up" && currentStep == 0
    {
      var _ := SetAgentPosition(initAgentPosition);
      agentDirection := "up";
      currentStep := 0;
    }

    /** `step(control)`: an unknown control fails the assertion; otherwise the agent
        turns, moves unless the target is impossible, and the step counter advances
        either way.  The new observation is returned. */
    method Step(control: string) returns (r: Result<Position>)
      requires Valid()
      modifies this
      ensures Valid()
      ensures control !in Actions ==>
                && r == Err(AssertionError)
                && agentPosition == old(agentPosition)
                && agentDirection == old(agentDirection)
                && currentStep == old(currentStep)
      ensures control in Actions ==>
                && agentPosition == NextPosition(grid, wallsMark, old(agentPosition), control)
                && agentDirection == control
                && currentStep == old(currentStep) + 1
                && r == Ok(agentPosition)
    {
      if control !in Actions {
        return Err(AssertionError);
      }
      agentDirection := control;
      var current := agentPosition;
      if control == "up" {
        current := (current.0 - 1, current.1);
      } else if control == "right" {
        current := (current.0, current.1 + 1);
      } else if control == "down" {
        current := (current.0 + 1, current.1);
      } else if control == "left" {
        current := (current.0, current.1 - 1);
      }
      var _ := SetAgentPosition(current);
      currentStep := currentStep + 1;
      return Ok(agentPosition);
    }
  }

  /** Constructing a grid runs `reset`, whose setter raises ValueError for an initial
      position the agent cannot be placed on. */
  method NewGrid(init: Position, g: seq<seq<real>>, mark: Option<real>) returns (r: Result<Grid>)
    requires Rectangular(g)
    ensures r.Err? <==> !MovePossible(g, WallsMark(mark), init)
    ensures r.Err? ==> r.error == ValueError
    ensures r.Ok? ==> fresh(r.value) && r.value.Valid() && r.value.grid == g &&
                      r.value.wallsMark == WallsMark(mark) && r.value.agentPosition == init &&
                      r.value.initAgentPosition == init &&
                      r.value.agentDirection == "up" && r.value.currentStep == 0
  {
    if !MovePossible(g, WallsMark(mark), init) {
      return Err(ValueError);
    }
    var grid := new Grid(init, g, mark);
    return Ok(grid);
  }

  // ---------------------------------------------------------------------------------
  // Clamping setters

  /** `value` limited to `[lo, hi]`. */
  function Clamp(value: real, lo: real, hi: real): (c: real)
    requires lo <= hi
    ensures lo <= c <= hi
    ensures lo <= value <= hi ==> c == value
    ensures value < lo ==> c == lo
    ensures value > hi ==> c == hi
  {
    if value < lo then lo else if value > hi then hi else value
  }

  /** Clamping twice is clamping once, and clamping never moves a value away from the
      interval. */
  lemma ClampIdempotent(value: real, lo: real, hi: real)
    requires lo <= hi
    ensures Clamp(Clamp(value, lo, hi), lo, hi) == Clamp(value, lo, hi)
    ensures (if Clamp(value, lo, hi) >= value then Clamp(value, lo, hi) - value else value - Clamp(value, lo, hi)) <=
            (if lo >= value then lo - value else if value >= hi then value - hi else 0.0)
  {
  }

  const MinCarPosition: real := -1.2
  const MaxCarPosition: real := 0.5
  const MaxCarSpeed: real := 0.07

  /** The position and speed of the mountain car as its setters maintain them. */
  class MountainCar {
    var carPosition: real
    var carSpeed: real

    ghost predicate Valid()
      reads this
    {
      MinCarPosition <= carPosition <= MaxCarPosition && -MaxCarSpeed <= carSpeed <= MaxCarSpeed
    }

    constructor (position: real, speed: real)
      ensures Valid()
      ensures carPosition == Clamp(position, MinCarPosition, MaxCarPosition)
      ensures carSpeed == Clamp(speed, -MaxCarSpeed, MaxCarSpeed)
    {
      carPosition := Clamp(position, MinCarPosition, MaxCarPosition);
      carSpeed := Clamp(speed, -MaxCarSpeed, MaxCarSpeed);
    }

    /** The `car_speed` setter clamps to `[-0.07, 0.07]`. */
    method SetCarSpeed(value: real)
      modifies this
      ensures carSpeed == Clamp(value, -MaxCarSpeed, MaxCarSpeed)
      ensures carPosition == old(carPosition)
      ensures old(Valid()) ==> Valid()
    {
      var v := value;
      if v < -MaxCarSpeed {
        v := -MaxCarSpeed;
      } else if v > MaxCarSpeed {
        v := MaxCarSpeed;
      }
      carSpeed := v;
    }

    /** The `car_position` setter clamps to `[-1.2, 0.5]` and stops the car when it
        had to clamp. */
    method SetCarPosition(value: real)
      modifies this
      ensures carPosition == Clamp(value, MinCarPosition, MaxCarPosition)
      ensures MinCarPosition <= value <= MaxCarPosition ==> carSpeed == old(carSpeed)
      ensures (value < MinCarPosition || value > MaxCarPosition) ==> carSpeed == 0.0
      ensures old(Valid()) ==> Valid()
    {
      var v := value;
      if v < MinCarPosition {
        v := MinCarPosition;
        SetCarSpeed(0.0);
      } else if v > MaxCarPosition {
        v := MaxCarPosition;
        SetCarSpeed(0.0);
      }
      carPosition := v;
    }
  }

  /** Half of `track_length`, the distance from the centre to either end stop. */
  const HalfTrack: real := 2.4 / 2.0

  /** The cart of the cart-pole as its position setter maintains it. */
  class CartPole {
    var cartPosition: real
    var cartSpeed: real

    ghost predicate Valid()
      reads this
    {
      -HalfTrack <= cartPosition <= HalfTrack
    }

    /** `__init__` ends in `reset`, which puts the initial position through the
        clamping setter and only then restores the initial speed. */
    constructor (position: real, speed: real)
      ensures Valid()
      ensures cartPosition == Clamp(position, -HalfTrack, HalfTrack) && cartSpeed == speed
    {
      new;
      SetCartPosition(position);
      cartSpeed := speed;
    }

    /** The `cart_position` setter: reaching or passing an end stop puts the cart on
        the stop and stops it; the comparisons are inclusive. */
    method SetCartPosition(value: real)
      modifies this
      ensures cartPosition == Clamp(value, -HalfTrack, HalfTrack)
      ensures -HalfTrack < value < HalfTrack ==> cartSpeed == old(cartSpeed)
      ensures (value <= -HalfTrack || value >= HalfTrack) ==> cartSpeed == 0.0
      ensures Valid()
    {
      var v := value;
      if v <= -HalfTrack {
        v := -HalfTrack;
        cartSpeed := 0.0;
      } else if v >= HalfTrack {
        v := HalfTrack;
        cartSpeed := 0.0;
      }
      cartPosition := v;
    }
  }
}
