/** Episode bookkeeping of the `Environment` base class (abstract.py) and its two kinds
    of subclasses: the grid environments of environment/grid.py, whose state is the
    row-major cell index, and the continuous environments of environment/continuous.py,
    whose state is the observation itself or its approximation. */
module Environments {
  import opened Wrappers
  import opened Fuzzy
  import opened Approximators
  import opened Models

  /** `self.actions[action_index]` with Python's indexing from the end for negative
      indices. */
  function ActionAt<T>(actions: seq<T>, i: int): (r: Result<T>)
    ensures r.Ok? <==> -|actions| <= i < |actions|
    ensures r.Err? ==> r.error == IndexError
    ensures 0 <= i < |actions| ==> r == Ok(actions[i])
    ensures -|actions| <= i < 0 ==> r == Ok(actions[|actions| + i])
  {
    if 0 <= i < |actions| then Ok(actions[i])
    else if -|actions| <= i < 0 then Ok(actions[|actions| + i])
    else Err(IndexError)
  }

  /** `done`: the episode ends in an absorbing state or at the step ceiling. */
  predicate Done(absorbing: bool, nSteps: nat, maxSteps: int) {
    absorbing || nSteps >= maxSteps
  }

  /** `max_steps or default`: a missing or zero ceiling means the class default. */
  function MaxStepsOr(maxSteps: Option<int>, default: int): (m: int)
    ensures maxSteps.Some? && maxSteps.value != 0 ==> m == maxSteps.value
    ensures maxSteps.None? || maxSteps.value == 0 ==> m == default
  {
    if maxSteps.Some? && maxSteps.value != 0 then maxSteps.value else default
  }

  // ---------------------------------------------------------------------------------
  // Grid environments

  /** `GridEnvironment.max_steps`. */
  const GridMaxSteps: int := 1000

  /** `get_state`: the row-major index of a cell. */
  function CellState(g: seq<seq<real>>, p: Position): int {
    p.0 * Cols(g) + p.1
  }

  /** The cell index is `encode_state([row, col], grid.shape)` and lies in
      `[0, grid.size)` for every cell of the grid; distinct cells have distinct
      indices. */
  lemma CellStateIsEncoding(g: seq<seq<real>>, p: Position)
    requires InBorders(g, p)
    ensures EncodeState([p.0, p.1], [|g|, Cols(g)]) == Ok(CellState(g, p))
    ensures 0 <= CellState(g, p) < |g| * Cols(g)
    ensures Unflatten(CellState(g, p), [|g|, Cols(g)]) == [p.0, p.1]
  {
    var idx, shape := [p.0, p.1], [|g|, Cols(g)];
    assert shape[1..] == [Cols(g)] && idx[1..] == [p.1];
    assert Product([Cols(g)]) == Cols(g) by {
      assert [Cols(g)][1..] == [];
    }
    assert Product(shape) == |g| * Cols(g);
    assert Flatten(idx, shape) == CellState(g, p) by {
      assert Flatten([p.1], [Cols(g)]) == p.1 by {
        assert [p.1][1..] == [] && [Cols(g)][1..] == [];
      }
    }
    assert InShape(idx, shape);
    UnflattenFlatten(idx, shape);
  }

  /** The cell a state index stands for: the inverse of `CellState`. */
  function CellOf(g: seq<seq<real>>, s: nat): Position
    requires |g| > 0 && Cols(g) > 0
  {
    var idx := Unflatten(s, [|g|, Cols(g)]);
    (idx[0], idx[1])
  }

  lemma CellOfState(g: seq<seq<real>>, p: Position)
    requires InBorders(g, p)
    ensures CellOf(g, CellState(g, p)) == p
  {
    CellStateIsEncoding(g, p);
  }

  /** One step of a grid environment: from state `s` the action with index `a` moves
      the agent as the grid allows, reaching state `s2` and the reward found there. */
  predicate GridTransition(g: seq<seq<real>>, walls: Option<real>, s: nat, a: nat, r: real, s2: nat)
    requires Rectangular(g) && |g| > 0 && Cols(g) > 0
  {
    && a < |Actions|
    && var q := NextPosition(g, walls, CellOf(g, s), Actions[a]);
       InBorders(g, q) && s2 == CellState(g, q) && r == g[q.0][q.1]
  }

  /** A move of the agent from a possible cell is a grid transition between the two
      cells' states. */
  lemma MoveIsGridTransition(g: seq<seq<real>>, walls: Option<real>, p: Position, a: nat)
    requires Rectangular(g) && MovePossible(g, walls, p) && a < |Actions|
    ensures 0 <= CellState(g, p) < |g| * Cols(g)
    ensures var q := NextPosition(g, walls, p, Actions[a]);
            && MovePossible(g, walls, q) && 0 <= CellState(g, q) < |g| * Cols(g)
            && GridTransition(g, walls, CellState(g, p), a, g[q.0][q.1], CellState(g, q))
  {
    NextPositionFacts(g, walls, p, Actions[a]);
    var q := NextPosition(g, walls, p, Actions[a]);
    CellStateIsEncoding(g, p);
    CellStateIsEncoding(g, q);
    CellOfState(g, p);
  }

  /** A grid environment: a grid model, the states visited in this episode and the
      current state. */
  class GridEnvironment {
    const model: Grid
    const maxSteps: int
    var state: int
    var steps: seq<int>

    ghost predicate Valid()
      reads this, model
    {
      model.Valid() && state == CellState(model.grid, model.agentPosition)
    }

    /** `reward`: the grid value under the agent. */
    function Reward(): (r: real)
      reads model
      requires model.Valid()
    {
      model.grid[model.agentPosition.0][model.agentPosition.1]
    }

    /** `is_state_absorbing`: any cell with a non-zero value ends the episode. */
    predicate IsStateAbsorbing()
      reads model
      requires model.Valid()
    {
      Reward() != 0.0
    }

    predicate IsDone()
      reads this, model
      requires model.Valid()
    {
      Done(IsStateAbsorbing(), |steps|, maxSteps)
    }

    /** `states`: every cell index of the grid. */
    function States(): (s: seq<int>)
      ensures |s| == |model.grid| * Cols(model.grid)
      ensures forall i :: 0 <= i < |s| ==> s[i] == i
    {
      seq(|model.grid| * Cols(model.grid), i => i)
    }

    function GetState(): (s: int)
      reads model
      requires model.Valid()
      ensures 0 <= s < |States()|
    {
      CellStateIsEncoding(model.grid, model.agentPosition);
      CellState(model.grid, model.agentPosition)
    }

    /** `GridEnvironment(max_steps)` on a grid, a wall mark and a starting position; the
        model is reset and so is the episode. */
    constructor (m: Grid, ceiling: Option<int>)
      requires m.Valid()
      modifies m
      ensures Valid() && model == m
      ensures maxSteps == MaxStepsOr(ceiling, GridMaxSteps)
      ensures model.agentPosition == model.initAgentPosition && model.agentDirection == "up" && model.currentStep == 0
      ensures steps == []
    {
      model := m;
      maxSteps := MaxStepsOr(ceiling, GridMaxSteps);
      new;
      m.Reset();
      state := CellState(m.grid, m.agentPosition);
      steps := [];
    }

    /** `clear`: reset the model, recompute the state and forget the episode. */
    method Clear()
      requires Valid()
      modifies this, model
      ensures Valid()
      ensures model.agentPosition == model.initAgentPosition && model.agentDirection == "up" && model.currentStep == 0
      ensures steps == []
    {
      model.Reset();
      state := GetState();
      steps := [];
    }

    /** `do_action(i)`: look up the control, step the model, record the new state. */
    method DoAction(actionIndex: int) returns (r: Result<int>)
      requires Valid()
      modifies this, model
      ensures Valid()
      ensures r.Err? <==> ActionAt(Actions, actionIndex).Err?
      ensures r.Err? ==> r.error == IndexError && unchanged(this) && unchanged(model)
      ensures r.Ok? ==>
                var control := ActionAt(Actions, actionIndex).value;
                && model.agentPosition == NextPosition(model.grid, model.wallsMark, old(model.agentPosition), control)
                && model.agentDirection == control
                && model.currentStep == old(model.currentStep) + 1
                && steps == old(steps) + [state]
                && r == Ok(state)
    {
      var action := ActionAt(Actions, actionIndex);
      if action.Err? {
        return Err(action.error);
      }
      var _ := model.Step(action.value);
      state := GetState();
      steps := steps + [state];
      return Ok(state);
    }
  }

  // ---------------------------------------------------------------------------------
  // Continuous environments

  datatype ContinuousKind = BallBeam | MountainCar | CartPole

  /** `numpy.pi` as the double it is. */
  const Pi: real := 3.141592653589793

  /** `BallBeam.beam_length`. */
  const BeamLength: real := 2.0

  /** `Environment.max_steps` as the continuous environments set it. */
  const ContinuousMaxSteps: int := 100000

  function Abs(x: real): real {
    if x < 0.0 then -x else x
  }

  function Radians(degrees: real): real {
    degrees * Pi / 180.0
  }

  /** Number of observation components: (position, speed) for the ball and the car,
      (cart position, cart speed, pole angle, pole speed) for the cart-pole. */
  function ObservationLength(kind: ContinuousKind): nat {
    match kind
    case BallBeam => 2
    case MountainCar => 2
    case CartPole => 4
  }

  /** The class-level `actions`: controls an action index selects. */
  function ContinuousActions(kind: ContinuousKind): (a: seq<real>)
    ensures |a| > 0
  {
    match kind
    case BallBeam => [-Pi / 4.0, -Pi / 8.0, Pi / 8.0, Pi / 4.0]
    case MountainCar => [-1.0, 0.0, 1.0]
    case CartPole => [-10.0, 10.0]
  }

  /** The class-level `state_variables_ranges`. */
  function DefaultRanges(kind: ContinuousKind): (r: seq<seq<real>>)
    ensures |r| == ObservationLength(kind)
  {
    match kind
    case BallBeam => [[-0.2, 0.2], [-0.2, 0.2]]
    case MountainCar => [[-0.86, -0.52, -0.18, 0.16], [-0.042, -0.014, 0.014, 0.042]]
    case CartPole =>
      [[-1.44, -0.48, 0.48, 1.44],
       [-2.0 / 3.0, 2.0 / 3.0],
       [Radians(-7.2), Radians(-2.4), Radians(2.4), Radians(7.2)],
       [Radians(-400.0 / 3.0), Radians(400.0 / 3.0)]]
  }

  /** `is_state_absorbing`: the ball off the half beam, the car on the flag, or the pole
      more than 12 degrees from upright. */
  predicate IsStateAbsorbing(kind: ContinuousKind, obs: seq<real>)
    requires |obs| == ObservationLength(kind)
  {
    match kind
    case BallBeam => Abs(obs[0]) >= BeamLength / 2.0
    case MountainCar => obs[0] == 0.5
    case CartPole => Abs(obs[2]) > 12.0 / 180.0 * Pi
  }

  /** `reward`: -1 for losing the ball or the pole, +1 for reaching the flag, else 0. */
  function Reward(kind: ContinuousKind, obs: seq<real>): (r: real)
    requires |obs| == ObservationLength(kind)
    ensures IsStateAbsorbing(kind, obs) ==> r == (if kind == MountainCar then 1.0 else -1.0)
    ensures !IsStateAbsorbing(kind, obs) ==> r == 0.0
  {
    match kind
    case BallBeam => if IsStateAbsorbing(kind, obs) then -1.0 else 0.0
    case MountainCar => if IsStateAbsorbing(kind, obs) then 1.0 else 0.0
    case CartPole => if IsStateAbsorbing(kind, obs) then -1.0 else 0.0
  }

  /** The thresholds: the ball is lost at 1 (half of a beam of length 2) from the centre
      and the pole beyond 12 degrees; the car only at position 0.5 exactly. */
  lemma AbsorbingExamples()
    ensures IsStateAbsorbing(BallBeam, [-1.0, 0.0]) && IsStateAbsorbing(BallBeam, [1.0, 0.0])
    ensures !IsStateAbsorbing(BallBeam, [0.7, 0.0]) && !IsStateAbsorbing(BallBeam, [-0.99, 0.0])
    ensures IsStateAbsorbing(MountainCar, [0.5, 0.0]) && !IsStateAbsorbing(MountainCar, [0.4, 0.0])
    ensures !IsStateAbsorbing(MountainCar, [-1.2, 0.0])
    ensures IsStateAbsorbing(CartPole, [0.0, 0.0, Radians(14.0), 0.0])
    ensures IsStateAbsorbing(CartPole, [0.0, 0.0, Radians(-13.0), 0.0])
    ensures !IsStateAbsorbing(CartPole, [0.0, 0.0, Radians(12.0), 0.0])
    ensures !IsStateAbsorbing(CartPole, [0.0, 0.0, Radians(-8.0), 0.0])
    ensures Reward(BallBeam, [1.0, 0.0]) == -1.0 && Reward(MountainCar, [0.5, 0.0]) == 1.0
  {
  }

  /** `do_action(a)` on a continuous environment followed by reading `reward`: the
      control action index a selects drives the model from obs to obs2, and r is the
      reward at obs2. */
  predicate ContinuousTransition(kind: ContinuousKind, dynamics: (seq<real>, real) -> seq<real>,
                                 obs: seq<real>, a: nat, r: real, obs2: seq<real>)
  {
    && a < |ContinuousActions(kind)|
    && obs2 == dynamics(obs, ContinuousActions(kind)[a])
    && |obs2| == ObservationLength(kind)
    && r == Reward(kind, obs2)
  }

  /** An approximator the environment holds. */
  datatype Approximator =
    | TableApx(table: TableApproximator)
    | CmacApx(cmac: CmacApproximator)
    | FuzzyApx(fuzzy: FuzzyApproximator)

  /** What `approximator(len(observation), ranges, ...)` can be asked to build. */
  datatype ApproximatorChoice =
    | TableChoice
    | CmacChoice(nLayers: int)
    | FuzzyChoice(fuzzySets: Option<Typed<seq<Typed<FuzzySet>>>>)

  /** An approximator built for observations of length `n`. */
  predicate Fits(a: Approximator, n: nat) {
    match a
    case TableApx(t) => t.Valid() && t.nStateVariables == n
    case CmacApx(c) => c.Valid() && c.nStateVariables == n
    case FuzzyApx(f) =>
      f.Valid() && f.nStateVariables == n && forall i :: 0 <= i < |f.fuzzySets| ==> NaNFreeSet(f.fuzzySets[i])
  }

  /** What `get_state` returns: the raw observation, a table code, one code per CMAC
      layer, or the grade vectors of a fuzzy approximator. */
  datatype EnvState =
    | Raw(observation: seq<real>)
    | Code(code: int)
    | Codes(codes: seq<int>)
    | Grades(grades: seq<seq<real>>)

  /** `get_state` of a continuous environment. */
  function GetState(approximator: Option<Approximator>, obs: seq<real>): (s: EnvState)
    requires approximator.Some? ==> Fits(approximator.value, |obs|)
    ensures approximator.None? ==> s == Raw(obs)
    ensures approximator.Some? && approximator.value.TableApx? ==>
              s.Code? && 0 <= s.code < |TablePossibleStates(approximator.value.table)|
    ensures approximator.Some? && approximator.value.CmacApx? ==>
              s.Codes? && |s.codes| == approximator.value.cmac.nLayers &&
              forall l :: 0 <= l < |s.codes| ==>
                0 <= s.codes[l] < |CmacPossibleStates(approximator.value.cmac)[l]|
    ensures approximator.Some? && approximator.value.FuzzyApx? ==>
              s.Grades? && |s.grades| == |obs| &&
              forall i :: 0 <= i < |obs| ==>
                s.grades[i] == MembershipGrades(approximator.value.fuzzy.fuzzySets[i], obs[i])
  {
    match approximator
    case None => Raw(obs)
    case Some(TableApx(t)) =>
      TableApproximateStateInRange(t, obs);
      Code(TableApproximateState(t, obs).value)
    case Some(CmacApx(c)) => Codes(CmacApproximateState(c, obs).value)
    case Some(FuzzyApx(f)) => Grades(FuzzyApproximateState(f, obs).value)
  }

  /** What `states` returns. */
  datatype PossibleStates = Flat(states: seq<nat>) | Layered(layers: seq<seq<nat>>)

  /** `states`: only an approximated environment has them, and a fuzzy approximator
      does not define them. */
  function States(approximator: Option<Approximator>): (r: Result<PossibleStates>)
    requires approximator.Some? && approximator.value.CmacApx? ==> approximator.value.cmac.Valid()
    ensures approximator.None? ==> r == Err(AttributeError)
    ensures approximator.Some? && approximator.value.FuzzyApx? ==> r == Err(NotImplementedError)
    ensures approximator.Some? && approximator.value.TableApx? ==>
              r == Ok(Flat(TablePossibleStates(approximator.value.table)))
    ensures approximator.Some? && approximator.value.CmacApx? ==>
              r == Ok(Layered(CmacPossibleStates(approximator.value.cmac)))
  {
    match approximator
    case None => Err(AttributeError)
    case Some(TableApx(t)) => Ok(Flat(TablePossibleStates(t)))
    case Some(CmacApx(c)) => Ok(Layered(CmacPossibleStates(c)))
    case Some(FuzzyApx(_)) => Err(NotImplementedError)
  }

  /** Building the approximator `approximate_with` asks for. */
  function BuildApproximator(choice: ApproximatorChoice, n: nat, ranges: seq<seq<real>>): (r: Result<Approximator>)
    ensures choice.TableChoice? ==> r.Ok? == NewTable(n, Lists(ranges)).Ok?
    ensures choice.CmacChoice? ==> r.Ok? == NewCmac(n, Lists(ranges), choice.nLayers).Ok?
    ensures choice.FuzzyChoice? ==> r.Ok? == NewFuzzy(n, Lists(ranges), choice.fuzzySets).Ok?
    ensures r.Ok? && choice.TableChoice? ==> r.value == TableApx(NewTable(n, Lists(ranges)).value)
    ensures r.Ok? && choice.CmacChoice? ==> r.value == CmacApx(NewCmac(n, Lists(ranges), choice.nLayers).value)
    ensures r.Ok? && choice.FuzzyChoice? ==> r.value == FuzzyApx(NewFuzzy(n, Lists(ranges), choice.fuzzySets).value)
  {
    match choice
    case TableChoice =>
      var t :- NewTable(n, Lists(ranges));
      Ok(TableApx(t))
    case CmacChoice(layers) =>
      var c :- NewCmac(n, Lists(ranges), layers);
      Ok(CmacApx(c))
    case FuzzyChoice(sets) =>
      var f :- NewFuzzy(n, Lists(ranges), sets);
      Ok(FuzzyApx(f))
  }

  /** Given fuzzy sets that never produce NaN. */
  predicate NaNFreeChoice(choice: ApproximatorChoice) {
    choice.FuzzyChoice? && choice.fuzzySets.Some? && choice.fuzzySets.value.Instance? ==>
      forall i :: 0 <= i < |choice.fuzzySets.value.value| ==>
        choice.fuzzySets.value.value[i].Instance? ==> NaNFreeSet(choice.fuzzySets.value.value[i].value)
  }

  /** A successfully built approximator fits the observation it was built for. */
  lemma BuildApproximatorFits(choice: ApproximatorChoice, n: nat, ranges: seq<seq<real>>)
    requires NaNFreeChoice(choice)
    ensures var r := BuildApproximator(choice, n, ranges); r.Ok? ==> Fits(r.value, n)
  {
    var r := BuildApproximator(choice, n, ranges);
    if r.Ok? && choice.FuzzyChoice? {
      var f := r.value.fuzzy;
      var rs := ValidateRanges(n, Lists(ranges)).value;
      assert rs == ranges;
      if choice.fuzzySets.None? {
        forall i | 0 <= i < |f.fuzzySets| ensures NaNFreeSet(f.fuzzySets[i]) {
          DefaultFuzzySetAccepted(ranges[i]);
          DefaultFuzzySetShape(ranges[i]);
        }
      }
    }
  }

  /** A continuous environment.  Its model's equations of motion are the `dynamics`
      parameter, and `initObservation` is the observation its `reset` restores. */
  class Environment {
    const kind: ContinuousKind
    const dynamics: (seq<real>, real) -> seq<real>
    const initObservation: seq<real>
    const maxSteps: int
    const stateVariablesRanges: seq<seq<real>>
    var observation: seq<real>
    var approximator: Option<Approximator>
    var state: EnvState
    var steps: seq<EnvState>

    ghost predicate Valid()
      reads this
    {
      && |initObservation| == ObservationLength(kind)
      && |observation| == ObservationLength(kind)
      && (forall o, a :: |o| == ObservationLength(kind) ==> |dynamics(o, a)| == ObservationLength(kind))
      && (approximator.Some? ==> Fits(approximator.value, |observation|))
      && state == GetState(approximator, observation)
    }

    function Actions(): (a: seq<real>)
      ensures a == ContinuousActions(kind)
    {
      ContinuousActions(kind)
    }

    predicate IsDone()
      reads this
      requires |observation| == ObservationLength(kind)
    {
      Done(IsStateAbsorbing(kind, observation), |steps|, maxSteps)
    }

    /** `Environment(max_steps, state_variables_ranges)`: the class defaults replace a
        missing or empty argument, no approximator, and a cleared episode. */
    constructor (k: ContinuousKind, ceiling: Option<int>, ranges: Option<seq<seq<real>>>,
                 init: seq<real>, f: (seq<real>, real) -> seq<real>)
      requires |init| == ObservationLength(k)
      requires forall o, a :: |o| == ObservationLength(k) ==> |f(o, a)| == ObservationLength(k)
      ensures Valid()
      ensures kind == k && dynamics == f && initObservation == init
      ensures maxSteps == MaxStepsOr(ceiling, ContinuousMaxSteps)
      ensures stateVariablesRanges == if ranges.Some? && ranges.value != [] then ranges.value else DefaultRanges(k)
      ensures approximator == None && observation == init && state == Raw(init) && steps == []
    {
      kind := k;
      dynamics := f;
      initObservation := init;
      maxSteps := MaxStepsOr(ceiling, ContinuousMaxSteps);
      stateVariablesRanges := if ranges.Some? && ranges.value != [] then ranges.value else DefaultRanges(k);
      approximator := None;
      observation := init;
      state := Raw(init);
      steps := [];
    }

    /** `clear`: reset the model, recompute the state and forget the episode. */
    method Clear()
      requires Valid()
      modifies this
      ensures Valid()
      ensures observation == initObservation && approximator == old(approximator)
      ensures state == GetState(approximator, observation) && steps == []
    {
      observation := initObservation;
      state := GetState(approximator, observation);
      steps := [];
    }

    /** `do_action(i)`: the control selected by the index drives the model one step; the
        new state is recorded and returned. */
    method DoAction(actionIndex: int) returns (r: Result<EnvState>)
      requires Valid()
      modifies this`observation, this`state, this`steps
      ensures Valid()
      ensures r.Err? <==> ActionAt(Actions(), actionIndex).Err?
      ensures r.Err? ==> r.error == IndexError && observation == old(observation) && steps == old(steps)
      ensures r.Ok? ==>
                && observation == dynamics(old(observation), ActionAt(Actions(), actionIndex).value)
                && state == GetState(approximator, observation)
                && steps == old(steps) + [state]
                && r == Ok(state)
      ensures approximator == old(approximator)
    {
      var action := ActionAt(Actions(), actionIndex);
      if action.Err? {
        return Err(action.error);
      }
      observation := dynamics(observation, action.value);
      state := GetState(approximator, observation);
      steps := steps + [state];
      return Ok(state);
    }

    /** `approximate_with`: build an approximator for this observation's length and the
        environment's ranges, and recompute the state with it.  A failing constructor
        raises before anything changes. */
    method ApproximateWith(choice: ApproximatorChoice) returns (r: Result<()>)
      requires Valid() && NaNFreeChoice(choice)
      modifies this
      ensures Valid()
      ensures var built := BuildApproximator(choice, |observation|, stateVariablesRanges);
              && (r.Ok? <==> built.Ok?)
              && (r.Err? ==> r.error == built.error && approximator == old(approximator) && state == old(state))
              && (r.Ok? ==> approximator == Some(built.value) && state == GetState(approximator, observation))
      ensures observation == old(observation) && steps == old(steps)
    {
      var built := BuildApproximator(choice, |observation|, stateVariablesRanges);
      BuildApproximatorFits(choice, |observation|, stateVariablesRanges);
      if built.Err? {
        return Err(built.error);
      }
      approximator := Some(built.value);
      state := GetState(approximator, observation);
      return Ok(());
    }
  }
}
