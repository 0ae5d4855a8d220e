/** FQ of algorithm/fuzzy.py on a fuzzy-approximated continuous environment, and the
    episode machinery FSARSA and FR share: the approximator's grades of an observation
    are the state, the values of every action over the rules live in one table and the
    traces in another, and each step of an episode is first a function on table values
    (FuzzyLearning) that the classes then run in place.  FSARSA and FR are the modules
    FuzzySarsa and FuzzyR. */
module FuzzyQ {
  import opened Wrappers
  import opened ExtReals
  import opened Matrices
  import opened Learning
  import opened Fuzzy
  import opened Approximators
  import opened Environments
  import opened FuzzyLearning
  import Classic
  import Compatibility

  // ---------------------------------------------------------------------------------
  // Environments whose every state fires some rule

  /** Some function of the set grades every number positively. */
  ghost predicate CoversLine(fs: FuzzySet)
    requires NaNFreeSet(fs)
  {
    forall x: real :: SomePositive(MembershipGrades(fs, x))
  }

  /** The set `fuzzy_sets` generates from at least one non-decreasing cut-point covers
      the line, so the default fuzzy approximator meets the constructors' condition. */
  lemma DefaultFuzzySetCoversLine(svr: seq<real>)
    requires |svr| > 0 && NonDecreasing(svr)
    ensures DefaultFuzzySet(svr).Ok? && NaNFreeSet(DefaultFuzzySet(svr).value)
    ensures CoversLine(DefaultFuzzySet(svr).value)
  {
    DefaultFuzzySetShape(svr);
    var fs := DefaultFuzzySet(svr).value;
    forall x: real ensures SomePositive(MembershipGrades(fs, x)) {
      var j := CoveringFunction(svr, x);
      assert MembershipGrades(fs, x)[j] == Grade(fs.membershipFunctions[j], x);
    }
  }

  /** What an episode's steps depend on besides the agent: the environment's kind, its
      equations of motion, its step ceiling and its fuzzy approximator. */
  datatype Setup = Setup(kind: ContinuousKind, dynamics: (seq<real>, real) -> seq<real>, maxSteps: int,
                         f: FuzzyApproximator)
  {
    /** The approximator grades this kind's observations without NaN, and every set
        covers the line, so that some rule fires at every observation and `Q` is
        never the scalar 0.0. */
    ghost predicate Ok() {
      && f.Valid() && f.nStateVariables == ObservationLength(kind)
      && forall i :: 0 <= i < |f.fuzzySets| ==> NaNFreeSet(f.fuzzySets[i]) && CoversLine(f.fuzzySets[i])
    }
  }

  /** The number of actions of the environment. */
  function NActions(w: Setup): (n: nat)
    ensures n > 0
  {
    |ContinuousActions(w.kind)|
  }

  /** The number of rules: the product of the approximator's `state_shape`. */
  function Cols(w: Setup): nat {
    Cells(w.f.StateShape())
  }

  /** `approximate_state(obs)`: the grade vector of every state variable. */
  function GradesOf(w: Setup, obs: seq<real>): (gs: seq<seq<real>>)
    requires w.Ok() && |obs| == ObservationLength(w.kind)
    ensures |gs| == |obs|
    ensures forall i :: 0 <= i < |gs| ==> gs[i] == MembershipGrades(w.f.fuzzySets[i], obs[i])
  {
    FuzzyApproximateState(w.f, obs).value
  }

  /** The grades of every observation have the approximator's number of rules, never
      negative, and some rule fires: phi sums to a positive number. */
  lemma GradesFire(w: Setup, obs: seq<real>)
    requires w.Ok() && |obs| == ObservationLength(w.kind)
    ensures Graded(GradesOf(w, obs)) && Covered(GradesOf(w, obs))
    ensures Fires(GradesOf(w, obs), Cols(w)) && Sum(Phi(GradesOf(w, obs))) > 0.0
  {
    var gs := GradesOf(w, obs);
    SizeOfShape(gs, w.f.StateShape());
    forall k | 0 <= k < |gs| ensures NonNegative(gs[k]) && SomePositive(gs[k]) {
      assert CoversLine(w.f.fuzzySets[k]);
    }
    PhiVanishes(gs);
  }

  /** The grades of an observation of this environment. */
  predicate Coded(w: Setup, obs: seq<real>, gs: seq<seq<real>>)
    requires w.Ok()
  {
    |obs| == ObservationLength(w.kind) && gs == GradesOf(w, obs)
  }

  /** `do_action(a)` and the reading of `reward` and `state`: the model moves from obs
      to obs2 under the control a selects, r is the reward at obs2 and gs, gs2 are the
      grades of obs, obs2. */
  ghost predicate Moves(w: Setup, tr: Transition)
    requires w.Ok()
  {
    && ContinuousTransition(w.kind, w.dynamics, tr.obs, tr.a, tr.r, tr.obs2)
    && Coded(w, tr.obs, tr.gs) && Coded(w, tr.obs2, tr.gs2)
  }

  lemma MovesInTable(w: Setup, tr: Transition)
    requires w.Ok() && Moves(w, tr)
    ensures InTable(tr, NActions(w), Cols(w))
  {
    GradesFire(w, tr.obs);
    GradesFire(w, tr.obs2);
  }

  /** The steps form a walk from the observation obs0: each is a move that starts
      where the previous one ended. */
  ghost predicate Walk(w: Setup, obs0: seq<real>, ts: seq<Transition>)
    requires w.Ok()
    decreases |ts|
  {
    |ts| == 0 ||
    var prev, tr := ts[..|ts| - 1], ts[|ts| - 1];
    && Walk(w, obs0, prev)
    && tr.obs == (if |prev| == 0 then obs0 else prev[|prev| - 1].obs2)
    && Moves(w, tr)
  }

  /** Every step of the walk but the last left the episode running: its new
      observation was not absorbing and the ceiling was not reached. */
  predicate RunsOn(w: Setup, ts: seq<Transition>, before: nat)
    decreases |ts|
  {
    |ts| <= 1 ||
    (&& RunsOn(w, ts[..|ts| - 1], before)
     && |ts[|ts| - 2].obs2| == ObservationLength(w.kind)
     && !Done(IsStateAbsorbing(w.kind, ts[|ts| - 2].obs2), before + |ts| - 1, w.maxSteps))
  }

  /** After the last step of ts the episode goes on. */
  predicate Continues(w: Setup, ts: seq<Transition>, before: nat) {
    |ts| > 0 ==>
      && |ts[|ts| - 1].obs2| == ObservationLength(w.kind)
      && !Done(IsStateAbsorbing(w.kind, ts[|ts| - 1].obs2), before + |ts|, w.maxSteps)
  }

  /** The states an episode records, one per step. */
  function NextStates(ts: seq<Transition>): (states: seq<EnvState>)
    ensures |states| == |ts|
    decreases |ts|
  {
    if |ts| == 0 then [] else NextStates(ts[..|ts| - 1]) + [Grades(ts[|ts| - 1].gs2)]
  }

  /** Where the agent stands after the steps ts from obs0. */
  function Here(obs0: seq<real>, ts: seq<Transition>): seq<real> {
    if |ts| == 0 then obs0 else ts[|ts| - 1].obs2
  }

  lemma StepsSnoc(steps0: seq<EnvState>, ts: seq<Transition>, tr: Transition, before: seq<EnvState>, after: seq<EnvState>)
    requires before == steps0 + NextStates(ts) && after == before + [Grades(tr.gs2)]
    ensures after == steps0 + NextStates(ts + [tr])
  {
    assert (ts + [tr])[..|ts|] == ts;
    assert steps0 + (NextStates(ts) + [Grades(tr.gs2)]) == (steps0 + NextStates(ts)) + [Grades(tr.gs2)];
  }

  /** A walk and its running record grow by a move from where the walk ended, when the
      walk's last step left the episode running. */
  lemma WalkExtend(w: Setup, obs0: seq<real>, before: nat, ts: seq<Transition>, tr: Transition)
    requires w.Ok() && Walk(w, obs0, ts) && RunsOn(w, ts, before) && Continues(w, ts, before)
    requires tr.obs == Here(obs0, ts) && Moves(w, tr)
    ensures Walk(w, obs0, ts + [tr]) && RunsOn(w, ts + [tr], before)
  {
    assert (ts + [tr])[..|ts|] == ts;
  }

  lemma InTableSnoc(ts: seq<Transition>, tr: Transition, rows: nat, cols: nat)
    requires forall k :: 0 <= k < |ts| ==> InTable(ts[k], rows, cols)
    requires InTable(tr, rows, cols)
    ensures forall k :: 0 <= k < |ts + [tr]| ==> InTable((ts + [tr])[k], rows, cols)
  {
  }

  /** The action `get_action` picks at grades gs: with exploration allowed, any action
      when exploring, else one of `get_greedy_actions(gs)`. */
  function ChooseAt(q: seq<seq<real>>, gs: seq<seq<real>>, epsilonGreedy: bool, epsilon: real, d: Draw, rows: nat, cols: nat)
    : (a: nat)
    requires IsMatrix(q, rows, cols) && rows > 0 && Fires(gs, cols)
    ensures a < rows
    ensures !(epsilonGreedy && d.u < epsilon) ==> Best(QOf(q, Phi(gs)).v, a)
    ensures a == Choose(QOf(q, Phi(gs)).v, epsilonGreedy, epsilon, d)
  {
    var g := Greedy(q, Phi(gs)).value;
    assert forall t :: 0 <= t < |g| ==> g[t] in g;
    GetAction(epsilonGreedy, epsilon, rows, g, d)
  }

  // ---------------------------------------------------------------------------------
  // FQ episodes

  /** The tables after the FQ steps ts from t. */
  function FQEpisode(t: FTables, ts: seq<Transition>, p: Params, rows: nat, cols: nat): (u: FTables)
    requires Shaped(t, rows, cols)
    requires forall k :: 0 <= k < |ts| ==> InTable(ts[k], rows, cols)
    ensures Shaped(u, rows, cols)
    decreases |ts|
  {
    if |ts| == 0 then t
    else
      var before, tr := FQEpisode(t, ts[..|ts| - 1], p, rows, cols), ts[|ts| - 1];
      assert InTable(tr, rows, cols);
      FQStep(before, tr, p, rows, cols)
  }

  lemma FQEpisodeSnoc(t: FTables, ts: seq<Transition>, tr: Transition, p: Params, rows: nat, cols: nat)
    requires Shaped(t, rows, cols)
    requires forall k :: 0 <= k < |ts| ==> InTable(ts[k], rows, cols)
    requires InTable(tr, rows, cols)
    ensures forall k :: 0 <= k < |ts + [tr]| ==> InTable((ts + [tr])[k], rows, cols)
    ensures FQEpisode(t, ts + [tr], p, rows, cols) == FQStep(FQEpisode(t, ts, p, rows, cols), tr, p, rows, cols)
  {
    InTableSnoc(ts, tr, rows, cols);
    assert (ts + [tr])[..|ts|] == ts;
  }

  /** Each action of an FQ run is the epsilon-greedy choice at its grades on the values
      the earlier steps left. */
  predicate FQChoices(t0: FTables, ts: seq<Transition>, p: Params, epsilon: real, draws: nat -> Draw,
                      rows: nat, cols: nat)
    requires Shaped(t0, rows, cols)
    requires forall k :: 0 <= k < |ts| ==> InTable(ts[k], rows, cols)
    decreases |ts|
  {
    |ts| == 0 ||
    var prev, tr := ts[..|ts| - 1], ts[|ts| - 1];
    assert InTable(tr, rows, cols);
    && FQChoices(t0, prev, p, epsilon, draws, rows, cols)
    && tr.a == ChooseAt(FQEpisode(t0, prev, p, rows, cols).q, tr.gs, true, epsilon, draws(|prev|), rows, cols)
  }

  lemma FQChoicesExtend(t0: FTables, ts: seq<Transition>, tr: Transition, p: Params, epsilon: real,
                        draws: nat -> Draw, rows: nat, cols: nat)
    requires Shaped(t0, rows, cols)
    requires forall k :: 0 <= k < |ts| ==> InTable(ts[k], rows, cols)
    requires InTable(tr, rows, cols) && FQChoices(t0, ts, p, epsilon, draws, rows, cols)
    requires tr.a == ChooseAt(FQEpisode(t0, ts, p, rows, cols).q, tr.gs, true, epsilon, draws(|ts|), rows, cols)
    ensures forall k :: 0 <= k < |ts + [tr]| ==> InTable((ts + [tr])[k], rows, cols)
    ensures FQChoices(t0, ts + [tr], p, epsilon, draws, rows, cols)
  {
    InTableSnoc(ts, tr, rows, cols);
    assert (ts + [tr])[..|ts|] == ts;
  }

  /** What an FQ episode promises of its steps: a walk from obs0 on which every step
      but the last left the episode running, each action chosen on the values the
      earlier steps left. */
  ghost predicate FQRun(w: Setup, obs0: seq<real>, before: nat, t0: FTables, ts: seq<Transition>, p: Params,
                        epsilon: real, draws: nat -> Draw)
    requires w.Ok() && Shaped(t0, NActions(w), Cols(w))
  {
    && (forall k :: 0 <= k < |ts| ==> InTable(ts[k], NActions(w), Cols(w)))
    && Walk(w, obs0, ts)
    && RunsOn(w, ts, before)
    && FQChoices(t0, ts, p, epsilon, draws, NActions(w), Cols(w))
  }

  /** The state of an FQ episode after the steps ts: the run so far, the tables it
      made, the states recorded after `steps0` and the observation reached. */
  ghost predicate FQLoop(w: Setup, obs0: seq<real>, steps0: seq<EnvState>, t0: FTables, ts: seq<Transition>, p: Params,
                         epsilon: real, draws: nat -> Draw, tables: FTables, steps: seq<EnvState>, obs: seq<real>)
    requires w.Ok() && Shaped(t0, NActions(w), Cols(w))
  {
    && FQRun(w, obs0, |steps0|, t0, ts, p, epsilon, draws)
    && tables == FQEpisode(t0, ts, p, NActions(w), Cols(w))
    && steps == steps0 + NextStates(ts)
    && obs == Here(obs0, ts)
  }

  lemma FQRunExtend(w: Setup, obs0: seq<real>, before: nat, t0: FTables, ts: seq<Transition>, tr: Transition,
                    p: Params, epsilon: real, draws: nat -> Draw)
    requires w.Ok() && Shaped(t0, NActions(w), Cols(w))
    requires FQRun(w, obs0, before, t0, ts, p, epsilon, draws) && Continues(w, ts, before)
    requires tr.obs == Here(obs0, ts) && Moves(w, tr) && InTable(tr, NActions(w), Cols(w))
    requires tr.a == ChooseAt(FQEpisode(t0, ts, p, NActions(w), Cols(w)).q, tr.gs, true, epsilon, draws(|ts|),
                              NActions(w), Cols(w))
    ensures FQRun(w, obs0, before, t0, ts + [tr], p, epsilon, draws)
  {
    WalkExtend(w, obs0, before, ts, tr);
    FQChoicesExtend(t0, ts, tr, p, epsilon, draws, NActions(w), Cols(w));
  }

  /** An FQ episode grows by the move it makes from where it stands with the action
      chosen on its values, learning on the step and recording the new state. */
  lemma FQLoopExtend(w: Setup, obs0: seq<real>, steps0: seq<EnvState>, t0: FTables, ts: seq<Transition>,
                     tr: Transition, p: Params, epsilon: real, draws: nat -> Draw, tables: FTables,
                     steps: seq<EnvState>, steps': seq<EnvState>)
    requires w.Ok() && Shaped(t0, NActions(w), Cols(w)) && InTable(tr, NActions(w), Cols(w))
    requires FQLoop(w, obs0, steps0, t0, ts, p, epsilon, draws, tables, steps, tr.obs)
    requires Continues(w, ts, |steps0|) && Moves(w, tr)
    requires tr.a == ChooseAt(tables.q, tr.gs, true, epsilon, draws(|ts|), NActions(w), Cols(w))
    requires steps' == steps + [Grades(tr.gs2)]
    ensures FQLoop(w, obs0, steps0, t0, ts + [tr], p, epsilon, draws, FQStep(tables, tr, p, NActions(w), Cols(w)),
                   steps', tr.obs2)
  {
    FQRunExtend(w, obs0, |steps0|, t0, ts, tr, p, epsilon, draws);
    FQEpisodeSnoc(t0, ts, tr, p, NActions(w), Cols(w));
    StepsSnoc(steps0, ts, tr, steps, steps');
  }

  // ---------------------------------------------------------------------------------
  // The environment and the tables in place

  /** The environment holds the fuzzy approximator f, under which some rule fires at
      every observation. */
  ghost predicate Holds(env: Environment, f: FuzzyApproximator)
    reads env
  {
    env.Valid() && env.approximator == Some(FuzzyApx(f)) && Setup(env.kind, env.dynamics, env.maxSteps, f).Ok()
  }

  /** The grades `state` gives while the environment holds f. */
  lemma StateGrades(env: Environment, f: FuzzyApproximator)
    requires Holds(env, f)
    ensures env.state == Grades(GradesOf(Setup(env.kind, env.dynamics, env.maxSteps, f), env.observation))
  {
  }

  /** `do_action(a)`, then reading `reward` and `state`: the environment makes the move
      a selects from where it stands and records the new grades. */
  method ActOn(env: Environment, f: FuzzyApproximator, a: nat) returns (r: real, gs2: seq<seq<real>>)
    requires Holds(env, f) && a < |ContinuousActions(env.kind)|
    modifies env`observation, env`state, env`steps
    ensures Holds(env, f)
    ensures var w := Setup(env.kind, env.dynamics, env.maxSteps, f);
            Moves(w, Transition(old(env.observation), GradesOf(w, old(env.observation)), a, r, env.observation, gs2))
    ensures env.steps == old(env.steps) + [Grades(gs2)]
  {
    var _ := env.DoAction(a);
    r := Reward(env.kind, env.observation);
    gs2 := env.state.grades;
  }

  /** The values and traces two tables hold. */
  function Tables(q: array2<real>, e: array2<real>): (t: FTables)
    reads q, e
    ensures t.q == Rows(q) && t.e == Rows(e)
  {
    FTables(Rows(q), Rows(e))
  }

  /** Fresh zero traces of the table's shape, as `np.zeros(self.q.shape)`. */
  method NewTraces(q: array2<real>) returns (e: array2<real>)
    ensures fresh(e) && e.Length0 == q.Length0 && e.Length1 == q.Length1
    ensures Rows(e) == Constant(q.Length0, q.Length1, 0.0)
  {
    e := Matrices.NewTable(q.Length0, q.Length1, 0.0);
  }

  /** The update of `run_learning_episode` in place: with traces, `e[a] += phi`,
      `q += step * e` and `e *= decay`; without, `q[a] += step * phi`. */
  method FUpdateInPlace(q: array2<real>, e: array2<real>, a: nat, phi: seq<real>, step: real, decay: real, traced: bool)
    requires q != e && q.Length0 == e.Length0 && q.Length1 == e.Length1 && a < q.Length0 && |phi| == q.Length1
    modifies q, e
    ensures Tables(q, e) == FUpdate(old(Tables(q, e)), a, phi, step, decay, traced)
  {
    if traced {
      AddRowInPlace(e, a, 1.0, phi);
      AddScaledInPlace(q, step, e);
      ScaleInPlace(e, decay);
    } else {
      AddRowInPlace(q, a, step, phi);
    }
  }

  /** `np.zeros` of the table shape: every action's values zero. */
  function ZeroValues(rows: nat, cols: nat): (m: seq<seq<real>>)
    ensures IsMatrix(m, rows, cols)
  {
    Constant(rows, cols, 0.0)
  }

  /** The tables of the values q with zero traces. */
  function WithZeroTraces(q: seq<seq<real>>, rows: nat, cols: nat): (t: FTables)
    requires IsMatrix(q, rows, cols)
    ensures Shaped(t, rows, cols) && t.q == q
  {
    FTables(q, Constant(rows, cols, 0.0))
  }

  /** FQ on a fuzzy-approximated continuous environment. */
  class FQ {
    const env: Environment
    const fuzzy: FuzzyApproximator
    const lambd: real
    const epsilon: real
    const gamma: real
    const alpha: real
    /** The values of every action over the rules, flattened row-major. */
    const q: array2<real>
    var stepsPerEpisode: seq<nat>

    ghost predicate Valid()
      reads this, env
    {
      Holds(env, fuzzy) && q.Length0 == NActions(W()) && q.Length1 == Cols(W())
    }

    function W(): Setup {
      Setup(env.kind, env.dynamics, env.maxSteps, fuzzy)
    }

    function P(): Params {
      Params(alpha, 0.0, gamma, lambd)
    }

    /** `FQ(environment, lambd, epsilon, gamma, alpha)`: the environment must hold a fuzzy
        approximator (the setter's TypeError otherwise), whose sets must cover the line;
        one zero tensor of `state_shape` per action. */
    constructor (environment: Environment, lambd: real, epsilon: real, gamma: real, alpha: real)
      requires environment.Valid()
      requires Compatibility.SetEnvironment(Compatibility.FuzzyFamily, Compatibility.ContinuousView(environment.approximator)).Ok?
      requires Setup(environment.kind, environment.dynamics, environment.maxSteps, environment.approximator.value.fuzzy).Ok()
      ensures Valid() && env == environment && fuzzy == environment.approximator.value.fuzzy
      ensures this.lambd == lambd && this.epsilon == epsilon && this.gamma == gamma && this.alpha == alpha
      ensures fresh(q) && Rows(q) == ZeroValues(NActions(W()), Cols(W()))
      ensures stepsPerEpisode == []
    {
      env := environment;
      var f := environment.approximator.value.fuzzy;
      fuzzy := f;
      this.lambd := lambd;
      this.epsilon := epsilon;
      this.gamma := gamma;
      this.alpha := alpha;
      var table := Matrices.NewTable(|ContinuousActions(environment.kind)|, Cells(f.StateShape()), 0.0);
      q := table;
      stepsPerEpisode := [];
    }

    /** `get_greedy_actions(s)` at the grades gs. */
    function GreedyActions(gs: seq<seq<real>>): (g: Result<seq<nat>>)
      reads q
      requires q.Length0 > 0 && |gs| > 0 && |Phi(gs)| == q.Length1
      ensures g == Greedy(Rows(q), Phi(gs))
    {
      Greedy(Rows(q), Phi(gs))
    }

    /** `get_action()`: the epsilon-greedy choice at the grades gs. */
    function ChooseAction(gs: seq<seq<real>>, d: Draw): (a: nat)
      reads this, env, q
      requires Valid() && Fires(gs, Cols(W()))
      ensures a == ChooseAt(Rows(q), gs, true, epsilon, d, NActions(W()), Cols(W()))
    {
      var g := GreedyActions(gs).value;
      assert forall t :: 0 <= t < |g| ==> g[t] in g;
      GetAction(true, epsilon, |env.Actions()|, g, d)
    }

    /** The learning step of `run_learning_episode` after the move tr. */
    method Update(e: array2<real>, ghost tr: Transition, gs: seq<seq<real>>, a: nat, r: real, gs2: seq<seq<real>>)
      requires q.Length0 == NActions(W()) && q.Length1 == Cols(W())
      requires q != e && e.Length0 == q.Length0 && e.Length1 == q.Length1
      requires InTable(tr, NActions(W()), Cols(W())) && tr.gs == gs && tr.a == a && tr.r == r && tr.gs2 == gs2
      modifies q, e
      ensures Tables(q, e) == FQStep(old(Tables(q, e)), tr, P(), NActions(W()), Cols(W()))
    {
      var phi, phi2 := Phi(gs), Phi(gs2);
      var delta := FQDelta(Rows(q), phi, a, r, phi2, gamma).value;
      var step := Mul(alpha, delta);
      assert step == FQStepSize(Tables(q, e), tr, P(), NActions(W()), Cols(W()));
      FUpdateInPlace(q, e, a, phi, step, Decay(P()), lambd > 0.0);
    }

    /** The state of `run_learning_episode` after the steps ts of an episode that
        started at the observation obs0 with the record steps0 and the tables t0. */
    ghost predicate InEpisode(e: array2<real>, t0: FTables, ts: seq<Transition>, obs0: seq<real>,
                              steps0: seq<EnvState>, draws: nat -> Draw)
      reads this, env, q, e
    {
      && Valid() && q != e && e.Length0 == q.Length0 && e.Length1 == q.Length1
      && Shaped(t0, NActions(W()), Cols(W()))
      && FQLoop(W(), obs0, steps0, t0, ts, P(), epsilon, draws, Tables(q, e), env.steps, env.observation)
    }

    /** Halfway through a pass of the loop of `run_learning_episode`: the step tr from
        the state of the episode ts (whose record was steps) has been taken with the
        action chosen on the values, which are not yet updated. */
    ghost predicate Acted(e: array2<real>, t0: FTables, ts: seq<Transition>, tr: Transition, obs0: seq<real>,
                          steps0: seq<EnvState>, draws: nat -> Draw, steps: seq<EnvState>)
      reads this, env, q, e
    {
      && Valid() && q != e && e.Length0 == q.Length0 && e.Length1 == q.Length1
      && Shaped(t0, NActions(W()), Cols(W())) && InTable(tr, NActions(W()), Cols(W()))
      && FQLoop(W(), obs0, steps0, t0, ts, P(), epsilon, draws, Tables(q, e), steps, tr.obs)
      && Continues(W(), ts, |steps0|) && Moves(W(), tr)
      && tr.a == ChooseAt(Rows(q), tr.gs, true, epsilon, draws(|ts|), NActions(W()), Cols(W()))
      && env.steps == steps + [Grades(tr.gs2)] && env.observation == tr.obs2
    }

    /** The acting half of a pass of the loop: read the state, choose an action
        epsilon-greedily and act. */
    method ActStep(e: array2<real>, ghost t0: FTables, ghost ts: seq<Transition>, ghost obs0: seq<real>,
                   ghost steps0: seq<EnvState>, draws: nat -> Draw, n: nat)
      returns (gs: seq<seq<real>>, a: nat, r: real, gs2: seq<seq<real>>, ghost tr: Transition, ghost steps: seq<EnvState>)
      requires InEpisode(e, t0, ts, obs0, steps0, draws) && n == |ts| && Continues(W(), ts, |steps0|)
      modifies env`observation, env`state, env`steps
      ensures Acted(e, t0, ts, tr, obs0, steps0, draws, steps)
      ensures tr.gs == gs && tr.a == a && tr.r == r && tr.gs2 == gs2
    {
      ghost var obs := env.observation;
      steps := env.steps;
      StateGrades(env, fuzzy);
      gs := env.state.grades;
      GradesFire(W(), obs);
      a := ChooseAction(gs, draws(n));
      r, gs2 := ActOn(env, fuzzy, a);
      tr := Transition(obs, gs, a, r, env.observation, gs2);
      MovesInTable(W(), tr);
    }

    /** The learning half of a pass of the loop: the episode grows by the step taken. */
    method LearnStep(e: array2<real>, ghost t0: FTables, ghost ts: seq<Transition>, ghost tr: Transition,
                     ghost obs0: seq<real>, ghost steps0: seq<EnvState>, draws: nat -> Draw, ghost steps: seq<EnvState>,
                     gs: seq<seq<real>>, a: nat, r: real, gs2: seq<seq<real>>)
      requires Acted(e, t0, ts, tr, obs0, steps0, draws, steps)
      requires tr.gs == gs && tr.a == a && tr.r == r && tr.gs2 == gs2
      modifies q, e
      ensures InEpisode(e, t0, ts + [tr], obs0, steps0, draws)
      ensures |env.steps| == |steps0| + |ts| + 1
      ensures env.IsDone() <==> !Continues(W(), ts + [tr], |steps0|)
    {
      FQLoopExtend(W(), obs0, steps0, t0, ts, tr, P(), epsilon, draws, Tables(q, e), steps, env.steps);
      Update(e, tr, gs, a, r, gs2);
    }

    /** One pass of the loop of `run_learning_episode`. */
    method EpisodeStep(e: array2<real>, ghost t0: FTables, ghost ts: seq<Transition>, ghost obs0: seq<real>,
                       ghost steps0: seq<EnvState>, draws: nat -> Draw, n: nat) returns (ghost tr: Transition)
      requires InEpisode(e, t0, ts, obs0, steps0, draws) && n == |ts| && Continues(W(), ts, |steps0|)
      modifies env, q, e
      ensures InEpisode(e, t0, ts + [tr], obs0, steps0, draws)
      ensures |env.steps| == |steps0| + |ts| + 1
      ensures env.IsDone() <==> !Continues(W(), ts + [tr], |steps0|)
    {
      var gs, a, r, gs2;
      ghost var steps;
      gs, a, r, gs2, tr, steps := ActStep(e, t0, ts, obs0, steps0, draws, n);
      LearnStep(e, t0, ts, tr, obs0, steps0, draws, steps, gs, a, r, gs2);
    }

    /** The start of `run_learning_episode`: zero traces. */
    method StartEpisode(draws: nat -> Draw) returns (e: array2<real>)
      requires Valid()
      ensures fresh(e) && Tables(q, e) == WithZeroTraces(Rows(q), NActions(W()), Cols(W()))
      ensures InEpisode(e, Tables(q, e), [], env.observation, env.steps, draws)
    {
      e := NewTraces(q);
      assert NextStates([]) == [];
    }

    /** The loop of `run_learning_episode`, up to the step after which the environment
        is done. */
    method RunSteps(e: array2<real>, ghost t0: FTables, ghost obs0: seq<real>, ghost steps0: seq<EnvState>,
                    draws: nat -> Draw) returns (ghost ts: seq<Transition>)
      requires InEpisode(e, t0, [], obs0, steps0, draws)
      modifies env, q, e
      ensures |ts| > 0 && InEpisode(e, t0, ts, obs0, steps0, draws) && env.IsDone()
    {
      ts := [];
      var n: nat := 0;
      while true
        invariant n == |ts| && InEpisode(e, t0, ts, obs0, steps0, draws) && Continues(W(), ts, |steps0|)
        invariant |env.steps| == |steps0| + n
        decreases env.maxSteps - |env.steps|
      {
        ghost var tr := EpisodeStep(e, t0, ts, obs0, steps0, draws, n);
        ts := ts + [tr];
        n := n + 1;
        if env.IsDone() {
          return;
        }
      }
    }

    /** `run_learning_episode`: from fresh traces, choose an action epsilon-greedily,
        act, learn from the step, until the environment is done.  The returned steps
        are the episode's walk; the values are the FQ run over them. */
    method RunLearningEpisode(draws: nat -> Draw) returns (ghost ts: seq<Transition>)
      requires Valid()
      modifies env, q
      ensures Valid() && env.IsDone()
      ensures |ts| > 0 && env.steps == old(env.steps) + NextStates(ts) && env.observation == ts[|ts| - 1].obs2
      ensures FQRun(W(), old(env.observation), |old(env.steps)|, WithZeroTraces(old(Rows(q)), NActions(W()), Cols(W())),
                    ts, P(), epsilon, draws)
      ensures Rows(q) == FQEpisode(WithZeroTraces(old(Rows(q)), NActions(W()), Cols(W())), ts, P(),
                                   NActions(W()), Cols(W())).q
    {
      var e := StartEpisode(draws);
      ts := RunSteps(e, Tables(q, e), env.observation, env.steps, draws);
    }

    /** The body of the loop of `learn`: clear the environment, run an episode and
        give the number of steps it took. */
    method ClearAndRun(draws: nat -> Draw) returns (length: nat)
      requires Valid()
      modifies env, q
      ensures Valid()
      ensures length == |env.steps| && 1 <= length && (length == 1 || length <= env.maxSteps)
    {
      env.Clear();
      ghost var ts := RunLearningEpisode(draws);
      length := |env.steps|;
      assert RunsOn(W(), ts, 0);
      if |ts| > 1 {
        assert !Done(IsStateAbsorbing(env.kind, ts[|ts| - 2].obs2), |ts| - 1, env.maxSteps);
      }
    }

    /** `learn`: per episode, clear the environment, run the episode and record its
        length; with `stop`, quit after the first episode that makes the record count
        as learned.  `draws(i)` are the random draws of episode i. */
    method Learn(nEpisodes: int, stop: bool, lte: ExtReal, gte: ExtReal, w: int, draws: nat -> nat -> Draw)
      requires Valid()
      modifies this, env, q
      ensures Valid()
      ensures LearnOutcome(old(stepsPerEpisode), stepsPerEpisode, nEpisodes, stop, lte, gte, w)
      ensures Classic.EpisodeLengths(stepsPerEpisode[|old(stepsPerEpisode)|..], env.maxSteps)
      ensures |stepsPerEpisode| > |old(stepsPerEpisode)| ==> stepsPerEpisode[|stepsPerEpisode| - 1] == |env.steps|
    {
      ghost var before := stepsPerEpisode;
      ghost var record := stepsPerEpisode;
      var i: nat := 0;
      while i < nEpisodes
        invariant Valid() && i <= if nEpisodes > 0 then nEpisodes else 0
        invariant stepsPerEpisode == record
        invariant LearnProgress(before, record, i, stop, lte, gte, w)
        invariant Classic.EpisodeLengths(record[|before|..], env.maxSteps)
        invariant |record| > |before| ==> record[|record| - 1] == |env.steps|
      {
        var length := ClearAndRun(draws(i));
        Classic.EpisodeLengthsSnoc(|before|, record, length, env.maxSteps);
        record := record + [length];
        stepsPerEpisode := stepsPerEpisode + [length];
        if stop && IsLearned(stepsPerEpisode, lte, gte, w) {
          LearnStopped(before, record, i, nEpisodes, stop, lte, gte, w);
          return;
        }
        LearnProgressStep(before, record, i, stop, lte, gte, w);
        i := i + 1;
      }
      LearnProgressOutcome(before, record, i, nEpisodes, stop, lte, gte, w);
    }
  }
}
