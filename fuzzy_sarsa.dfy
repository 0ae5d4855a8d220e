/** FSARSA of algorithm/fuzzy.py: FQ whose actions are all chosen greedily, without
    exploration, and whose error reads the value of the action chosen at the new
    state, the action the next step then takes. */
module FuzzySarsa {
  import opened ExtReals
  import opened Matrices
  import opened Learning
  import opened Approximators
  import opened Environments
  import opened FuzzyLearning
  import opened FuzzyQ
  import Classic
  import Compatibility

  // ---------------------------------------------------------------------------------
  // Episodes

  /** A step of an episode with the action chosen at its new grades. */
  datatype SarsaTransition = SarsaTransition(tr: Transition, a2: nat)

  predicate SarsaInTable(st: SarsaTransition, rows: nat, cols: nat) {
    InTable(st.tr, rows, cols) && st.a2 < rows
  }

  lemma SarsaInTableSnoc(ts: seq<SarsaTransition>, st: SarsaTransition, rows: nat, cols: nat)
    requires forall k :: 0 <= k < |ts| ==> SarsaInTable(ts[k], rows, cols)
    requires SarsaInTable(st, rows, cols)
    ensures forall k :: 0 <= k < |ts + [st]| ==> SarsaInTable((ts + [st])[k], rows, cols)
  {
  }

  /** The tables after the FSARSA steps ts from t. */
  function SarsaEpisode(t: FTables, ts: seq<SarsaTransition>, p: Params, rows: nat, cols: nat): (u: FTables)
    requires Shaped(t, rows, cols)
    requires forall k :: 0 <= k < |ts| ==> SarsaInTable(ts[k], rows, cols)
    ensures Shaped(u, rows, cols)
    decreases |ts|
  {
    if |ts| == 0 then t
    else
      var before, st := SarsaEpisode(t, ts[..|ts| - 1], p, rows, cols), ts[|ts| - 1];
      assert SarsaInTable(st, rows, cols);
      FSarsaStep(before, st.tr, st.a2, p, rows, cols)
  }

  lemma SarsaEpisodeSnoc(t: FTables, ts: seq<SarsaTransition>, st: SarsaTransition, p: Params, rows: nat, cols: nat)
    requires Shaped(t, rows, cols)
    requires forall k :: 0 <= k < |ts| ==> SarsaInTable(ts[k], rows, cols)
    requires SarsaInTable(st, rows, cols)
    ensures forall k :: 0 <= k < |ts + [st]| ==> SarsaInTable((ts + [st])[k], rows, cols)
    ensures SarsaEpisode(t, ts + [st], p, rows, cols) == FSarsaStep(SarsaEpisode(t, ts, p, rows, cols), st.tr, st.a2, p, rows, cols)
  {
    SarsaInTableSnoc(ts, st, rows, cols);
    assert (ts + [st])[..|ts|] == ts;
  }

  /** The steps without their next actions. */
  function Plains(ts: seq<SarsaTransition>): (ps: seq<Transition>)
    ensures |ps| == |ts| && forall k :: 0 <= k < |ts| ==> ps[k] == ts[k].tr
  {
    seq(|ts|, k requires 0 <= k < |ts| => ts[k].tr)
  }

  lemma PlainsSnoc(ts: seq<SarsaTransition>, st: SarsaTransition)
    ensures Plains(ts + [st]) == Plains(ts) + [st.tr]
  {
    var long, short := Plains(ts + [st]), Plains(ts) + [st.tr];
    forall k | 0 <= k < |long|
      ensures long[k] == short[k]
    {
      if k < |ts| {
        assert (ts + [st])[k] == ts[k];
      }
    }
  }

  /** a is the greedy choice `get_action(epsilon_greedy=False)` at the grades gs on the
      values q. */
  predicate ChosenAt(q: seq<seq<real>>, gs: seq<seq<real>>, a: nat, d: Draw, rows: nat, cols: nat)
    requires IsMatrix(q, rows, cols) && rows > 0
  {
    Fires(gs, cols) && a == ChooseAt(q, gs, false, 0.0, d, rows, cols)
  }

  /** Each action of an FSARSA run is a greedy choice: the first at the start on the
      initial values (draw 0), and each step takes the action chosen at the end of the
      step before, on the values as the steps before that one left them (draw k + 1
      for step k). */
  predicate SarsaChoices(t0: FTables, ts: seq<SarsaTransition>, p: Params, draws: nat -> Draw, rows: nat, cols: nat)
    requires Shaped(t0, rows, cols) && rows > 0
    requires forall k :: 0 <= k < |ts| ==> SarsaInTable(ts[k], rows, cols)
    decreases |ts|
  {
    |ts| == 0 ||
    var prev, st := ts[..|ts| - 1], ts[|ts| - 1];
    assert SarsaInTable(st, rows, cols);
    && SarsaChoices(t0, prev, p, draws, rows, cols)
    && (if |prev| == 0 then ChosenAt(t0.q, st.tr.gs, st.tr.a, draws(0), rows, cols)
        else st.tr.a == prev[|prev| - 1].a2)
    && ChosenAt(SarsaEpisode(t0, prev, p, rows, cols).q, st.tr.gs2, st.a2, draws(|prev| + 1), rows, cols)
  }

  lemma SarsaChoicesExtend(t0: FTables, ts: seq<SarsaTransition>, st: SarsaTransition, p: Params, draws: nat -> Draw,
                           rows: nat, cols: nat)
    requires Shaped(t0, rows, cols) && rows > 0
    requires forall k :: 0 <= k < |ts| ==> SarsaInTable(ts[k], rows, cols)
    requires SarsaInTable(st, rows, cols) && SarsaChoices(t0, ts, p, draws, rows, cols)
    requires |ts| == 0 ==> ChosenAt(t0.q, st.tr.gs, st.tr.a, draws(0), rows, cols)
    requires |ts| > 0 ==> st.tr.a == ts[|ts| - 1].a2
    requires ChosenAt(SarsaEpisode(t0, ts, p, rows, cols).q, st.tr.gs2, st.a2, draws(|ts| + 1), rows, cols)
    ensures forall k :: 0 <= k < |ts + [st]| ==> SarsaInTable((ts + [st])[k], rows, cols)
    ensures SarsaChoices(t0, ts + [st], p, draws, rows, cols)
  {
    SarsaInTableSnoc(ts, st, rows, cols);
    var long := ts + [st];
    assert long[..|long| - 1] == ts && long[|long| - 1] == st;
    assert SarsaChoices(t0, long[..|long| - 1], p, draws, rows, cols);
    assert SarsaEpisode(t0, long[..|long| - 1], p, rows, cols) == SarsaEpisode(t0, ts, p, rows, cols);
  }

  /** What an FSARSA episode promises of its steps: a walk from obs0 on which every
      step but the last left the episode running, with the choices `SarsaChoices`
      says. */
  ghost predicate SarsaRun(w: Setup, obs0: seq<real>, before: nat, t0: FTables, ts: seq<SarsaTransition>, p: Params,
                           draws: nat -> Draw)
    requires w.Ok() && Shaped(t0, NActions(w), Cols(w))
  {
    && (forall k :: 0 <= k < |ts| ==> SarsaInTable(ts[k], NActions(w), Cols(w)))
    && Walk(w, obs0, Plains(ts))
    && RunsOn(w, Plains(ts), before)
    && SarsaChoices(t0, ts, p, draws, NActions(w), Cols(w))
  }

  /** The state of an FSARSA episode after the steps ts: the run so far, the tables it
      made, the states recorded after `steps0`, the observation reached and the action
      to take next. */
  ghost predicate SarsaLoop(w: Setup, obs0: seq<real>, steps0: seq<EnvState>, t0: FTables, ts: seq<SarsaTransition>,
                            p: Params, draws: nat -> Draw, tables: FTables, steps: seq<EnvState>, obs: seq<real>, next: nat)
    requires w.Ok() && Shaped(t0, NActions(w), Cols(w)) && |obs0| == ObservationLength(w.kind)
  {
    && SarsaRun(w, obs0, |steps0|, t0, ts, p, draws)
    && tables == SarsaEpisode(t0, ts, p, NActions(w), Cols(w))
    && steps == steps0 + NextStates(Plains(ts))
    && obs == Here(obs0, Plains(ts))
    && next < NActions(w)
    && (|ts| == 0 ==> ChosenAt(t0.q, GradesOf(w, obs0), next, draws(0), NActions(w), Cols(w)))
    && (|ts| > 0 ==> next == ts[|ts| - 1].a2)
  }

  /** An FSARSA episode starts with no steps, on its initial tables and record, at its
      first observation, with the action chosen there on those values. */
  lemma SarsaLoopStart(w: Setup, obs0: seq<real>, steps0: seq<EnvState>, t0: FTables, p: Params, draws: nat -> Draw,
                       next: nat)
    requires w.Ok() && Shaped(t0, NActions(w), Cols(w)) && |obs0| == ObservationLength(w.kind) && next < NActions(w)
    requires ChosenAt(t0.q, GradesOf(w, obs0), next, draws(0), NActions(w), Cols(w))
    ensures SarsaLoop(w, obs0, steps0, t0, [], p, draws, t0, steps0, obs0, next)
  {
    assert Plains([]) == [] && NextStates([]) == [];
  }

  /** An FSARSA episode grows by the move it makes with the action it chose, the choice
      at the new grades on its values, learning on the step and recording the new
      state; it goes on after the step exactly when the new observation is not
      absorbing and the ceiling is not reached. */
  lemma SarsaLoopExtend(w: Setup, obs0: seq<real>, steps0: seq<EnvState>, t0: FTables, ts: seq<SarsaTransition>,
                        st: SarsaTransition, p: Params, draws: nat -> Draw, tables: FTables, steps: seq<EnvState>,
                        steps': seq<EnvState>)
    requires w.Ok() && Shaped(t0, NActions(w), Cols(w)) && |obs0| == ObservationLength(w.kind)
    requires SarsaLoop(w, obs0, steps0, t0, ts, p, draws, tables, steps, st.tr.obs, st.tr.a)
    requires Continues(w, Plains(ts), |steps0|) && Moves(w, st.tr) && st.a2 < NActions(w)
    requires ChosenAt(tables.q, st.tr.gs2, st.a2, draws(|ts| + 1), NActions(w), Cols(w))
    requires steps' == steps + [Grades(st.tr.gs2)]
    ensures SarsaInTable(st, NActions(w), Cols(w)) && |steps'| == |steps0| + |ts| + 1
    ensures SarsaLoop(w, obs0, steps0, t0, ts + [st], p, draws, FSarsaStep(tables, st.tr, st.a2, p, NActions(w), Cols(w)),
                      steps', st.tr.obs2, st.a2)
    ensures Continues(w, Plains(ts + [st]), |steps0|) <==>
            !Done(IsStateAbsorbing(w.kind, st.tr.obs2), |steps'|, w.maxSteps)
  {
    MovesInTable(w, st.tr);
    PlainsSnoc(ts, st);
    WalkExtend(w, obs0, |steps0|, Plains(ts), st.tr);
    SarsaChoicesExtend(t0, ts, st, p, draws, NActions(w), Cols(w));
    SarsaEpisodeSnoc(t0, ts, st, p, NActions(w), Cols(w));
    StepsSnoc(steps0, Plains(ts), st.tr, steps, steps');
  }

  // ---------------------------------------------------------------------------------
  // The class

  /** FSARSA on a fuzzy-approximated continuous environment; it has FQ's tables and
      greedy actions, and no exploration rate. */
  class FSarsa {
    const env: Environment
    const fuzzy: FuzzyApproximator
    const lambd: real
    const gamma: real
    const alpha: real
    /** The values of every action over the rules, flattened row-major. */
    const q: array2<real>
    var stepsPerEpisode: seq<nat>

    ghost predicate Valid()
      reads this, env
    {
      Holds(env, fuzzy) && q.Length0 == NActions(W()) && q.Length1 == Cols(W())
    }

    function W(): Setup {
      Setup(env.kind, env.dynamics, env.maxSteps, fuzzy)
    }

    function P(): Params {
      Params(alpha, 0.0, gamma, lambd)
    }

    /** `FSARSA(environment, lambd, gamma, alpha)`: FQ's constructor with no epsilon,
        then one zero tensor of `state_shape` per action. */
    constructor (environment: Environment, lambd: real, gamma: real, alpha: real)
      requires environment.Valid()
      requires Compatibility.SetEnvironment(Compatibility.FuzzyFamily, Compatibility.ContinuousView(environment.approximator)).Ok?
      requires Setup(environment.kind, environment.dynamics, environment.maxSteps, environment.approximator.value.fuzzy).Ok()
      ensures Valid() && env == environment && fuzzy == environment.approximator.value.fuzzy
      ensures this.lambd == lambd && this.gamma == gamma && this.alpha == alpha
      ensures fresh(q) && Rows(q) == ZeroValues(NActions(W()), Cols(W()))
      ensures stepsPerEpisode == []
    {
      env := environment;
      var f := environment.approximator.value.fuzzy;
      fuzzy := f;
      this.lambd := lambd;
      this.gamma := gamma;
      this.alpha := alpha;
      var table := Matrices.NewTable(|ContinuousActions(environment.kind)|, Cells(f.StateShape()), 0.0);
      q := table;
      stepsPerEpisode := [];
    }

    /** `get_action(epsilon_greedy=False)`: a greedy action at the grades gs. */
    function ChooseAction(gs: seq<seq<real>>, d: Draw): (a: nat)
      reads this, env, q
      requires Valid() && Fires(gs, Cols(W()))
      ensures ChosenAt(Rows(q), gs, a, d, NActions(W()), Cols(W()))
    {
      var g := Greedy(Rows(q), Phi(gs)).value;
      assert forall t :: 0 <= t < |g| ==> g[t] in g;
      GetAction(false, 0.0, |env.Actions()|, g, d)
    }

    /** The learning step after the move tr, a2 being the action chosen at its new
        grades. */
    method Update(e: array2<real>, ghost tr: Transition, gs: seq<seq<real>>, a: nat, r: real, gs2: seq<seq<real>>,
                  a2: nat)
      requires q.Length0 == NActions(W()) && q.Length1 == Cols(W())
      requires q != e && e.Length0 == q.Length0 && e.Length1 == q.Length1
      requires InTable(tr, NActions(W()), Cols(W())) && tr.gs == gs && tr.a == a && tr.r == r && tr.gs2 == gs2
      requires a2 < NActions(W())
      modifies q, e
      ensures Tables(q, e) == FSarsaStep(old(Tables(q, e)), tr, a2, P(), NActions(W()), Cols(W()))
    {
      var phi, phi2 := Phi(gs), Phi(gs2);
      var delta := FSarsaDelta(Rows(q), phi, a, r, phi2, a2, gamma).value;
      var step := Mul(alpha, delta);
      assert step == FSarsaStepSize(Tables(q, e), tr, a2, P(), NActions(W()), Cols(W()));
      FUpdateInPlace(q, e, a, phi, step, Decay(P()), lambd > 0.0);
    }

    /** The state of `run_learning_episode` after the steps ts of an episode that
        started at the observation obs0 with the record steps0 and the tables t0, next
        being the action to take. */
    ghost predicate InEpisode(e: array2<real>, t0: FTables, ts: seq<SarsaTransition>, obs0: seq<real>,
                              steps0: seq<EnvState>, draws: nat -> Draw, next: nat)
      reads this, env, q, e
    {
      && Valid() && q != e && e.Length0 == q.Length0 && e.Length1 == q.Length1
      && Shaped(t0, NActions(W()), Cols(W())) && |obs0| == ObservationLength(env.kind)
      && SarsaLoop(W(), obs0, steps0, t0, ts, P(), draws, Tables(q, e), env.steps, env.observation, next)
    }

    /** Halfway through a pass of the loop: the move of tr has been made with the
        action chosen for it; the tables are not yet updated. */
    ghost predicate Acted(e: array2<real>, t0: FTables, ts: seq<SarsaTransition>, tr: Transition,
                          obs0: seq<real>, steps0: seq<EnvState>, draws: nat -> Draw, steps: seq<EnvState>)
      reads this, env, q, e
    {
      && Valid() && q != e && e.Length0 == q.Length0 && e.Length1 == q.Length1
      && Shaped(t0, NActions(W()), Cols(W())) && |obs0| == ObservationLength(env.kind)
      && InTable(tr, NActions(W()), Cols(W()))
      && SarsaLoop(W(), obs0, steps0, t0, ts, P(), draws, Tables(q, e), steps, tr.obs, tr.a)
      && Continues(W(), Plains(ts), |steps0|) && Moves(W(), tr)
      && env.steps == steps + [Grades(tr.gs2)] && env.observation == tr.obs2
    }

    /** The acting half of a pass of the loop of `run_learning_episode`: `do_action(a)`
        at the grades gs, then reading `reward` and `state`. */
    method ActStep(e: array2<real>, ghost t0: FTables, ghost ts: seq<SarsaTransition>, ghost obs0: seq<real>,
                   ghost steps0: seq<EnvState>, draws: nat -> Draw, gs: seq<seq<real>>, a: nat)
      returns (r: real, gs2: seq<seq<real>>, ghost tr: Transition, ghost steps: seq<EnvState>)
      requires InEpisode(e, t0, ts, obs0, steps0, draws, a) && Continues(W(), Plains(ts), |steps0|)
      requires gs == GradesOf(W(), env.observation)
      modifies env`observation, env`state, env`steps
      ensures Acted(e, t0, ts, tr, obs0, steps0, draws, steps)
      ensures tr.gs == gs && tr.a == a && tr.r == r && tr.gs2 == gs2
    {
      ghost var obs, w, tables := env.observation, W(), Tables(q, e);
      steps := env.steps;
      assert SarsaLoop(w, obs0, steps0, t0, ts, P(), draws, tables, steps, obs, a);
      r, gs2 := ActOn(env, fuzzy, a);
      tr := Transition(obs, gs, a, r, env.observation, gs2);
      assert w == W() && tables == Tables(q, e);
      MovesInTable(w, tr);
    }

    /** The learning half of a pass of the loop of `run_learning_episode`, a2 being the
        action chosen at the new grades on the values before they learn: the episode
        grows by the step taken. */
    method LearnStep(e: array2<real>, ghost t0: FTables, ghost ts: seq<SarsaTransition>, ghost tr: Transition,
                     ghost obs0: seq<real>, ghost steps0: seq<EnvState>, draws: nat -> Draw, ghost steps: seq<EnvState>,
                     gs: seq<seq<real>>, a: nat, r: real, gs2: seq<seq<real>>, a2: nat)
      requires Acted(e, t0, ts, tr, obs0, steps0, draws, steps)
      requires tr.gs == gs && tr.a == a && tr.r == r && tr.gs2 == gs2
      requires a2 < NActions(W()) && ChosenAt(Rows(q), gs2, a2, draws(|ts| + 1), NActions(W()), Cols(W()))
      modifies q, e
      ensures InEpisode(e, t0, ts + [SarsaTransition(tr, a2)], obs0, steps0, draws, a2)
      ensures |env.steps| == |steps0| + |ts| + 1 && gs2 == GradesOf(W(), env.observation)
      ensures env.IsDone() <==> !Continues(W(), Plains(ts + [SarsaTransition(tr, a2)]), |steps0|)
    {
      ghost var w, tables := W(), Tables(q, e);
      Update(e, tr, gs, a, r, gs2, a2);
      SarsaLoopExtend(w, obs0, steps0, t0, ts, SarsaTransition(tr, a2), P(), draws, tables, steps, env.steps);
      assert w == W();
    }

    /** One pass of the loop of `run_learning_episode`: act, choose the next action at
        the new grades, learn. */
    method EpisodeStep(e: array2<real>, ghost t0: FTables, ghost ts: seq<SarsaTransition>, ghost obs0: seq<real>,
                       ghost steps0: seq<EnvState>, draws: nat -> Draw, n: nat, gs: seq<seq<real>>, a: nat)
      returns (gs2: seq<seq<real>>, a2: nat, ghost st: SarsaTransition)
      requires InEpisode(e, t0, ts, obs0, steps0, draws, a) && n == |ts| && Continues(W(), Plains(ts), |steps0|)
      requires gs == GradesOf(W(), env.observation)
      modifies env, q, e
      ensures InEpisode(e, t0, ts + [st], obs0, steps0, draws, a2)
      ensures |env.steps| == |steps0| + |ts| + 1 && gs2 == GradesOf(W(), env.observation)
      ensures env.IsDone() <==> !Continues(W(), Plains(ts + [st]), |steps0|)
    {
      var r;
      ghost var tr, steps;
      r, gs2, tr, steps := ActStep(e, t0, ts, obs0, steps0, draws, gs, a);
      a2 := ChooseAction(gs2, draws(n + 1));
      st := SarsaTransition(tr, a2);
      LearnStep(e, t0, ts, tr, obs0, steps0, draws, steps, gs, a, r, gs2, a2);
    }

    /** The start of `run_learning_episode` once the first action a is chosen at the
        current grades: fresh zero traces. */
    method StartEpisode(draws: nat -> Draw, a: nat) returns (e: array2<real>)
      requires Valid() && ChosenAt(Rows(q), GradesOf(W(), env.observation), a, draws(0), NActions(W()), Cols(W()))
      ensures fresh(e) && Tables(q, e) == WithZeroTraces(Rows(q), NActions(W()), Cols(W()))
      ensures InEpisode(e, Tables(q, e), [], env.observation, env.steps, draws, a)
    {
      e := NewTraces(q);
      SarsaLoopStart(W(), env.observation, env.steps, Tables(q, e), P(), draws, a);
    }

    /** The loop of `run_learning_episode`, from the first action to the step after
        which the environment is done; the grades and the action are carried from each
        step to the next. */
    method RunSteps(e: array2<real>, ghost t0: FTables, ghost obs0: seq<real>, ghost steps0: seq<EnvState>,
                    draws: nat -> Draw, gs: seq<seq<real>>, a: nat) returns (ghost ts: seq<SarsaTransition>)
      requires InEpisode(e, t0, [], obs0, steps0, draws, a) && gs == GradesOf(W(), env.observation)
      modifies env, q, e
      ensures |ts| > 0 && InEpisode(e, t0, ts, obs0, steps0, draws, ts[|ts| - 1].a2) && env.IsDone()
    {
      ts := [];
      var n: nat := 0;
      var state, next := gs, a;
      while true
        invariant InEpisode(e, t0, ts, obs0, steps0, draws, next) && Continues(W(), Plains(ts), |steps0|)
        invariant n == |ts| && state == GradesOf(W(), env.observation)
        invariant |env.steps| == |steps0| + n
        decreases env.maxSteps - |env.steps|
      {
        ghost var st;
        var gs2, a2;
        gs2, a2, st := EpisodeStep(e, t0, ts, obs0, steps0, draws, n, state, next);
        ts := ts + [st];
        n := n + 1;
        if env.IsDone() {
          return;
        }
        state, next := gs2, a2;
      }
    }

    /** `run_learning_episode`: from fresh traces, choose the first action, then act,
        choose the next action, learn from the step and carry the new grades and action
        forward, until the environment is done.  The returned steps are the episode's
        walk; the values are the FSARSA run over them. */
    method RunLearningEpisode(draws: nat -> Draw) returns (ghost ts: seq<SarsaTransition>)
      requires Valid()
      modifies env, q
      ensures Valid() && env.IsDone()
      ensures |ts| > 0 && env.steps == old(env.steps) + NextStates(Plains(ts)) && env.observation == ts[|ts| - 1].tr.obs2
      ensures SarsaRun(W(), old(env.observation), |old(env.steps)|, WithZeroTraces(old(Rows(q)), NActions(W()), Cols(W())),
                       ts, P(), draws)
      ensures Rows(q) == SarsaEpisode(WithZeroTraces(old(Rows(q)), NActions(W()), Cols(W())), ts, P(),
                                      NActions(W()), Cols(W())).q
    {
      StateGrades(env, fuzzy);
      var gs := env.state.grades;
      GradesFire(W(), env.observation);
      var a := ChooseAction(gs, draws(0));
      var e := StartEpisode(draws, a);
      ts := RunSteps(e, Tables(q, e), env.observation, env.steps, draws, gs, a);
    }

    /** The body of the loop of `learn`: clear the environment, run an episode and
        give the number of steps it took. */
    method ClearAndRun(draws: nat -> Draw) returns (length: nat)
      requires Valid()
      modifies env, q
      ensures Valid()
      ensures length == |env.steps| && 1 <= length && (length == 1 || length <= env.maxSteps)
    {
      env.Clear();
      ghost var ts := RunLearningEpisode(draws);
      length := |env.steps|;
      assert RunsOn(W(), Plains(ts), 0);
      if |ts| > 1 {
        assert !Done(IsStateAbsorbing(env.kind, Plains(ts)[|ts| - 2].obs2), |ts| - 1, env.maxSteps);
      }
    }

    /** `learn`, inherited from `Algorithm`. */
    method Learn(nEpisodes: int, stop: bool, lte: ExtReal, gte: ExtReal, w: int, draws: nat -> nat -> Draw)
      requires Valid()
      modifies this, env, q
      ensures Valid()
      ensures LearnOutcome(old(stepsPerEpisode), stepsPerEpisode, nEpisodes, stop, lte, gte, w)
      ensures Classic.EpisodeLengths(stepsPerEpisode[|old(stepsPerEpisode)|..], env.maxSteps)
      ensures |stepsPerEpisode| > |old(stepsPerEpisode)| ==> stepsPerEpisode[|stepsPerEpisode| - 1] == |env.steps|
    {
      ghost var before := stepsPerEpisode;
      ghost var record := stepsPerEpisode;
      var i: nat := 0;
      while i < nEpisodes
        invariant Valid() && i <= if nEpisodes > 0 then nEpisodes else 0
        invariant stepsPerEpisode == record
        invariant LearnProgress(before, record, i, stop, lte, gte, w)
        invariant Classic.EpisodeLengths(record[|before|..], env.maxSteps)
        invariant |record| > |before| ==> record[|record| - 1] == |env.steps|
      {
        var length := ClearAndRun(draws(i));
        Classic.EpisodeLengthsSnoc(|before|, record, length, env.maxSteps);
        record := record + [length];
        stepsPerEpisode := stepsPerEpisode + [length];
        if stop && IsLearned(stepsPerEpisode, lte, gte, w) {
          LearnStopped(before, record, i, nEpisodes, stop, lte, gte, w);
          return;
        }
        LearnProgressStep(before, record, i, stop, lte, gte, w);
        i := i + 1;
      }
      LearnProgressOutcome(before, record, i, nEpisodes, stop, lte, gte, w);
    }
  }
}
