/** FR of algorithm/fuzzy.py: R-learning over the fuzzy rules.  The agent keeps an
    average-reward estimate rho, reset to zero at the start of every episode; the error
    subtracts rho instead of discounting, the traces decay by lambda alone, and after a
    greedy action rho moves towards the reward on the updated values. */
module FuzzyR {
  import opened Wrappers
  import opened ExtReals
  import opened Matrices
  import opened Learning
  import opened Approximators
  import opened Environments
  import opened FuzzyLearning
  import opened FuzzyQ
  import Classic
  import Compatibility

  // ---------------------------------------------------------------------------------
  // Episodes

  /** The values, traces and estimate after the FR steps ts from t. */
  function FREpisode(t: FRTables, ts: seq<Transition>, p: Params, rows: nat, cols: nat): (u: FRTables)
    requires Shaped(t.t, rows, cols)
    requires forall k :: 0 <= k < |ts| ==> InTable(ts[k], rows, cols)
    ensures Shaped(u.t, rows, cols)
    decreases |ts|
  {
    if |ts| == 0 then t
    else
      var before, tr := FREpisode(t, ts[..|ts| - 1], p, rows, cols), ts[|ts| - 1];
      assert InTable(tr, rows, cols);
      FRStep(before, tr, p, rows, cols)
  }

  lemma FREpisodeSnoc(t: FRTables, ts: seq<Transition>, tr: Transition, p: Params, rows: nat, cols: nat)
    requires Shaped(t.t, rows, cols)
    requires forall k :: 0 <= k < |ts| ==> InTable(ts[k], rows, cols)
    requires InTable(tr, rows, cols)
    ensures forall k :: 0 <= k < |ts + [tr]| ==> InTable((ts + [tr])[k], rows, cols)
    ensures FREpisode(t, ts + [tr], p, rows, cols) == FRStep(FREpisode(t, ts, p, rows, cols), tr, p, rows, cols)
  {
    InTableSnoc(ts, tr, rows, cols);
    assert (ts + [tr])[..|ts|] == ts;
  }

  /** Each action of an FR run is the epsilon-greedy choice at its grades on the values
      the earlier steps left. */
  predicate FRChoices(t0: FRTables, ts: seq<Transition>, p: Params, epsilon: real, draws: nat -> Draw,
                      rows: nat, cols: nat)
    requires Shaped(t0.t, rows, cols)
    requires forall k :: 0 <= k < |ts| ==> InTable(ts[k], rows, cols)
    decreases |ts|
  {
    |ts| == 0 ||
    var prev, tr := ts[..|ts| - 1], ts[|ts| - 1];
    assert InTable(tr, rows, cols);
    && FRChoices(t0, prev, p, epsilon, draws, rows, cols)
    && tr.a == ChooseAt(FREpisode(t0, prev, p, rows, cols).t.q, tr.gs, true, epsilon, draws(|prev|), rows, cols)
  }

  lemma FRChoicesExtend(t0: FRTables, ts: seq<Transition>, tr: Transition, p: Params, epsilon: real,
                        draws: nat -> Draw, rows: nat, cols: nat)
    requires Shaped(t0.t, rows, cols)
    requires forall k :: 0 <= k < |ts| ==> InTable(ts[k], rows, cols)
    requires InTable(tr, rows, cols) && FRChoices(t0, ts, p, epsilon, draws, rows, cols)
    requires tr.a == ChooseAt(FREpisode(t0, ts, p, rows, cols).t.q, tr.gs, true, epsilon, draws(|ts|), rows, cols)
    ensures forall k :: 0 <= k < |ts + [tr]| ==> InTable((ts + [tr])[k], rows, cols)
    ensures FRChoices(t0, ts + [tr], p, epsilon, draws, rows, cols)
  {
    InTableSnoc(ts, tr, rows, cols);
    var long := ts + [tr];
    assert long[..|long| - 1] == ts && long[|long| - 1] == tr;
    assert FRChoices(t0, long[..|long| - 1], p, epsilon, draws, rows, cols);
    assert FREpisode(t0, long[..|long| - 1], p, rows, cols) == FREpisode(t0, ts, p, rows, cols);
  }

  /** What an FR episode promises of its steps: a walk from obs0 on which every step
      but the last left the episode running, each action chosen on the values the
      earlier steps left. */
  ghost predicate FRRun(w: Setup, obs0: seq<real>, before: nat, t0: FRTables, ts: seq<Transition>, p: Params,
                        epsilon: real, draws: nat -> Draw)
    requires w.Ok() && Shaped(t0.t, NActions(w), Cols(w))
  {
    && (forall k :: 0 <= k < |ts| ==> InTable(ts[k], NActions(w), Cols(w)))
    && Walk(w, obs0, ts)
    && RunsOn(w, ts, before)
    && FRChoices(t0, ts, p, epsilon, draws, NActions(w), Cols(w))
  }

  /** The state of an FR episode after the steps ts: the run so far, the values, traces
      and estimate it made, the states recorded after `steps0` and the observation
      reached. */
  ghost predicate FRLoop(w: Setup, obs0: seq<real>, steps0: seq<EnvState>, t0: FRTables, ts: seq<Transition>, p: Params,
                         epsilon: real, draws: nat -> Draw, tables: FRTables, steps: seq<EnvState>, obs: seq<real>)
    requires w.Ok() && Shaped(t0.t, NActions(w), Cols(w))
  {
    && FRRun(w, obs0, |steps0|, t0, ts, p, epsilon, draws)
    && tables == FREpisode(t0, ts, p, NActions(w), Cols(w))
    && steps == steps0 + NextStates(ts)
    && obs == Here(obs0, ts)
  }

  lemma FRRunExtend(w: Setup, obs0: seq<real>, before: nat, t0: FRTables, ts: seq<Transition>, tr: Transition,
                    p: Params, epsilon: real, draws: nat -> Draw)
    requires w.Ok() && Shaped(t0.t, NActions(w), Cols(w))
    requires FRRun(w, obs0, before, t0, ts, p, epsilon, draws) && Continues(w, ts, before)
    requires tr.obs == Here(obs0, ts) && Moves(w, tr) && InTable(tr, NActions(w), Cols(w))
    requires tr.a == ChooseAt(FREpisode(t0, ts, p, NActions(w), Cols(w)).t.q, tr.gs, true, epsilon, draws(|ts|),
                              NActions(w), Cols(w))
    ensures FRRun(w, obs0, before, t0, ts + [tr], p, epsilon, draws)
  {
    WalkExtend(w, obs0, before, ts, tr);
    FRChoicesExtend(t0, ts, tr, p, epsilon, draws, NActions(w), Cols(w));
  }

  /** An FR episode grows by the move it makes from where it stands with the action
      chosen on its values, learning on the step, moving its estimate and recording
      the new state. */
  lemma FRLoopExtend(w: Setup, obs0: seq<real>, steps0: seq<EnvState>, t0: FRTables, ts: seq<Transition>,
                     tr: Transition, p: Params, epsilon: real, draws: nat -> Draw, tables: FRTables,
                     steps: seq<EnvState>, steps': seq<EnvState>)
    requires w.Ok() && Shaped(t0.t, NActions(w), Cols(w)) && InTable(tr, NActions(w), Cols(w))
    requires FRLoop(w, obs0, steps0, t0, ts, p, epsilon, draws, tables, steps, tr.obs)
    requires Continues(w, ts, |steps0|) && Moves(w, tr)
    requires tr.a == ChooseAt(tables.t.q, tr.gs, true, epsilon, draws(|ts|), NActions(w), Cols(w))
    requires steps' == steps + [Grades(tr.gs2)]
    ensures |steps'| == |steps0| + |ts| + 1
    ensures FRLoop(w, obs0, steps0, t0, ts + [tr], p, epsilon, draws, FRStep(tables, tr, p, NActions(w), Cols(w)),
                   steps', tr.obs2)
    ensures Continues(w, ts + [tr], |steps0|) <==> !Done(IsStateAbsorbing(w.kind, tr.obs2), |steps'|, w.maxSteps)
  {
    FRRunExtend(w, obs0, |steps0|, t0, ts, tr, p, epsilon, draws);
    FREpisodeSnoc(t0, ts, tr, p, NActions(w), Cols(w));
    StepsSnoc(steps0, ts, tr, steps, steps');
  }

  // ---------------------------------------------------------------------------------
  // The class

  /** FR on a fuzzy-approximated continuous environment: FQ's constructor with no
      discount, plus beta. */
  class FR {
    const env: Environment
    const fuzzy: FuzzyApproximator
    const lambd: real
    const epsilon: real
    const alpha: real
    const beta: real
    /** The values of every action over the rules, flattened row-major. */
    const q: array2<real>
    var stepsPerEpisode: seq<nat>

    ghost predicate Valid()
      reads this, env
    {
      Holds(env, fuzzy) && q.Length0 == NActions(W()) && q.Length1 == Cols(W())
    }

    function W(): Setup {
      Setup(env.kind, env.dynamics, env.maxSteps, fuzzy)
    }

    /** The step's parameters; FR has no discount. */
    function P(): Params {
      Params(alpha, beta, 0.0, lambd)
    }

    /** `FR(environment, lambd, epsilon, alpha, beta)`: one zero tensor of
        `state_shape` per action. */
    constructor (environment: Environment, lambd: real, epsilon: real, alpha: real, beta: real)
      requires environment.Valid()
      requires Compatibility.SetEnvironment(Compatibility.FuzzyFamily, Compatibility.ContinuousView(environment.approximator)).Ok?
      requires Setup(environment.kind, environment.dynamics, environment.maxSteps, environment.approximator.value.fuzzy).Ok()
      ensures Valid() && env == environment && fuzzy == environment.approximator.value.fuzzy
      ensures this.lambd == lambd && this.epsilon == epsilon && this.alpha == alpha && this.beta == beta
      ensures fresh(q) && Rows(q) == ZeroValues(NActions(W()), Cols(W()))
      ensures stepsPerEpisode == []
    {
      env := environment;
      var f := environment.approximator.value.fuzzy;
      fuzzy := f;
      this.lambd := lambd;
      this.epsilon := epsilon;
      this.alpha := alpha;
      this.beta := beta;
      var table := Matrices.NewTable(|ContinuousActions(environment.kind)|, Cells(f.StateShape()), 0.0);
      q := table;
      stepsPerEpisode := [];
    }

    /** `get_action()`, inherited from FQ: the epsilon-greedy choice at the grades gs. */
    function ChooseAction(gs: seq<seq<real>>, d: Draw): (a: nat)
      reads this, env, q
      requires Valid() && Fires(gs, Cols(W()))
      ensures a == ChooseAt(Rows(q), gs, true, epsilon, d, NActions(W()), Cols(W()))
    {
      var g := Greedy(Rows(q), Phi(gs)).value;
      assert forall t :: 0 <= t < |g| ==> g[t] in g;
      GetAction(true, epsilon, |env.Actions()|, g, d)
    }

    /** The values' half of the learning step after the move tr, rho being the
        estimate: traces decay by lambda alone. */
    method UpdateValues(e: array2<real>, ghost tr: Transition, rho: real, gs: seq<seq<real>>, a: nat, r: real,
                        gs2: seq<seq<real>>)
      requires q.Length0 == NActions(W()) && q.Length1 == Cols(W())
      requires q != e && e.Length0 == q.Length0 && e.Length1 == q.Length1
      requires InTable(tr, NActions(W()), Cols(W())) && tr.gs == gs && tr.a == a && tr.r == r && tr.gs2 == gs2
      modifies q, e
      ensures Tables(q, e) == FRTableStep(FRTables(old(Tables(q, e)), rho), tr, P(), NActions(W()), Cols(W()))
    {
      var phi, phi2 := Phi(gs), Phi(gs2);
      var delta := FRDelta(Rows(q), rho, phi, a, r, phi2).value;
      var step := Mul(alpha, delta);
      assert step == FRStepSize(FRTables(Tables(q, e), rho), tr, P(), NActions(W()), Cols(W()));
      FUpdateInPlace(q, e, a, phi, step, lambd, lambd > 0.0);
    }

    /** The estimate's half of the learning step: `if a in self.get_greedy_actions(s)`
        on the values as the step left them, rho moves towards the reward. */
    method UpdateRho(ghost tr: Transition, rho: real, gs: seq<seq<real>>, a: nat, r: real, gs2: seq<seq<real>>)
      returns (rho': real)
      requires q.Length0 == NActions(W()) && q.Length1 == Cols(W())
      requires InTable(tr, NActions(W()), Cols(W())) && tr.gs == gs && tr.a == a && tr.r == r && tr.gs2 == gs2
      ensures rho' == RhoStep(Rows(q), rho, tr, beta, NActions(W()), Cols(W()))
    {
      var values := Rows(q);
      if a in Greedy(values, Phi(gs)).value {
        rho' := rho + Mul(beta, r - rho + Max(QOf(values, Phi(gs2)).v) - Max(QOf(values, Phi(gs)).v));
      } else {
        rho' := rho;
      }
    }

    /** The learning step of `run_learning_episode` after the move tr: the values
        learn, then the estimate moves on the learnt values. */
    method Update(e: array2<real>, ghost tr: Transition, rho: real, gs: seq<seq<real>>, a: nat, r: real,
                  gs2: seq<seq<real>>) returns (rho': real)
      requires q.Length0 == NActions(W()) && q.Length1 == Cols(W())
      requires q != e && e.Length0 == q.Length0 && e.Length1 == q.Length1
      requires InTable(tr, NActions(W()), Cols(W())) && tr.gs == gs && tr.a == a && tr.r == r && tr.gs2 == gs2
      modifies q, e
      ensures FRTables(Tables(q, e), rho') == FRStep(FRTables(old(Tables(q, e)), rho), tr, P(), NActions(W()), Cols(W()))
    {
      UpdateValues(e, tr, rho, gs, a, r, gs2);
      rho' := UpdateRho(tr, rho, gs, a, r, gs2);
    }

    /** The state of `run_learning_episode` after the steps ts of an episode that
        started at the observation obs0 with the record steps0 and the tables t0, rho
        being the estimate now. */
    ghost predicate InEpisode(e: array2<real>, rho: real, t0: FRTables, ts: seq<Transition>, obs0: seq<real>,
                              steps0: seq<EnvState>, draws: nat -> Draw)
      reads this, env, q, e
    {
      && Valid() && q != e && e.Length0 == q.Length0 && e.Length1 == q.Length1
      && Shaped(t0.t, NActions(W()), Cols(W()))
      && FRLoop(W(), obs0, steps0, t0, ts, P(), epsilon, draws, FRTables(Tables(q, e), rho), env.steps, env.observation)
    }

    /** Halfway through a pass of the loop of `run_learning_episode`: the step tr has
        been taken with the action chosen on the values, which are not yet updated. */
    ghost predicate Acted(e: array2<real>, rho: real, t0: FRTables, ts: seq<Transition>, tr: Transition,
                          obs0: seq<real>, steps0: seq<EnvState>, draws: nat -> Draw, steps: seq<EnvState>)
      reads this, env, q, e
    {
      && Valid() && q != e && e.Length0 == q.Length0 && e.Length1 == q.Length1
      && Shaped(t0.t, NActions(W()), Cols(W())) && InTable(tr, NActions(W()), Cols(W()))
      && FRLoop(W(), obs0, steps0, t0, ts, P(), epsilon, draws, FRTables(Tables(q, e), rho), steps, tr.obs)
      && Continues(W(), ts, |steps0|) && Moves(W(), tr)
      && tr.a == ChooseAt(Rows(q), tr.gs, true, epsilon, draws(|ts|), NActions(W()), Cols(W()))
      && env.steps == steps + [Grades(tr.gs2)] && env.observation == tr.obs2
    }

    /** The acting half of a pass of the loop: read the state, choose an action
        epsilon-greedily and act. */
    method ActStep(e: array2<real>, ghost rho: real, ghost t0: FRTables, ghost ts: seq<Transition>,
                   ghost obs0: seq<real>, ghost steps0: seq<EnvState>, draws: nat -> Draw, n: nat)
      returns (gs: seq<seq<real>>, a: nat, r: real, gs2: seq<seq<real>>, ghost tr: Transition, ghost steps: seq<EnvState>)
      requires InEpisode(e, rho, t0, ts, obs0, steps0, draws) && n == |ts| && Continues(W(), ts, |steps0|)
      modifies env`observation, env`state, env`steps
      ensures Acted(e, rho, t0, ts, tr, obs0, steps0, draws, steps)
      ensures tr.gs == gs && tr.a == a && tr.r == r && tr.gs2 == gs2
    {
      ghost var obs, w, tables := env.observation, W(), FRTables(Tables(q, e), rho);
      steps := env.steps;
      assert FRLoop(w, obs0, steps0, t0, ts, P(), epsilon, draws, tables, steps, obs);
      StateGrades(env, fuzzy);
      gs := env.state.grades;
      GradesFire(w, obs);
      a := ChooseAction(gs, draws(n));
      r, gs2 := ActOn(env, fuzzy, a);
      tr := Transition(obs, gs, a, r, env.observation, gs2);
      assert w == W() && tables == FRTables(Tables(q, e), rho);
      MovesInTable(w, tr);
    }

    /** The learning half of a pass of the loop: the episode grows by the step taken. */
    method LearnStep(e: array2<real>, rho: real, ghost t0: FRTables, ghost ts: seq<Transition>, ghost tr: Transition,
                     ghost obs0: seq<real>, ghost steps0: seq<EnvState>, draws: nat -> Draw, ghost steps: seq<EnvState>,
                     gs: seq<seq<real>>, a: nat, r: real, gs2: seq<seq<real>>) returns (rho': real)
      requires Acted(e, rho, t0, ts, tr, obs0, steps0, draws, steps)
      requires tr.gs == gs && tr.a == a && tr.r == r && tr.gs2 == gs2
      modifies q, e
      ensures InEpisode(e, rho', t0, ts + [tr], obs0, steps0, draws)
      ensures |env.steps| == |steps0| + |ts| + 1
      ensures env.IsDone() <==> !Continues(W(), ts + [tr], |steps0|)
    {
      ghost var w, tables := W(), FRTables(Tables(q, e), rho);
      rho' := Update(e, tr, rho, gs, a, r, gs2);
      FRLoopExtend(w, obs0, steps0, t0, ts, tr, P(), epsilon, draws, tables, steps, env.steps);
      assert w == W();
    }

    /** One pass of the loop of `run_learning_episode`. */
    method EpisodeStep(e: array2<real>, rho: real, ghost t0: FRTables, ghost ts: seq<Transition>, ghost obs0: seq<real>,
                       ghost steps0: seq<EnvState>, draws: nat -> Draw, n: nat) returns (rho': real, ghost tr: Transition)
      requires InEpisode(e, rho, t0, ts, obs0, steps0, draws) && n == |ts| && Continues(W(), ts, |steps0|)
      modifies env, q, e
      ensures InEpisode(e, rho', t0, ts + [tr], obs0, steps0, draws)
      ensures |env.steps| == |steps0| + |ts| + 1
      ensures env.IsDone() <==> !Continues(W(), ts + [tr], |steps0|)
    {
      var gs, a, r, gs2;
      ghost var steps;
      gs, a, r, gs2, tr, steps := ActStep(e, rho, t0, ts, obs0, steps0, draws, n);
      rho' := LearnStep(e, rho, t0, ts, tr, obs0, steps0, draws, steps, gs, a, r, gs2);
    }

    /** The start of `run_learning_episode`: zero traces and `rho = 0.0`. */
    method StartEpisode(draws: nat -> Draw) returns (e: array2<real>, rho: real)
      requires Valid()
      ensures fresh(e) && Tables(q, e) == WithZeroTraces(Rows(q), NActions(W()), Cols(W())) && rho == 0.0
      ensures InEpisode(e, rho, FRTables(Tables(q, e), rho), [], env.observation, env.steps, draws)
    {
      e := NewTraces(q);
      rho := 0.0;
      assert NextStates([]) == [];
    }

    /** The loop of `run_learning_episode`, up to the step after which the environment
        is done; the estimate is carried from each step to the next. */
    method RunSteps(e: array2<real>, rho0: real, ghost t0: FRTables, ghost obs0: seq<real>, ghost steps0: seq<EnvState>,
                    draws: nat -> Draw) returns (rho: real, ghost ts: seq<Transition>)
      requires InEpisode(e, rho0, t0, [], obs0, steps0, draws)
      modifies env, q, e
      ensures |ts| > 0 && InEpisode(e, rho, t0, ts, obs0, steps0, draws) && env.IsDone()
    {
      ts := [];
      var n: nat := 0;
      rho := rho0;
      while true
        invariant n == |ts| && InEpisode(e, rho, t0, ts, obs0, steps0, draws) && Continues(W(), ts, |steps0|)
        invariant |env.steps| == |steps0| + n
        decreases env.maxSteps - |env.steps|
      {
        ghost var tr;
        rho, tr := EpisodeStep(e, rho, t0, ts, obs0, steps0, draws, n);
        ts := ts + [tr];
        n := n + 1;
        if env.IsDone() {
          return;
        }
      }
    }

    /** `run_learning_episode`: from fresh traces and a zero estimate, choose an action
        epsilon-greedily, act, learn from the step, until the environment is done.  The
        returned steps are the episode's walk; the values are the FR run over them. */
    method RunLearningEpisode(draws: nat -> Draw) returns (ghost ts: seq<Transition>)
      requires Valid()
      modifies env, q
      ensures Valid() && env.IsDone()
      ensures |ts| > 0 && env.steps == old(env.steps) + NextStates(ts) && env.observation == ts[|ts| - 1].obs2
      ensures FRRun(W(), old(env.observation), |old(env.steps)|,
                    FRTables(WithZeroTraces(old(Rows(q)), NActions(W()), Cols(W())), 0.0), ts, P(), epsilon, draws)
      ensures Rows(q) == FREpisode(FRTables(WithZeroTraces(old(Rows(q)), NActions(W()), Cols(W())), 0.0), ts, P(),
                                   NActions(W()), Cols(W())).t.q
    {
      var e, rho := StartEpisode(draws);
      var last;
      last, ts := RunSteps(e, rho, FRTables(Tables(q, e), rho), env.observation, env.steps, draws);
    }

    /** The body of the loop of `learn`: clear the environment, run an episode and
        give the number of steps it took. */
    method ClearAndRun(draws: nat -> Draw) returns (length: nat)
      requires Valid()
      modifies env, q
      ensures Valid()
      ensures length == |env.steps| && 1 <= length && (length == 1 || length <= env.maxSteps)
    {
      env.Clear();
      ghost var ts := RunLearningEpisode(draws);
      length := |env.steps|;
      assert RunsOn(W(), ts, 0);
      if |ts| > 1 {
        assert !Done(IsStateAbsorbing(env.kind, ts[|ts| - 2].obs2), |ts| - 1, env.maxSteps);
      }
    }

    /** `learn`, inherited from `Algorithm`. */
    method Learn(nEpisodes: int, stop: bool, lte: ExtReal, gte: ExtReal, w: int, draws: nat -> nat -> Draw)
      requires Valid()
      modifies this, env, q
      ensures Valid()
      ensures LearnOutcome(old(stepsPerEpisode), stepsPerEpisode, nEpisodes, stop, lte, gte, w)
      ensures Classic.EpisodeLengths(stepsPerEpisode[|old(stepsPerEpisode)|..], env.maxSteps)
      ensures |stepsPerEpisode| > |old(stepsPerEpisode)| ==> stepsPerEpisode[|stepsPerEpisode| - 1] == |env.steps|
    {
      ghost var before := stepsPerEpisode;
      ghost var record := stepsPerEpisode;
      var i: nat := 0;
      while i < nEpisodes
        invariant Valid() && i <= if nEpisodes > 0 then nEpisodes else 0
        invariant stepsPerEpisode == record
        invariant LearnProgress(before, record, i, stop, lte, gte, w)
        invariant Classic.EpisodeLengths(record[|before|..], env.maxSteps)
        invariant |record| > |before| ==> record[|record| - 1] == |env.steps|
      {
        var length := ClearAndRun(draws(i));
        Classic.EpisodeLengthsSnoc(|before|, record, length, env.maxSteps);
        record := record + [length];
        stepsPerEpisode := stepsPerEpisode + [length];
        if stop && IsLearned(stepsPerEpisode, lte, gte, w) {
          LearnStopped(before, record, i, nEpisodes, stop, lte, gte, w);
          return;
        }
        LearnProgressStep(before, record, i, stop, lte, gte, w);
        i := i + 1;
      }
      LearnProgressOutcome(before, record, i, nEpisodes, stop, lte, gte, w);
    }
  }
}
