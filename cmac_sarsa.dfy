/** CMACSARSA of algorithm/cmac.py: CMACQ whose error reads the value of the action
    chosen at the new state's codes, the action the next step then takes. */
module CmacSarsa {
  import opened ExtReals
  import opened Matrices
  import opened Learning
  import opened Approximators
  import opened Environments
  import opened Cmac
  import Classic
  import Compatibility

  // ---------------------------------------------------------------------------------
  // Steps

  /** `delta[t] = r + gamma * q[t][s_[t], a_] - q[t][s[t], a]`: the next action's value
      replaces the maximum. */
  function SarsaDeltas(ls: seq<Layer>, s: seq<int>, a: nat, r: real, s2: seq<int>, a2: nat, gamma: real)
    : (delta: seq<real>)
    requires |s| == |ls| && |s2| == |ls|
    requires forall l :: 0 <= l < |ls| ==> 0 <= s[l] < |ls[l].q| && 0 <= s2[l] < |ls[l].q| && a < |ls[l].q[s[l]]| && a2 < |ls[l].q[s2[l]]|
    ensures |delta| == |ls|
  {
    seq(|ls|, l requires 0 <= l < |ls| => r + gamma * ls[l].q[s2[l]][a2] - ls[l].q[s[l]][a])
  }

  /** One CMACSARSA step from s by a to s2 with reward r, a2 being the action chosen
      at s2. */
  function SarsaStep(ls: seq<Layer>, s: seq<int>, a: nat, r: real, s2: seq<int>, a2: nat, p: Params,
                     sizes: seq<nat>, cols: nat): (us: seq<Layer>)
    requires Shaped(ls, sizes, cols) && |ls| > 0 && InLayers(s, sizes) && InLayers(s2, sizes) && a < cols && a2 < cols
    ensures Shaped(us, sizes, cols)
  {
    LayersTdUpdate(ls, s, a, LayerRate(p.alpha, |ls|), SarsaDeltas(ls, s, a, r, s2, a2, p.gamma), Decay(p), p.lambd > 0.0)
  }

  /** Layer l of a CMACSARSA step moves as in CMACQ, by `alpha / n` times the error
      `r + gamma * q[l][s2[l], a2] - q[l][s[l], a]`. */
  lemma SarsaStepEntry(ls: seq<Layer>, s: seq<int>, a: nat, r: real, s2: seq<int>, a2: nat, p: Params,
                       sizes: seq<nat>, cols: nat, l: nat, i: nat, j: nat)
    requires Shaped(ls, sizes, cols) && |ls| > 0 && InLayers(s, sizes) && InLayers(s2, sizes) && a < cols && a2 < cols
    requires l < |ls| && i < sizes[l] && j < cols
    ensures RowEntryMoves(ls[l], SarsaStep(ls, s, a, r, s2, a2, p, sizes, cols)[l], s[l], a,
                          LayerStep(LayerRate(p.alpha, |ls|), r + p.gamma * ls[l].q[s2[l]][a2] - ls[l].q[s[l]][a]),
                          Decay(p), p.lambd > 0.0, i, j)
  {
    var deltas := SarsaDeltas(ls, s, a, r, s2, a2, p.gamma);
    var delta := r + p.gamma * ls[l].q[s2[l]][a2] - ls[l].q[s[l]][a];
    assert deltas[l] == delta;
    var step := LayerStep(LayerRate(p.alpha, |ls|), delta);
    assert SarsaStep(ls, s, a, r, s2, a2, p, sizes, cols)[l] == RowTdUpdate(ls[l], s[l], a, step, Decay(p), p.lambd > 0.0);
    RowTdUpdateEntry(ls[l], s[l], a, step, Decay(p), p.lambd > 0.0, i, j);
  }

  // ---------------------------------------------------------------------------------
  // Episodes

  /** A step of an episode with the action chosen at its new codes. */
  datatype SarsaTransition = SarsaTransition(tr: Transition, a2: nat)

  predicate SarsaInTable(st: SarsaTransition, sizes: seq<nat>, cols: nat) {
    InTable(st.tr, sizes, cols) && st.a2 < cols
  }

  /** The layers after the CMACSARSA steps ts from t. */
  function SarsaEpisode(t: seq<Layer>, ts: seq<SarsaTransition>, p: Params, sizes: seq<nat>, cols: nat): (u: seq<Layer>)
    requires Shaped(t, sizes, cols) && |t| > 0
    requires forall k :: 0 <= k < |ts| ==> SarsaInTable(ts[k], sizes, cols)
    ensures Shaped(u, sizes, cols)
    decreases |ts|
  {
    if |ts| == 0 then t
    else
      var before, st := SarsaEpisode(t, ts[..|ts| - 1], p, sizes, cols), ts[|ts| - 1];
      assert SarsaInTable(st, sizes, cols);
      SarsaStep(before, st.tr.s, st.tr.a, st.tr.r, st.tr.s2, st.a2, p, sizes, cols)
  }

  lemma SarsaEpisodeSnoc(t: seq<Layer>, ts: seq<SarsaTransition>, st: SarsaTransition, p: Params, sizes: seq<nat>,
                         cols: nat)
    requires Shaped(t, sizes, cols) && |t| > 0
    requires forall k :: 0 <= k < |ts| ==> SarsaInTable(ts[k], sizes, cols)
    requires SarsaInTable(st, sizes, cols)
    ensures forall k :: 0 <= k < |ts + [st]| ==> SarsaInTable((ts + [st])[k], sizes, cols)
    ensures SarsaEpisode(t, ts + [st], p, sizes, cols) ==
            SarsaStep(SarsaEpisode(t, ts, p, sizes, cols), st.tr.s, st.tr.a, st.tr.r, st.tr.s2, st.a2, p, sizes, cols)
  {
    SarsaInTableSnoc(ts, st, sizes, cols);
    assert (ts + [st])[..|ts|] == ts;
  }

  /** The steps without their next actions. */
  function Plains(ts: seq<SarsaTransition>): (ps: seq<Transition>)
    ensures |ps| == |ts| && forall k :: 0 <= k < |ts| ==> ps[k] == ts[k].tr
  {
    seq(|ts|, k requires 0 <= k < |ts| => ts[k].tr)
  }

  lemma PlainsSnoc(ts: seq<SarsaTransition>, st: SarsaTransition)
    ensures Plains(ts + [st]) == Plains(ts) + [st.tr]
  {
    var long, short := Plains(ts + [st]), Plains(ts) + [st.tr];
    forall k | 0 <= k < |long|
      ensures long[k] == short[k]
    {
      if k < |ts| {
        assert (ts + [st])[k] == ts[k];
      }
    }
  }

  /** a is the epsilon-greedy choice on the rows the codes s select in the tables,
      summed. */
  predicate ChosenAt(tables: seq<seq<seq<real>>>, s: seq<int>, a: nat, epsilon: real, d: Draw, sizes: seq<nat>, cols: nat)
    requires TablesShaped(tables, sizes, cols) && cols > 0
  {
    InLayers(s, sizes) && a == Choose(SummedRow(tables, s, cols), true, epsilon, d)
  }

  /** Each action of a CMACSARSA run is an epsilon-greedy choice on the summed rows:
      the first at the start on the initial layers (draw 0), and each step takes the
      action chosen at the end of the step before, on the layers as the steps before
      that one left them (draw k + 1 for step k). */
  predicate SarsaChoices(t0: seq<Layer>, ts: seq<SarsaTransition>, p: Params, epsilon: real, draws: nat -> Draw,
                         sizes: seq<nat>, cols: nat)
    requires Shaped(t0, sizes, cols) && |t0| > 0 && cols > 0
    requires forall k :: 0 <= k < |ts| ==> SarsaInTable(ts[k], sizes, cols)
    decreases |ts|
  {
    |ts| == 0 ||
    var prev, st := ts[..|ts| - 1], ts[|ts| - 1];
    assert SarsaInTable(st, sizes, cols);
    && SarsaChoices(t0, prev, p, epsilon, draws, sizes, cols)
    && (if |prev| == 0 then ChosenAt(Qs(t0), st.tr.s, st.tr.a, epsilon, draws(0), sizes, cols)
        else st.tr.a == prev[|prev| - 1].a2)
    && ChosenAt(Qs(SarsaEpisode(t0, prev, p, sizes, cols)), st.tr.s2, st.a2, epsilon, draws(|prev| + 1), sizes, cols)
  }

  lemma SarsaChoicesExtend(t0: seq<Layer>, ts: seq<SarsaTransition>, st: SarsaTransition, p: Params, epsilon: real,
                           draws: nat -> Draw, sizes: seq<nat>, cols: nat)
    requires Shaped(t0, sizes, cols) && |t0| > 0 && cols > 0
    requires forall k :: 0 <= k < |ts| ==> SarsaInTable(ts[k], sizes, cols)
    requires SarsaInTable(st, sizes, cols) && SarsaChoices(t0, ts, p, epsilon, draws, sizes, cols)
    requires |ts| == 0 ==> ChosenAt(Qs(t0), st.tr.s, st.tr.a, epsilon, draws(0), sizes, cols)
    requires |ts| > 0 ==> st.tr.a == ts[|ts| - 1].a2
    requires ChosenAt(Qs(SarsaEpisode(t0, ts, p, sizes, cols)), st.tr.s2, st.a2, epsilon, draws(|ts| + 1), sizes, cols)
    ensures forall k :: 0 <= k < |ts + [st]| ==> SarsaInTable((ts + [st])[k], sizes, cols)
    ensures SarsaChoices(t0, ts + [st], p, epsilon, draws, sizes, cols)
  {
    SarsaInTableSnoc(ts, st, sizes, cols);
    assert (ts + [st])[..|ts|] == ts;
  }

  lemma SarsaInTableSnoc(ts: seq<SarsaTransition>, st: SarsaTransition, sizes: seq<nat>, cols: nat)
    requires forall k :: 0 <= k < |ts| ==> SarsaInTable(ts[k], sizes, cols)
    requires SarsaInTable(st, sizes, cols)
    ensures forall k :: 0 <= k < |ts + [st]| ==> SarsaInTable((ts + [st])[k], sizes, cols)
  {
  }

  /** What a CMACSARSA episode promises of its steps: a walk from obs0 on which every
      step but the last left the episode running, with the choices `SarsaChoices`
      says. */
  predicate SarsaRun(w: Setup, obs0: seq<real>, before: nat, t0: seq<Layer>, ts: seq<SarsaTransition>, p: Params,
                     epsilon: real, draws: nat -> Draw)
    requires w.Ok() && Shaped(t0, Sizes(w.c), Cols(w))
  {
    && (forall k :: 0 <= k < |ts| ==> SarsaInTable(ts[k], Sizes(w.c), Cols(w)))
    && Walk(w, obs0, Plains(ts))
    && RunsOn(w, Plains(ts), before)
    && SarsaChoices(t0, ts, p, epsilon, draws, Sizes(w.c), Cols(w))
  }

  /** The state of a CMACSARSA episode after the steps ts: the run so far, the layers
      it made, the states recorded after `steps0`, the observation reached and the
      action to take next. */
  predicate SarsaLoop(w: Setup, obs0: seq<real>, steps0: seq<EnvState>, t0: seq<Layer>, ts: seq<SarsaTransition>,
                      p: Params, epsilon: real, draws: nat -> Draw, tables: seq<Layer>, steps: seq<EnvState>,
                      obs: seq<real>, next: nat)
    requires w.Ok() && Shaped(t0, Sizes(w.c), Cols(w)) && |obs0| == ObservationLength(w.kind)
  {
    && SarsaRun(w, obs0, |steps0|, t0, ts, p, epsilon, draws)
    && tables == SarsaEpisode(t0, ts, p, Sizes(w.c), Cols(w))
    && steps == steps0 + NextStates(Plains(ts))
    && obs == Here(obs0, Plains(ts))
    && next < Cols(w)
    && (|ts| == 0 ==> ChosenAt(Qs(t0), CodesOf(w.c, obs0), next, epsilon, draws(0), Sizes(w.c), Cols(w)))
    && (|ts| > 0 ==> next == ts[|ts| - 1].a2)
  }

  /** A CMACSARSA episode starts with no steps, on its initial layers and record, at
      its first observation, with the action chosen there on those layers. */
  lemma SarsaLoopStart(w: Setup, obs0: seq<real>, steps0: seq<EnvState>, t0: seq<Layer>, p: Params, epsilon: real,
                       draws: nat -> Draw, next: nat)
    requires w.Ok() && Shaped(t0, Sizes(w.c), Cols(w)) && |obs0| == ObservationLength(w.kind) && next < Cols(w)
    requires ChosenAt(Qs(t0), CodesOf(w.c, obs0), next, epsilon, draws(0), Sizes(w.c), Cols(w))
    ensures SarsaLoop(w, obs0, steps0, t0, [], p, epsilon, draws, t0, steps0, obs0, next)
  {
    assert Plains([]) == [] && NextStates([]) == [];
  }

  /** A CMACSARSA episode grows by the move it makes with the action it chose, the
      choice at the new codes on its layers, learning on the step and recording the
      new state; it goes on after the step exactly when the new observation is not
      absorbing and the ceiling is not reached. */
  lemma SarsaLoopExtend(w: Setup, obs0: seq<real>, steps0: seq<EnvState>, t0: seq<Layer>, ts: seq<SarsaTransition>,
                        st: SarsaTransition, p: Params, epsilon: real, draws: nat -> Draw, tables: seq<Layer>,
                        steps: seq<EnvState>, steps': seq<EnvState>)
    requires w.Ok() && Shaped(t0, Sizes(w.c), Cols(w)) && |obs0| == ObservationLength(w.kind)
    requires SarsaLoop(w, obs0, steps0, t0, ts, p, epsilon, draws, tables, steps, st.tr.obs, st.tr.a)
    requires Continues(w, Plains(ts), |steps0|) && Moves(w, st.tr) && st.a2 < Cols(w)
    requires ChosenAt(Qs(tables), st.tr.s2, st.a2, epsilon, draws(|ts| + 1), Sizes(w.c), Cols(w))
    requires steps' == steps + [Codes(st.tr.s2)]
    ensures SarsaInTable(st, Sizes(w.c), Cols(w)) && |steps'| == |steps0| + |ts| + 1
    ensures SarsaLoop(w, obs0, steps0, t0, ts + [st], p, epsilon, draws,
                      SarsaStep(tables, st.tr.s, st.tr.a, st.tr.r, st.tr.s2, st.a2, p, Sizes(w.c), Cols(w)),
                      steps', st.tr.obs2, st.a2)
    ensures Continues(w, Plains(ts + [st]), |steps0|) <==>
            !Done(IsStateAbsorbing(w.kind, st.tr.obs2), |steps'|, w.maxSteps)
  {
    MovesInTable(w, st.tr);
    PlainsSnoc(ts, st);
    WalkExtend(w, obs0, |steps0|, Plains(ts), st.tr);
    SarsaChoicesExtend(t0, ts, st, p, epsilon, draws, Sizes(w.c), Cols(w));
    SarsaEpisodeSnoc(t0, ts, st, p, Sizes(w.c), Cols(w));
    StepsSnoc(steps0, Plains(ts), st.tr, steps, steps');
  }

  // ---------------------------------------------------------------------------------
  // The class

  /** CMACSARSA on a CMAC-approximated continuous environment; it inherits CMACQ's
      constructor, tables and greedy actions. */
  class CmacSarsa {
    const env: Environment
    const cmac: CmacApproximator
    const lambd: real
    const epsilon: real
    const gamma: real
    const alpha: real
    /** One action-value table per layer. */
    const q: seq<array2<real>>
    var stepsPerEpisode: seq<nat>

    ghost predicate Valid()
      reads this, env
    {
      && Holds(env, cmac)
      && TablesFit(q, Sizes(cmac), Cols(W())) && |q| > 0 && Distinct(q)
    }

    function W(): Setup {
      Setup(env.kind, env.dynamics, env.maxSteps, cmac)
    }

    function P(): Params {
      Params(alpha, 0.0, gamma, lambd)
    }

    /** `CMACSARSA(environment, lambd, epsilon, gamma, alpha)`, the constructor of
        CMACQ. */
    constructor (environment: Environment, lambd: real, epsilon: real, gamma: real, alpha: real)
      requires environment.Valid()
      requires Compatibility.SetEnvironment(Compatibility.CmacFamily, Compatibility.ContinuousView(environment.approximator)).Ok?
      ensures Valid() && env == environment && cmac == environment.approximator.value.cmac
      ensures this.lambd == lambd && this.epsilon == epsilon && this.gamma == gamma && this.alpha == alpha
      ensures forall l :: 0 <= l < |q| ==> fresh(q[l])
      ensures Values(q) == ZeroLayers(Sizes(cmac), Cols(W()))
      ensures stepsPerEpisode == []
    {
      env := environment;
      var c := environment.approximator.value.cmac;
      cmac := c;
      this.lambd := lambd;
      this.epsilon := epsilon;
      this.gamma := gamma;
      this.alpha := alpha;
      var tables := NewTables(Sizes(c), |ContinuousActions(environment.kind)|, 0.0);
      q := tables;
      stepsPerEpisode := [];
    }

    /** `get_greedy_actions(s)`, inherited from CMACQ. */
    function GreedyActions(s: seq<int>): (g: seq<nat>)
      reads this, q
      requires cmac.Valid() && TablesFit(q, Sizes(cmac), Cols(W())) && InLayers(s, Sizes(cmac))
      ensures g == GreedyOf(Values(q), s, Cols(W()))
    {
      GreedyOf(Values(q), s, |ContinuousActions(env.kind)|)
    }

    /** `get_action()`: the epsilon-greedy choice at the codes s. */
    function ChooseAction(s: seq<int>, d: Draw): (a: nat)
      reads this, env, q
      requires Valid() && InLayers(s, Sizes(cmac))
      ensures a == Choose(SummedRow(Values(q), s, Cols(W())), true, epsilon, d)
    {
      ChooseIsGetAction(Values(q), s, Cols(W()), epsilon, d);
      GetAction(true, epsilon, |env.Actions()|, GreedyActions(s), d)
    }

    /** The learning step after action a took the agent from the codes s to s2 with
        reward r, and a2 was chosen at s2. */
    method Update(e: seq<array2<real>>, s: seq<int>, a: nat, r: real, s2: seq<int>, a2: nat)
      requires Valid() && TracesFit(q, e)
      requires InLayers(s, Sizes(cmac)) && InLayers(s2, Sizes(cmac)) && a < Cols(W()) && a2 < Cols(W())
      modifies q, e
      ensures Valid() && TracesFit(q, e) && unchanged(env)
      ensures Layers(q, e) == SarsaStep(old(Layers(q, e)), s, a, r, s2, a2, P(), Sizes(cmac), Cols(W()))
    {
      var delta := SarsaDeltas(Layers(q, e), s, a, r, s2, a2, gamma);
      var rate := alpha / |q| as real;
      assert rate == LayerRate(alpha, |q|);
      var decay := gamma * lambd;
      assert decay == Decay(P());
      LayersTdUpdateInPlace(q, e, s, a, rate, delta, decay, lambd > 0.0);
    }

    /** The state of `run_learning_episode` after the steps ts of an episode that
        started at the observation obs0 with the record steps0 and the layers t0, next
        being the action to take. */
    ghost predicate InEpisode(e: seq<array2<real>>, t0: seq<Layer>, ts: seq<SarsaTransition>, obs0: seq<real>,
                              steps0: seq<EnvState>, draws: nat -> Draw, next: nat)
      reads this, env, q, e
    {
      && Valid() && TracesFit(q, e) && Shaped(t0, Sizes(cmac), Cols(W())) && |obs0| == ObservationLength(env.kind)
      && SarsaLoop(W(), obs0, steps0, t0, ts, P(), epsilon, draws, Layers(q, e), env.steps, env.observation, next)
    }

    /** `do_action(a)` at the codes s, then reading `reward` and `state`. */
    method Act(ghost e: seq<array2<real>>, s: seq<int>, a: nat) returns (r: real, s2: seq<int>)
      requires Valid() && |e| == |q| && s == CodesOf(cmac, env.observation) && a < Cols(W())
      modifies env`observation, env`state, env`steps
      ensures Valid() && Layers(q, e) == old(Layers(q, e))
      ensures Moves(W(), Transition(old(env.observation), s, a, r, env.observation, s2))
      ensures env.steps == old(env.steps) + [Codes(s2)]
      ensures InLayers(s2, Sizes(cmac))
    {
      r, s2 := ActOn(env, cmac, a, q, e);
      MovesInTable(W(), Transition(old(env.observation), s, a, r, env.observation, s2));
    }

    /** Halfway through a pass of the loop: the move of tr has been made with the
        action chosen for it; the layers are not yet updated. */
    ghost predicate Acted(e: seq<array2<real>>, t0: seq<Layer>, ts: seq<SarsaTransition>, tr: Transition,
                          obs0: seq<real>, steps0: seq<EnvState>, draws: nat -> Draw, steps: seq<EnvState>)
      reads this, env, q, e
    {
      && Valid() && TracesFit(q, e) && Shaped(t0, Sizes(cmac), Cols(W())) && |obs0| == ObservationLength(env.kind)
      && SarsaLoop(W(), obs0, steps0, t0, ts, P(), epsilon, draws, Layers(q, e), steps, tr.obs, tr.a)
      && Continues(W(), Plains(ts), |steps0|) && Moves(W(), tr)
      && env.steps == steps + [Codes(tr.s2)] && env.observation == tr.obs2
    }

    /** The acting half of a pass of the loop of `run_learning_episode`. */
    method ActStep(e: seq<array2<real>>, ghost t0: seq<Layer>, ghost ts: seq<SarsaTransition>, ghost obs0: seq<real>,
                   ghost steps0: seq<EnvState>, draws: nat -> Draw, s: seq<int>, a: nat)
      returns (r: real, s2: seq<int>, ghost tr: Transition, ghost steps: seq<EnvState>)
      requires InEpisode(e, t0, ts, obs0, steps0, draws, a) && Continues(W(), Plains(ts), |steps0|)
      requires s == CodesOf(cmac, env.observation)
      modifies env`observation, env`state, env`steps
      ensures Acted(e, t0, ts, tr, obs0, steps0, draws, steps)
      ensures tr.s == s && tr.a == a && tr.r == r && tr.s2 == s2
    {
      ghost var tables, obs := Layers(q, e), env.observation;
      steps := env.steps;
      r, s2 := Act(e, s, a);
      tr := Transition(obs, s, a, r, env.observation, s2);
      assert Layers(q, e) == tables;
    }

    /** The learning half of a pass of the loop of `run_learning_episode`, a2 being the
        action chosen at the new codes on the layers before they learn: the episode
        grows by the step taken. */
    method LearnStep(e: seq<array2<real>>, ghost t0: seq<Layer>, ghost ts: seq<SarsaTransition>, ghost tr: Transition,
                     ghost obs0: seq<real>, ghost steps0: seq<EnvState>, draws: nat -> Draw, ghost steps: seq<EnvState>,
                     s: seq<int>, a: nat, r: real, s2: seq<int>, a2: nat)
      requires Acted(e, t0, ts, tr, obs0, steps0, draws, steps)
      requires tr.s == s && tr.a == a && tr.r == r && tr.s2 == s2
      requires a2 < Cols(W()) && ChosenAt(Qs(Layers(q, e)), s2, a2, epsilon, draws(|ts| + 1), Sizes(cmac), Cols(W()))
      modifies q, e
      ensures InEpisode(e, t0, ts + [SarsaTransition(tr, a2)], obs0, steps0, draws, a2)
      ensures |env.steps| == |steps0| + |ts| + 1 && s2 == CodesOf(cmac, env.observation)
      ensures env.IsDone() <==> !Continues(W(), Plains(ts + [SarsaTransition(tr, a2)]), |steps0|)
    {
      MovesInTable(W(), tr);
      SarsaLoopExtend(W(), obs0, steps0, t0, ts, SarsaTransition(tr, a2), P(), epsilon, draws, Layers(q, e), steps,
                      env.steps);
      Update(e, s, a, r, s2, a2);
    }

    /** One pass of the loop of `run_learning_episode`: act, choose the next action at
        the new codes, learn. */
    method EpisodeStep(e: seq<array2<real>>, ghost t0: seq<Layer>, ghost ts: seq<SarsaTransition>, ghost obs0: seq<real>,
                       ghost steps0: seq<EnvState>, draws: nat -> Draw, n: nat, s: seq<int>, a: nat)
      returns (s2: seq<int>, a2: nat, ghost st: SarsaTransition)
      requires InEpisode(e, t0, ts, obs0, steps0, draws, a) && n == |ts| && Continues(W(), Plains(ts), |steps0|)
      requires s == CodesOf(cmac, env.observation)
      modifies env, q, e
      ensures InEpisode(e, t0, ts + [st], obs0, steps0, draws, a2)
      ensures |env.steps| == |steps0| + |ts| + 1 && s2 == CodesOf(cmac, env.observation)
      ensures env.IsDone() <==> !Continues(W(), Plains(ts + [st]), |steps0|)
    {
      var r;
      ghost var tr, steps;
      r, s2, tr, steps := ActStep(e, t0, ts, obs0, steps0, draws, s, a);
      MovesInTable(W(), tr);
      a2 := ChooseAction(s2, draws(n + 1));
      st := SarsaTransition(tr, a2);
      LearnStep(e, t0, ts, tr, obs0, steps0, draws, steps, s, a, r, s2, a2);
    }

    /** The start of `run_learning_episode` once the first action a is chosen at the
        current codes: fresh zero traces. */
    method StartEpisode(draws: nat -> Draw, a: nat) returns (e: seq<array2<real>>)
      requires Valid() && ChosenAt(Values(q), CodesOf(cmac, env.observation), a, epsilon, draws(0), Sizes(cmac), Cols(W()))
      ensures TracesFit(q, e) && forall l :: 0 <= l < |e| ==> fresh(e[l])
      ensures Layers(q, e) == WithZeroTraces(Values(q))
      ensures InEpisode(e, Layers(q, e), [], env.observation, env.steps, draws, a)
    {
      ghost var v := Values(q);
      e := NewTraces(q);
      assert Qs(Layers(q, e)) == v;
      SarsaLoopStart(W(), env.observation, env.steps, Layers(q, e), P(), epsilon, draws, a);
    }

    /** The loop of `run_learning_episode`, from the first action to the step after
        which the environment is done; the codes and the action are carried from each
        step to the next. */
    method RunSteps(e: seq<array2<real>>, ghost t0: seq<Layer>, ghost obs0: seq<real>, ghost steps0: seq<EnvState>,
                    draws: nat -> Draw, s: seq<int>, a: nat) returns (ghost ts: seq<SarsaTransition>)
      requires InEpisode(e, t0, [], obs0, steps0, draws, a) && s == CodesOf(cmac, env.observation)
      modifies env, q, e
      ensures |ts| > 0 && InEpisode(e, t0, ts, obs0, steps0, draws, ts[|ts| - 1].a2) && env.IsDone()
    {
      ts := [];
      var n: nat := 0;
      var state, next := s, a;
      while true
        invariant InEpisode(e, t0, ts, obs0, steps0, draws, next) && Continues(W(), Plains(ts), |steps0|)
        invariant n == |ts| && state == CodesOf(cmac, env.observation)
        invariant |env.steps| == |steps0| + n
        decreases env.maxSteps - |env.steps|
      {
        ghost var st;
        var s2, a2;
        s2, a2, st := EpisodeStep(e, t0, ts, obs0, steps0, draws, n, state, next);
        ts := ts + [st];
        n := n + 1;
        if env.IsDone() {
          return;
        }
        state, next := s2, a2;
      }
    }

    /** `run_learning_episode`: from fresh traces, choose the first action, then act,
        choose the next action, learn from the step and carry the new codes and action
        forward, until the environment is done.  The returned steps are the episode's
        walk; the tables are the CMACSARSA run over them. */
    method RunLearningEpisode(draws: nat -> Draw) returns (ghost ts: seq<SarsaTransition>)
      requires Valid()
      modifies env, q
      ensures Valid() && env.IsDone()
      ensures |ts| > 0 && env.steps == old(env.steps) + NextStates(Plains(ts)) && env.observation == ts[|ts| - 1].tr.obs2
      ensures SarsaRun(W(), old(env.observation), |old(env.steps)|, WithZeroTraces(old(Values(q))), ts, P(), epsilon, draws)
      ensures Values(q) == Qs(SarsaEpisode(WithZeroTraces(old(Values(q))), ts, P(), Sizes(cmac), Cols(W())))
    {
      StateCodes(env, cmac);
      var s := env.state.codes;
      var a := ChooseAction(s, draws(0));
      var e := StartEpisode(draws, a);
      ts := RunSteps(e, Layers(q, e), env.observation, env.steps, draws, s, a);
    }

    /** The body of the loop of `learn`: clear the environment, run an episode and
        give the number of steps it took. */
    method ClearAndRun(draws: nat -> Draw) returns (length: nat)
      requires Valid()
      modifies env, q
      ensures Valid()
      ensures length == |env.steps| && 1 <= length && (length == 1 || length <= env.maxSteps)
    {
      env.Clear();
      ghost var ts := RunLearningEpisode(draws);
      length := |env.steps|;
      assert RunsOn(W(), Plains(ts), 0);
      if |ts| > 1 {
        assert !Done(IsStateAbsorbing(env.kind, Plains(ts)[|ts| - 2].obs2), |ts| - 1, env.maxSteps);
      }
    }

    /** `learn`, inherited from `Algorithm`. */
    method Learn(nEpisodes: int, stop: bool, lte: ExtReal, gte: ExtReal, w: int, draws: nat -> nat -> Draw)
      requires Valid()
      modifies this, env, q
      ensures Valid()
      ensures LearnOutcome(old(stepsPerEpisode), stepsPerEpisode, nEpisodes, stop, lte, gte, w)
      ensures Classic.EpisodeLengths(stepsPerEpisode[|old(stepsPerEpisode)|..], env.maxSteps)
      ensures |stepsPerEpisode| > |old(stepsPerEpisode)| ==> stepsPerEpisode[|stepsPerEpisode| - 1] == |env.steps|
    {
      ghost var before := stepsPerEpisode;
      ghost var record := stepsPerEpisode;
      var i: nat := 0;
      while i < nEpisodes
        invariant Valid() && i <= if nEpisodes > 0 then nEpisodes else 0
        invariant stepsPerEpisode == record
        invariant LearnProgress(before, record, i, stop, lte, gte, w)
        invariant Classic.EpisodeLengths(record[|before|..], env.maxSteps)
        invariant |record| > |before| ==> record[|record| - 1] == |env.steps|
      {
        var length := ClearAndRun(draws(i));
        Classic.EpisodeLengthsSnoc(|before|, record, length, env.maxSteps);
        record := record + [length];
        stepsPerEpisode := stepsPerEpisode + [length];
        if stop && IsLearned(stepsPerEpisode, lte, gte, w) {
          LearnStopped(before, record, i, nEpisodes, stop, lte, gte, w);
          return;
        }
        LearnProgressStep(before, record, i, stop, lte, gte, w);
        i := i + 1;
      }
      LearnProgressOutcome(before, record, i, nEpisodes, stop, lte, gte, w);
    }
  }
}
