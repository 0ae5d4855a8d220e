/** CMACR of algorithm/cmac.py: R-learning over CMAC layers.  Each layer keeps its own
    average-reward estimate rho, reset to zero at the start of every episode; the error
    subtracts rho instead of discounting, the traces decay by lambda alone, and after a
    greedy action every rho moves towards the reward on the updated tables. */
module CmacR {
  import opened ExtReals
  import opened Matrices
  import opened Learning
  import opened Approximators
  import opened Environments
  import opened Cmac
  import Classic
  import Compatibility

  // ---------------------------------------------------------------------------------
  // Steps

  /** Per-layer tables with their traces, and the per-layer average-reward estimates. */
  datatype RLayers = RLayers(ls: seq<Layer>, rho: seq<real>)

  /** `delta[t] = r - rho[t] + q[t][s_[t], :].max() - q[t][s[t], a]`. */
  function RDeltas(t: RLayers, s: seq<int>, a: nat, r: real, s2: seq<int>): (delta: seq<real>)
    requires |s| == |t.ls| && |s2| == |t.ls| && |t.rho| == |t.ls|
    requires forall l :: 0 <= l < |t.ls| ==> 0 <= s[l] < |t.ls[l].q| && 0 <= s2[l] < |t.ls[l].q| && a < |t.ls[l].q[s[l]]| && |t.ls[l].q[s2[l]]| > 0
    ensures |delta| == |t.ls|
  {
    seq(|t.ls|, l requires 0 <= l < |t.ls| => r - t.rho[l] + Max(t.ls[l].q[s2[l]]) - t.ls[l].q[s[l]][a])
  }

  /** `rho += beta * (r - rho + next - here)`. */
  function RhoMove(rho: real, beta: real, r: real, next: real, here: real): real {
    rho + beta * (r - rho + next - here)
  }

  /** Every layer's estimate moved by `RhoMove` on the tables. */
  function RhoMoves(tables: seq<seq<seq<real>>>, rho: seq<real>, s: seq<int>, r: real, s2: seq<int>, beta: real,
                    sizes: seq<nat>, cols: nat): (rho': seq<real>)
    requires TablesShaped(tables, sizes, cols) && cols > 0 && InLayers(s, sizes) && InLayers(s2, sizes)
    requires |rho| == |tables|
    ensures |rho'| == |rho|
    ensures forall l :: 0 <= l < |rho| ==>
              rho'[l] == RhoMove(rho[l], beta, r, Max(tables[l][s2[l]]), Max(tables[l][s[l]]))
  {
    seq(|rho|, l requires 0 <= l < |rho| => RhoMove(rho[l], beta, r, Max(tables[l][s2[l]]), Max(tables[l][s[l]])))
  }

  /** The rho update after the tables moved: every layer's estimate moves, on the moved
      tables, when a is greedy at s on them, and none moves otherwise. */
  function RhoStep(us: seq<Layer>, rho: seq<real>, s: seq<int>, a: nat, r: real, s2: seq<int>, beta: real,
                   sizes: seq<nat>, cols: nat): (rho': seq<real>)
    requires Shaped(us, sizes, cols) && cols > 0 && InLayers(s, sizes) && InLayers(s2, sizes) && |rho| == |us|
    ensures |rho'| == |rho|
  {
    if a in ArgMax(SummedRow(Qs(us), s, cols)) then RhoMoves(Qs(us), rho, s, r, s2, beta, sizes, cols)
    else rho
  }

  /** The loop of `run_learning_episode` over the layers that moves every estimate
      towards the reward on the tables. */
  method MoveRho(tables: seq<seq<seq<real>>>, rho: seq<real>, s: seq<int>, r: real, s2: seq<int>, beta: real,
                 ghost sizes: seq<nat>, ghost cols: nat) returns (rho': seq<real>)
    requires TablesShaped(tables, sizes, cols) && cols > 0 && InLayers(s, sizes) && InLayers(s2, sizes)
    requires |rho| == |tables|
    ensures rho' == RhoMoves(tables, rho, s, r, s2, beta, sizes, cols)
  {
    rho' := rho;
    for l := 0 to |rho|
      invariant |rho'| == |rho|
      invariant forall k :: 0 <= k < l ==>
                  rho'[k] == RhoMove(rho[k], beta, r, Max(tables[k][s2[k]]), Max(tables[k][s[k]]))
      invariant forall k :: l <= k < |rho| ==> rho'[k] == rho[k]
    {
      rho' := rho'[l := RhoMove(rho'[l], beta, r, Max(tables[l][s2[l]]), Max(tables[l][s[l]]))];
    }
  }

  /** One CMACR step: traces decay by lambda alone, then rho as `RhoStep` says. */
  function RStep(t: RLayers, s: seq<int>, a: nat, r: real, s2: seq<int>, p: Params, sizes: seq<nat>, cols: nat)
    : (u: RLayers)
    requires Shaped(t.ls, sizes, cols) && |t.ls| > 0 && |t.rho| == |t.ls| && InLayers(s, sizes) && InLayers(s2, sizes) && a < cols
    ensures Shaped(u.ls, sizes, cols) && |u.rho| == |u.ls|
    ensures u.rho == RhoStep(u.ls, t.rho, s, a, r, s2, p.beta, sizes, cols)
  {
    var us := LayersTdUpdate(t.ls, s, a, LayerRate(p.alpha, |t.ls|), RDeltas(t, s, a, r, s2), p.lambd, p.lambd > 0.0);
    RLayers(us, RhoStep(us, t.rho, s, a, r, s2, p.beta, sizes, cols))
  }

  /** Layer l of a CMACR step moves by `alpha / n` times
      `r - rho[l] + max q[l][s2[l], :] - q[l][s[l], a]`, its traces decaying by lambda. */
  lemma RStepEntry(t: RLayers, s: seq<int>, a: nat, r: real, s2: seq<int>, p: Params, sizes: seq<nat>, cols: nat,
                   l: nat, i: nat, j: nat)
    requires Shaped(t.ls, sizes, cols) && |t.ls| > 0 && |t.rho| == |t.ls| && InLayers(s, sizes) && InLayers(s2, sizes) && a < cols
    requires l < |t.ls| && i < sizes[l] && j < cols
    ensures RowEntryMoves(t.ls[l], RStep(t, s, a, r, s2, p, sizes, cols).ls[l], s[l], a,
                          LayerStep(LayerRate(p.alpha, |t.ls|), r - t.rho[l] + Max(t.ls[l].q[s2[l]]) - t.ls[l].q[s[l]][a]),
                          p.lambd, p.lambd > 0.0, i, j)
  {
    var deltas := RDeltas(t, s, a, r, s2);
    var delta := r - t.rho[l] + Max(t.ls[l].q[s2[l]]) - t.ls[l].q[s[l]][a];
    assert deltas[l] == delta;
    var step := LayerStep(LayerRate(p.alpha, |t.ls|), delta);
    assert RStep(t, s, a, r, s2, p, sizes, cols).ls[l] == RowTdUpdate(t.ls[l], s[l], a, step, p.lambd, p.lambd > 0.0);
    RowTdUpdateEntry(t.ls[l], s[l], a, step, p.lambd, p.lambd > 0.0, i, j);
  }

  /** The estimates after a CMACR step: when a's value summed over the moved layers is
      at least every other action's, every rho[l] moves by
      `beta * (r - rho[l] + max q'[l][s2[l]] - max q'[l][s[l]])`; otherwise none
      changes. */
  lemma RhoStepMoves(us: seq<Layer>, rho: seq<real>, s: seq<int>, a: nat, r: real, s2: seq<int>, beta: real,
                     sizes: seq<nat>, cols: nat)
    requires Shaped(us, sizes, cols) && cols > 0 && InLayers(s, sizes) && InLayers(s2, sizes) && |rho| == |us|
    requires a < cols
    ensures var rho' := RhoStep(us, rho, s, a, r, s2, beta, sizes, cols);
            && (SummedGreedy(SelectedRows(Qs(us), s), a, cols) ==>
                  forall l :: 0 <= l < |rho| ==>
                    rho'[l] == RhoMove(rho[l], beta, r, Max(us[l].q[s2[l]]), Max(us[l].q[s[l]])))
            && (!SummedGreedy(SelectedRows(Qs(us), s), a, cols) ==> rho' == rho)
  {
    SummedGreedyMember(Qs(us), s, cols, a);
  }


  /** `rho = [0.0 for t in range(self.n_layers)]`. */
  function ZeroRho(n: nat): (rho: seq<real>)
    ensures |rho| == n && forall l :: 0 <= l < n ==> rho[l] == 0.0
  {
    seq(n, l => 0.0)
  }

  // ---------------------------------------------------------------------------------
  // Episodes

  /** The layers and estimates after the CMACR steps ts from t. */
  function REpisode(t: RLayers, ts: seq<Transition>, p: Params, sizes: seq<nat>, cols: nat): (u: RLayers)
    requires Shaped(t.ls, sizes, cols) && |t.ls| > 0 && |t.rho| == |t.ls|
    requires forall k :: 0 <= k < |ts| ==> InTable(ts[k], sizes, cols)
    ensures Shaped(u.ls, sizes, cols) && |u.ls| == |t.ls| && |u.rho| == |u.ls|
    decreases |ts|
  {
    if |ts| == 0 then t
    else
      var before, tr := REpisode(t, ts[..|ts| - 1], p, sizes, cols), ts[|ts| - 1];
      assert InTable(tr, sizes, cols);
      RStep(before, tr.s, tr.a, tr.r, tr.s2, p, sizes, cols)
  }

  lemma REpisodeSnoc(t: RLayers, ts: seq<Transition>, tr: Transition, p: Params, sizes: seq<nat>, cols: nat)
    requires Shaped(t.ls, sizes, cols) && |t.ls| > 0 && |t.rho| == |t.ls|
    requires forall k :: 0 <= k < |ts| ==> InTable(ts[k], sizes, cols)
    requires InTable(tr, sizes, cols)
    ensures forall k :: 0 <= k < |ts + [tr]| ==> InTable((ts + [tr])[k], sizes, cols)
    ensures REpisode(t, ts + [tr], p, sizes, cols) == RStep(REpisode(t, ts, p, sizes, cols), tr.s, tr.a, tr.r, tr.s2, p, sizes, cols)
  {
    InTableSnoc(ts, tr, sizes, cols);
    assert (ts + [tr])[..|ts|] == ts;
  }

  /** Each action of a CMACR run is the epsilon-greedy choice on the summed rows of the
      layers as the earlier steps left them. */
  predicate RChoices(t0: RLayers, ts: seq<Transition>, p: Params, epsilon: real, draws: nat -> Draw,
                     sizes: seq<nat>, cols: nat)
    requires Shaped(t0.ls, sizes, cols) && |t0.ls| > 0 && |t0.rho| == |t0.ls| && cols > 0
    requires forall k :: 0 <= k < |ts| ==> InTable(ts[k], sizes, cols)
    decreases |ts|
  {
    |ts| == 0 ||
    var prev, tr := ts[..|ts| - 1], ts[|ts| - 1];
    assert InTable(tr, sizes, cols);
    && RChoices(t0, prev, p, epsilon, draws, sizes, cols)
    && ChosenOn(Qs(REpisode(t0, prev, p, sizes, cols).ls), tr, epsilon, draws(|prev|), sizes, cols)
  }

  lemma RChoicesExtend(t0: RLayers, ts: seq<Transition>, tr: Transition, p: Params, epsilon: real,
                       draws: nat -> Draw, sizes: seq<nat>, cols: nat)
    requires Shaped(t0.ls, sizes, cols) && |t0.ls| > 0 && |t0.rho| == |t0.ls| && cols > 0
    requires forall k :: 0 <= k < |ts| ==> InTable(ts[k], sizes, cols)
    requires InTable(tr, sizes, cols) && RChoices(t0, ts, p, epsilon, draws, sizes, cols)
    requires ChosenOn(Qs(REpisode(t0, ts, p, sizes, cols).ls), tr, epsilon, draws(|ts|), sizes, cols)
    ensures forall k :: 0 <= k < |ts + [tr]| ==> InTable((ts + [tr])[k], sizes, cols)
    ensures RChoices(t0, ts + [tr], p, epsilon, draws, sizes, cols)
  {
    InTableSnoc(ts, tr, sizes, cols);
    assert (ts + [tr])[..|ts|] == ts;
  }

  /** What a CMACR episode promises of its steps: a walk from obs0 on which every step
      but the last left the episode running, each action chosen on the layers the
      earlier steps left. */
  predicate RRun(w: Setup, obs0: seq<real>, before: nat, t0: RLayers, ts: seq<Transition>, p: Params,
                 epsilon: real, draws: nat -> Draw)
    requires w.Ok() && Shaped(t0.ls, Sizes(w.c), Cols(w)) && |t0.rho| == |t0.ls|
  {
    && (forall k :: 0 <= k < |ts| ==> InTable(ts[k], Sizes(w.c), Cols(w)))
    && Walk(w, obs0, ts)
    && RunsOn(w, ts, before)
    && RChoices(t0, ts, p, epsilon, draws, Sizes(w.c), Cols(w))
  }

  /** The state of a CMACR episode after the steps ts: the run so far, the layers and
      estimates it made, the states recorded after `steps0` and the observation
      reached. */
  predicate RLoop(w: Setup, obs0: seq<real>, steps0: seq<EnvState>, t0: RLayers, ts: seq<Transition>, p: Params,
                  epsilon: real, draws: nat -> Draw, tables: RLayers, steps: seq<EnvState>, obs: seq<real>)
    requires w.Ok() && Shaped(t0.ls, Sizes(w.c), Cols(w)) && |t0.rho| == |t0.ls|
  {
    && RRun(w, obs0, |steps0|, t0, ts, p, epsilon, draws)
    && tables == REpisode(t0, ts, p, Sizes(w.c), Cols(w))
    && steps == steps0 + NextStates(ts)
    && obs == Here(obs0, ts)
  }

  /** A CMACR episode starts with no steps, on its initial layers and estimates, at its
      first observation. */
  lemma RLoopStart(w: Setup, obs0: seq<real>, steps0: seq<EnvState>, t0: RLayers, p: Params, epsilon: real,
                   draws: nat -> Draw)
    requires w.Ok() && Shaped(t0.ls, Sizes(w.c), Cols(w)) && |t0.rho| == |t0.ls|
    ensures RLoop(w, obs0, steps0, t0, [], p, epsilon, draws, t0, steps0, obs0)
  {
    assert NextStates([]) == [];
  }

  /** A CMACR run grows by a move from where it ended whose action is the choice on
      the current layers, when its last step left the episode running. */
  lemma RRunExtend(w: Setup, obs0: seq<real>, before: nat, t0: RLayers, ts: seq<Transition>, tr: Transition,
                   p: Params, epsilon: real, draws: nat -> Draw)
    requires w.Ok() && Shaped(t0.ls, Sizes(w.c), Cols(w)) && |t0.rho| == |t0.ls|
    requires RRun(w, obs0, before, t0, ts, p, epsilon, draws) && Continues(w, ts, before)
    requires tr.obs == Here(obs0, ts) && Moves(w, tr) && InTable(tr, Sizes(w.c), Cols(w))
    requires ChosenOn(Qs(REpisode(t0, ts, p, Sizes(w.c), Cols(w)).ls), tr, epsilon, draws(|ts|), Sizes(w.c), Cols(w))
    ensures RRun(w, obs0, before, t0, ts + [tr], p, epsilon, draws)
  {
    WalkExtend(w, obs0, before, ts, tr);
    RChoicesExtend(t0, ts, tr, p, epsilon, draws, Sizes(w.c), Cols(w));
  }

  /** Halfway through a pass of the loop of a CMACR episode: the step tr has been taken
      from where the episode ts (whose record was steps) stood, with the action chosen
      on its layers; the layers and estimates have not yet learnt from it. */
  predicate RActed(w: Setup, obs0: seq<real>, steps0: seq<EnvState>, t0: RLayers, ts: seq<Transition>, tr: Transition,
                   p: Params, epsilon: real, draws: nat -> Draw, tables: RLayers, steps: seq<EnvState>,
                   steps': seq<EnvState>, obs': seq<real>)
    requires w.Ok() && Shaped(t0.ls, Sizes(w.c), Cols(w)) && |t0.rho| == |t0.ls|
  {
    && RLoop(w, obs0, steps0, t0, ts, p, epsilon, draws, tables, steps, tr.obs)
    && Continues(w, ts, |steps0|) && Moves(w, tr) && InTable(tr, Sizes(w.c), Cols(w))
    && tr.a == Choose(SummedRow(Qs(tables.ls), tr.s, Cols(w)), true, epsilon, draws(|ts|))
    && steps' == steps + [Codes(tr.s2)] && obs' == tr.obs2
  }

  /** A CMACR episode grows by the move it makes from where it stands with the action
      chosen on its layers, into the layers and estimates that step leaves and the
      state it records. */
  lemma RLoopGrow(w: Setup, obs0: seq<real>, steps0: seq<EnvState>, t0: RLayers, ts: seq<Transition>,
                  tr: Transition, p: Params, epsilon: real, draws: nat -> Draw, tables: RLayers,
                  steps: seq<EnvState>, tables': RLayers, steps': seq<EnvState>)
    requires w.Ok() && Shaped(t0.ls, Sizes(w.c), Cols(w)) && |t0.rho| == |t0.ls|
    requires RLoop(w, obs0, steps0, t0, ts, p, epsilon, draws, tables, steps, tr.obs)
    requires Continues(w, ts, |steps0|) && Moves(w, tr) && InTable(tr, Sizes(w.c), Cols(w))
    requires tr.a == Choose(SummedRow(Qs(tables.ls), tr.s, Cols(w)), true, epsilon, draws(|ts|))
    requires tables' == RStep(tables, tr.s, tr.a, tr.r, tr.s2, p, Sizes(w.c), Cols(w))
    requires steps' == steps + [Codes(tr.s2)]
    ensures RLoop(w, obs0, steps0, t0, ts + [tr], p, epsilon, draws, tables', steps', tr.obs2)
  {
    RRunExtend(w, obs0, |steps0|, t0, ts, tr, p, epsilon, draws);
    REpisodeSnoc(t0, ts, tr, p, Sizes(w.c), Cols(w));
    StepsSnoc(steps0, ts, tr, steps, steps');
  }

  /** After that move the CMACR episode goes on exactly when the new observation is
      not absorbing and the ceiling is not reached. */
  lemma RLoopExtend(w: Setup, obs0: seq<real>, steps0: seq<EnvState>, t0: RLayers, ts: seq<Transition>,
                    tr: Transition, p: Params, epsilon: real, draws: nat -> Draw, tables: RLayers,
                    steps: seq<EnvState>, steps': seq<EnvState>)
    requires w.Ok() && Shaped(t0.ls, Sizes(w.c), Cols(w)) && |t0.rho| == |t0.ls|
    requires RLoop(w, obs0, steps0, t0, ts, p, epsilon, draws, tables, steps, tr.obs)
    requires Continues(w, ts, |steps0|) && Moves(w, tr) && InTable(tr, Sizes(w.c), Cols(w))
    requires tr.a == Choose(SummedRow(Qs(tables.ls), tr.s, Cols(w)), true, epsilon, draws(|ts|))
    requires steps' == steps + [Codes(tr.s2)]
    ensures |steps'| == |steps0| + |ts| + 1
    ensures RLoop(w, obs0, steps0, t0, ts + [tr], p, epsilon, draws,
                  RStep(tables, tr.s, tr.a, tr.r, tr.s2, p, Sizes(w.c), Cols(w)), steps', tr.obs2)
    ensures Continues(w, ts + [tr], |steps0|) <==> !Done(IsStateAbsorbing(w.kind, tr.obs2), |steps'|, w.maxSteps)
  {
    RLoopGrow(w, obs0, steps0, t0, ts, tr, p, epsilon, draws, tables, steps,
              RStep(tables, tr.s, tr.a, tr.r, tr.s2, p, Sizes(w.c), Cols(w)), steps');
  }

  // ---------------------------------------------------------------------------------
  // The class

  /** CMACR on a CMAC-approximated continuous environment (CMACQ's constructor with no
      discount, plus beta). */
  class CmacR {
    const env: Environment
    const cmac: CmacApproximator
    const lambd: real
    const epsilon: real
    const alpha: real
    const beta: real
    /** One action-value table per layer. */
    const q: seq<array2<real>>
    var stepsPerEpisode: seq<nat>

    ghost predicate Valid()
      reads this, env
    {
      && Holds(env, cmac)
      && TablesFit(q, Sizes(cmac), Cols(W())) && |q| > 0 && Distinct(q)
    }

    function W(): Setup {
      Setup(env.kind, env.dynamics, env.maxSteps, cmac)
    }

    /** The step's parameters; CMACR has no discount. */
    function P(): Params {
      Params(alpha, beta, 0.0, lambd)
    }

    /** `CMACR(environment, lambd, epsilon, alpha, beta)`: one zero table per layer. */
    constructor (environment: Environment, lambd: real, epsilon: real, alpha: real, beta: real)
      requires environment.Valid()
      requires Compatibility.SetEnvironment(Compatibility.CmacFamily, Compatibility.ContinuousView(environment.approximator)).Ok?
      ensures Valid() && env == environment && cmac == environment.approximator.value.cmac
      ensures this.lambd == lambd && this.epsilon == epsilon && this.alpha == alpha && this.beta == beta
      ensures forall l :: 0 <= l < |q| ==> fresh(q[l])
      ensures Values(q) == ZeroLayers(Sizes(cmac), Cols(W()))
      ensures stepsPerEpisode == []
    {
      env := environment;
      var c := environment.approximator.value.cmac;
      cmac := c;
      this.lambd := lambd;
      this.epsilon := epsilon;
      this.alpha := alpha;
      this.beta := beta;
      var tables := NewTables(Sizes(c), |ContinuousActions(environment.kind)|, 0.0);
      q := tables;
      stepsPerEpisode := [];
    }

    /** `get_greedy_actions(s)`, inherited from CMACQ. */
    function GreedyActions(s: seq<int>): (g: seq<nat>)
      reads this, q
      requires cmac.Valid() && TablesFit(q, Sizes(cmac), Cols(W())) && InLayers(s, Sizes(cmac))
      ensures g == GreedyOf(Values(q), s, Cols(W()))
    {
      GreedyOf(Values(q), s, |ContinuousActions(env.kind)|)
    }

    /** `get_action()`: the epsilon-greedy choice at the codes s. */
    method ChooseAction(s: seq<int>, d: Draw) returns (a: nat)
      requires Valid() && InLayers(s, Sizes(cmac))
      ensures a == Choose(SummedRow(Values(q), s, Cols(W())), true, epsilon, d)
    {
      a := GetAction(true, epsilon, |env.Actions()|, GreedyActions(s), d);
      ChooseIsGetAction(Values(q), s, Cols(W()), epsilon, d);
    }

    /** The learning step of `run_learning_episode` after action a took the agent from
        the codes s to s2 with reward r, rho being the estimates: the tables learn, then
        the estimates move on the learnt tables. */
    method Update(e: seq<array2<real>>, rho: seq<real>, s: seq<int>, a: nat, r: real, s2: seq<int>)
      returns (rho': seq<real>)
      requires Valid() && TracesFit(q, e) && |rho| == |q|
      requires InLayers(s, Sizes(cmac)) && InLayers(s2, Sizes(cmac)) && a < Cols(W())
      modifies q, e
      ensures Valid() && TracesFit(q, e) && unchanged(env)
      ensures RLayers(Layers(q, e), rho') == RStep(RLayers(old(Layers(q, e)), rho), s, a, r, s2, P(), Sizes(cmac), Cols(W()))
    {
      var delta := RDeltas(RLayers(Layers(q, e), rho), s, a, r, s2);
      var rate := alpha / |q| as real;
      assert rate == LayerRate(alpha, |q|);
      LayersTdUpdateInPlace(q, e, s, a, rate, delta, lambd, lambd > 0.0);
      rho' := RhoOn(e, rho, s, a, r, s2);
    }

    /** The estimates' half of the learning step: `if a in self.get_greedy_actions(s)`
        on the tables as the step left them, every estimate moves towards the reward. */
    method UpdateRho(ghost e: seq<array2<real>>, rho: seq<real>, s: seq<int>, a: nat, r: real, s2: seq<int>)
      returns (rho': seq<real>)
      requires Valid() && TracesFit(q, e) && |rho| == |q|
      requires InLayers(s, Sizes(cmac)) && InLayers(s2, Sizes(cmac)) && a < Cols(W())
      ensures rho' == RhoStep(Layers(q, e), rho, s, a, r, s2, beta, Sizes(cmac), Cols(W()))
    {
      var tables := Values(q);
      assert Qs(Layers(q, e)) == tables;
      GreedyOfIsArgMax(tables, s, Cols(W()));
      if a in GreedyActions(s) {
        rho' := MoveRho(tables, rho, s, r, s2, beta, Sizes(cmac), Cols(W()));
      } else {
        rho' := rho;
      }
    }

    /** `UpdateRho`, which leaves the tables and the environment as they are. */
    method RhoOn(ghost e: seq<array2<real>>, rho: seq<real>, s: seq<int>, a: nat, r: real, s2: seq<int>)
      returns (rho': seq<real>)
      requires Valid() && TracesFit(q, e) && |rho| == |q|
      requires InLayers(s, Sizes(cmac)) && InLayers(s2, Sizes(cmac)) && a < Cols(W())
      ensures rho' == RhoStep(Layers(q, e), rho, s, a, r, s2, beta, Sizes(cmac), Cols(W()))
      ensures Valid() && TracesFit(q, e) && unchanged(env) && Layers(q, e) == old(Layers(q, e))
    {
      rho' := UpdateRho(e, rho, s, a, r, s2);
    }

    /** The state of `run_learning_episode` after the steps ts of an episode that
        started at the observation obs0 with the record steps0 and the layers and
        estimates t0, rho being the estimates now. */
    ghost predicate InEpisode(e: seq<array2<real>>, rho: seq<real>, t0: RLayers, ts: seq<Transition>,
                              obs0: seq<real>, steps0: seq<EnvState>, draws: nat -> Draw)
      reads this, env, q, e
    {
      && Valid() && TracesFit(q, e) && Shaped(t0.ls, Sizes(cmac), Cols(W())) && |t0.rho| == |t0.ls|
      && RLoop(W(), obs0, steps0, t0, ts, P(), epsilon, draws, RLayers(Layers(q, e), rho), env.steps, env.observation)
    }

    /** Choose an action epsilon-greedily at the current codes and act. */
    method Act(ghost e: seq<array2<real>>, d: Draw) returns (s: seq<int>, a: nat, r: real, s2: seq<int>)
      requires Valid() && |e| == |q|
      modifies env`observation, env`state, env`steps
      ensures Valid() && Layers(q, e) == old(Layers(q, e))
      ensures Moves(W(), Transition(old(env.observation), s, a, r, env.observation, s2))
      ensures InTable(Transition(old(env.observation), s, a, r, env.observation, s2), Sizes(cmac), Cols(W()))
      ensures env.steps == old(env.steps) + [Codes(s2)]
      ensures a == Choose(SummedRow(old(Values(q)), s, Cols(W())), true, epsilon, d)
    {
      StateCodes(env, cmac);
      s := env.state.codes;
      a := ChooseAction(s, d);
      r, s2 := ActOn(env, cmac, a, q, e);
      MovesInTable(W(), Transition(old(env.observation), s, a, r, env.observation, s2));
    }

    /** Halfway through a pass of the loop of `run_learning_episode`: the step tr has
        been taken with the action chosen on the tables, which are not yet updated. */
    ghost predicate Acted(e: seq<array2<real>>, rho: seq<real>, t0: RLayers, ts: seq<Transition>, tr: Transition,
                          obs0: seq<real>, steps0: seq<EnvState>, draws: nat -> Draw, steps: seq<EnvState>)
      reads this, env, q, e
    {
      && Valid() && TracesFit(q, e) && Shaped(t0.ls, Sizes(cmac), Cols(W())) && |t0.rho| == |t0.ls|
      && RActed(W(), obs0, steps0, t0, ts, tr, P(), epsilon, draws, RLayers(Layers(q, e), rho), steps, env.steps,
                env.observation)
    }

    /** The acting half of a pass of the loop of `run_learning_episode`. */
    method ActStep(e: seq<array2<real>>, ghost rho: seq<real>, ghost t0: RLayers, ghost ts: seq<Transition>,
                   ghost obs0: seq<real>, ghost steps0: seq<EnvState>, draws: nat -> Draw, n: nat)
      returns (s: seq<int>, a: nat, r: real, s2: seq<int>, ghost tr: Transition, ghost steps: seq<EnvState>)
      requires InEpisode(e, rho, t0, ts, obs0, steps0, draws) && n == |ts| && Continues(W(), ts, |steps0|)
      modifies env`observation, env`state, env`steps
      ensures Acted(e, rho, t0, ts, tr, obs0, steps0, draws, steps)
      ensures tr.s == s && tr.a == a && tr.r == r && tr.s2 == s2
    {
      ghost var tables, obs, vals := Layers(q, e), env.observation, Values(q);
      steps := env.steps;
      assert Qs(tables) == vals;
      s, a, r, s2 := Act(e, draws(n));
      tr := Transition(obs, s, a, r, env.observation, s2);
      assert Layers(q, e) == tables;
    }

    /** The learning half of a pass of the loop of `run_learning_episode`: the episode
        grows by the step taken. */
    method LearnStep(e: seq<array2<real>>, rho: seq<real>, ghost t0: RLayers, ghost ts: seq<Transition>,
                     ghost tr: Transition, ghost obs0: seq<real>, ghost steps0: seq<EnvState>, draws: nat -> Draw,
                     ghost steps: seq<EnvState>, s: seq<int>, a: nat, r: real, s2: seq<int>)
      returns (rho': seq<real>)
      requires Acted(e, rho, t0, ts, tr, obs0, steps0, draws, steps)
      requires tr.s == s && tr.a == a && tr.r == r && tr.s2 == s2
      modifies q, e
      ensures InEpisode(e, rho', t0, ts + [tr], obs0, steps0, draws)
      ensures |env.steps| == |steps0| + |ts| + 1
      ensures env.IsDone() <==> !Continues(W(), ts + [tr], |steps0|)
    {
      MovesInTable(W(), tr);
      RLoopExtend(W(), obs0, steps0, t0, ts, tr, P(), epsilon, draws, RLayers(Layers(q, e), rho), steps, env.steps);
      rho' := Update(e, rho, s, a, r, s2);
    }

    /** One pass of the loop of `run_learning_episode`. */
    method EpisodeStep(e: seq<array2<real>>, rho: seq<real>, ghost t0: RLayers, ghost ts: seq<Transition>,
                       ghost obs0: seq<real>, ghost steps0: seq<EnvState>, draws: nat -> Draw, n: nat)
      returns (rho': seq<real>, ghost tr: Transition)
      requires InEpisode(e, rho, t0, ts, obs0, steps0, draws) && n == |ts| && Continues(W(), ts, |steps0|)
      modifies env, q, e
      ensures InEpisode(e, rho', t0, ts + [tr], obs0, steps0, draws)
      ensures |env.steps| == |steps0| + |ts| + 1
      ensures env.IsDone() <==> !Continues(W(), ts + [tr], |steps0|)
    {
      var s, a, r, s2;
      ghost var steps;
      s, a, r, s2, tr, steps := ActStep(e, rho, t0, ts, obs0, steps0, draws, n);
      rho' := LearnStep(e, rho, t0, ts, tr, obs0, steps0, draws, steps, s, a, r, s2);
    }

    /** The start of `run_learning_episode`: zero traces and zero estimates. */
    method StartEpisode(draws: nat -> Draw) returns (e: seq<array2<real>>, rho: seq<real>)
      requires Valid()
      ensures TracesFit(q, e) && forall l :: 0 <= l < |e| ==> fresh(e[l])
      ensures Layers(q, e) == WithZeroTraces(Values(q)) && rho == ZeroRho(|q|)
      ensures InEpisode(e, rho, RLayers(Layers(q, e), rho), [], env.observation, env.steps, draws)
    {
      e := NewTraces(q);
      rho := ZeroRho(|q|);
      RLoopStart(W(), env.observation, env.steps, RLayers(Layers(q, e), rho), P(), epsilon, draws);
    }

    /** The loop of `run_learning_episode`, up to the step after which the environment
        is done; the estimates are carried from each step to the next. */
    method RunSteps(e: seq<array2<real>>, rho0: seq<real>, ghost t0: RLayers, ghost obs0: seq<real>,
                    ghost steps0: seq<EnvState>, draws: nat -> Draw) returns (rho: seq<real>, ghost ts: seq<Transition>)
      requires InEpisode(e, rho0, t0, [], obs0, steps0, draws)
      modifies env, q, e
      ensures |ts| > 0 && InEpisode(e, rho, t0, ts, obs0, steps0, draws) && env.IsDone()
    {
      ts := [];
      var n: nat := 0;
      rho := rho0;
      while true
        invariant n == |ts| && InEpisode(e, rho, t0, ts, obs0, steps0, draws) && Continues(W(), ts, |steps0|)
        invariant |env.steps| == |steps0| + n
        decreases env.maxSteps - |env.steps|
      {
        ghost var tr;
        rho, tr := EpisodeStep(e, rho, t0, ts, obs0, steps0, draws, n);
        ts := ts + [tr];
        n := n + 1;
        if env.IsDone() {
          return;
        }
      }
    }

    /** `run_learning_episode`: from fresh traces and zero estimates, choose an action
        epsilon-greedily, act, learn from the step, until the environment is done.  The
        returned steps are the episode's walk; the tables are the CMACR run over them. */
    method RunLearningEpisode(draws: nat -> Draw) returns (ghost ts: seq<Transition>)
      requires Valid()
      modifies env, q
      ensures Valid() && env.IsDone()
      ensures |ts| > 0 && env.steps == old(env.steps) + NextStates(ts) && env.observation == ts[|ts| - 1].obs2
      ensures RRun(W(), old(env.observation), |old(env.steps)|, RLayers(WithZeroTraces(old(Values(q))), ZeroRho(|q|)),
                   ts, P(), epsilon, draws)
      ensures Values(q) == Qs(REpisode(RLayers(WithZeroTraces(old(Values(q))), ZeroRho(|q|)), ts, P(), Sizes(cmac),
                                       Cols(W())).ls)
    {
      var e, rho := StartEpisode(draws);
      var last;
      last, ts := RunSteps(e, rho, RLayers(Layers(q, e), rho), env.observation, env.steps, draws);
    }

    /** The body of the loop of `learn`: clear the environment, run an episode and
        give the number of steps it took. */
    method ClearAndRun(draws: nat -> Draw) returns (length: nat)
      requires Valid()
      modifies env, q
      ensures Valid()
      ensures length == |env.steps| && 1 <= length && (length == 1 || length <= env.maxSteps)
    {
      env.Clear();
      ghost var ts := RunLearningEpisode(draws);
      length := |env.steps|;
      assert RunsOn(W(), ts, 0);
      if |ts| > 1 {
        assert !Done(IsStateAbsorbing(env.kind, ts[|ts| - 2].obs2), |ts| - 1, env.maxSteps);
      }
    }

    /** `learn`, inherited from `Algorithm`. */
    method Learn(nEpisodes: int, stop: bool, lte: ExtReal, gte: ExtReal, w: int, draws: nat -> nat -> Draw)
      requires Valid()
      modifies this, env, q
      ensures Valid()
      ensures LearnOutcome(old(stepsPerEpisode), stepsPerEpisode, nEpisodes, stop, lte, gte, w)
      ensures Classic.EpisodeLengths(stepsPerEpisode[|old(stepsPerEpisode)|..], env.maxSteps)
      ensures |stepsPerEpisode| > |old(stepsPerEpisode)| ==> stepsPerEpisode[|stepsPerEpisode| - 1] == |env.steps|
    {
      ghost var before := stepsPerEpisode;
      ghost var record := stepsPerEpisode;
      var i: nat := 0;
      while i < nEpisodes
        invariant Valid() && i <= if nEpisodes > 0 then nEpisodes else 0
        invariant stepsPerEpisode == record
        invariant LearnProgress(before, record, i, stop, lte, gte, w)
        invariant Classic.EpisodeLengths(record[|before|..], env.maxSteps)
        invariant |record| > |before| ==> record[|record| - 1] == |env.steps|
      {
        var length := ClearAndRun(draws(i));
        Classic.EpisodeLengthsSnoc(|before|, record, length, env.maxSteps);
        record := record + [length];
        stepsPerEpisode := stepsPerEpisode + [length];
        if stop && IsLearned(stepsPerEpisode, lte, gte, w) {
          LearnStopped(before, record, i, nEpisodes, stop, lte, gte, w);
          return;
        }
        LearnProgressStep(before, record, i, stop, lte, gte, w);
        i := i + 1;
      }
      LearnProgressOutcome(before, record, i, nEpisodes, stop, lte, gte, w);
    }
  }
}
