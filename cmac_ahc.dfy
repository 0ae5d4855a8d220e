/** CMACAHC of algorithm/cmac.py: the adaptive heuristic critic over CMAC layers.
    Every layer keeps a vector of state values V (the critic) and a table of action
    preferences mi (the actor); the greedy actions are the arg-max of the preference
    rows the codes select, summed over the layers, and every layer learns from its own
    temporal-difference error on V. */
module CmacAhc {
  import opened ExtReals
  import opened Matrices
  import opened Learning
  import opened Approximators
  import opened Environments
  import opened Cmac
  import Classic
  import Compatibility

  // ---------------------------------------------------------------------------------
  // Steps

  /** One layer of CMACAHC: its values V, its preferences mi and the traces of mi. */
  datatype AhcLayer = AhcLayer(v: seq<real>, mi: seq<seq<real>>, e: seq<seq<real>>)

  /** Layer l has `sizes[l]` values and `sizes[l]` rows of `cols` preferences and traces. */
  predicate AhcShaped(ls: seq<AhcLayer>, sizes: seq<nat>, cols: nat) {
    |ls| == |sizes| && forall l :: 0 <= l < |ls| ==> |ls[l].v| == sizes[l] && IsMatrix(ls[l].mi, sizes[l], cols) && IsMatrix(ls[l].e, sizes[l], cols)
  }

  /** The preference tables of the layers. */
  function Mis(ls: seq<AhcLayer>): (tables: seq<seq<seq<real>>>)
    ensures |tables| == |ls| && forall l :: 0 <= l < |ls| ==> tables[l] == ls[l].mi
  {
    seq(|ls|, l requires 0 <= l < |ls| => ls[l].mi)
  }

  /** `delta[l] = r + gamma * V[l][s_[l]] - V[l][s[l]]`. */
  function AhcDeltas(ls: seq<AhcLayer>, s: seq<int>, r: real, s2: seq<int>, gamma: real): (delta: seq<real>)
    requires |s| == |ls| && |s2| == |ls|
    requires forall l :: 0 <= l < |ls| ==> 0 <= s[l] < |ls[l].v| && 0 <= s2[l] < |ls[l].v|
    ensures |delta| == |ls|
  {
    seq(|ls|, l requires 0 <= l < |ls| => r + gamma * ls[l].v[s2[l]] - ls[l].v[s[l]])
  }

  /** One layer of a CMACAHC step at (s, a): `V[s] += critic`; with traces
      `e[s, a] += 1`, the whole of mi moves by `actor * e` and row s of the traces is
      multiplied by `decay`; without, only `mi[s, a]` moves, by `actor`. */
  function AhcLayerUpdate(t: AhcLayer, s: nat, a: nat, critic: real, actor: real, decay: real, traced: bool)
    : (u: AhcLayer)
    requires s < |t.v| && s < |t.mi| && a < |t.mi[s]| && SameShape(t.mi, t.e)
    ensures |u.v| == |t.v| && SameShape(u.mi, t.mi) && SameShape(u.e, t.e)
  {
    var v := t.v[s := t.v[s] + critic];
    if traced then
      var e1 := Bump(t.e, s, a, 1.0);
      AhcLayer(v, AddScaled(t.mi, actor, e1), e1[s := ScaledV(e1[s], decay)])
    else AhcLayer(v, Bump(t.mi, s, a, actor), t.e)
  }

  /** How value i and entry (i, j) of a layer move in a step at (s, a): only V[s]
      moves, by `critic`; untraced, only mi[s, a] moves, by `actor`, and the traces
      stay; traced, every preference moves by `actor` times its bumped trace, and only
      row s of the bumped traces is multiplied by `decay`. */
  predicate AhcEntryMoves(t: AhcLayer, u: AhcLayer, s: nat, a: nat, critic: real, actor: real, decay: real,
                          traced: bool, i: nat, j: nat) {
    && i < |t.v| && i < |u.v| && i < |t.mi| && i < |t.e| && i < |u.mi| && i < |u.e|
    && j < |t.mi[i]| && j < |t.e[i]| && j < |u.mi[i]| && j < |u.e[i]|
    && u.v[i] == (if i == s then t.v[i] + critic else t.v[i])
    && (!traced ==> u.e == t.e)
    && (!traced ==> u.mi[i][j] == if (i, j) == (s, a) then t.mi[i][j] + actor else t.mi[i][j])
    && (traced ==> u.mi[i][j] == t.mi[i][j] + actor * (t.e[i][j] + Classic.Unit(i, j, s, a)))
    && (traced ==> u.e[i][j] == if i == s then decay * (t.e[i][j] + Classic.Unit(i, j, s, a)) else t.e[i][j])
  }

  lemma AhcLayerUpdateEntry(t: AhcLayer, s: nat, a: nat, critic: real, actor: real, decay: real, traced: bool,
                            i: nat, j: nat)
    requires s < |t.v| && s < |t.mi| && a < |t.mi[s]| && SameShape(t.mi, t.e)
    requires i < |t.v| && i < |t.mi| && j < |t.mi[i]|
    ensures AhcEntryMoves(t, AhcLayerUpdate(t, s, a, critic, actor, decay, traced), s, a, critic, actor, decay, traced, i, j)
  {
  }

  /** Every layer moves its value at its own state by `rate * delta[l]` and its
      preferences by `beta * delta[l]`. */
  function AhcLayersUpdate(ls: seq<AhcLayer>, s: seq<int>, a: nat, rate: real, beta: real, delta: seq<real>,
                           decay: real, traced: bool): (us: seq<AhcLayer>)
    requires |s| == |ls| && |delta| == |ls|
    requires forall l :: 0 <= l < |ls| ==>
               0 <= s[l] < |ls[l].v| && s[l] < |ls[l].mi| && a < |ls[l].mi[s[l]]| && SameShape(ls[l].mi, ls[l].e)
    ensures |us| == |ls|
    ensures forall l :: 0 <= l < |ls| ==> |us[l].v| == |ls[l].v| && SameShape(us[l].mi, ls[l].mi) && SameShape(us[l].e, ls[l].e)
  {
    seq(|ls|, l requires 0 <= l < |ls| =>
      AhcLayerUpdate(ls[l], s[l], a, LayerStep(rate, delta[l]), LayerStep(beta, delta[l]), decay, traced))
  }

  /** One CMACAHC step from s by a to s2 with reward r: in every layer V moves by
      `alpha / n * delta[l]` and mi by `beta * delta[l]`. */
  function AhcStep(ls: seq<AhcLayer>, s: seq<int>, a: nat, r: real, s2: seq<int>, p: Params, sizes: seq<nat>, cols: nat)
    : (us: seq<AhcLayer>)
    requires AhcShaped(ls, sizes, cols) && |ls| > 0 && InLayers(s, sizes) && InLayers(s2, sizes) && a < cols
    ensures AhcShaped(us, sizes, cols)
  {
    AhcLayersUpdate(ls, s, a, LayerRate(p.alpha, |ls|), p.beta, AhcDeltas(ls, s, r, s2, p.gamma), Decay(p), p.lambd > 0.0)
  }

  /** Layer l of a CMACAHC step, with its error `r + gamma * V[l][s2[l]] - V[l][s[l]]`
      read from layer l alone: the critic's step is divided by the number of layers, the
      actor's is not. */
  lemma AhcStepEntry(ls: seq<AhcLayer>, s: seq<int>, a: nat, r: real, s2: seq<int>, p: Params, sizes: seq<nat>,
                     cols: nat, l: nat, i: nat, j: nat)
    requires AhcShaped(ls, sizes, cols) && |ls| > 0 && InLayers(s, sizes) && InLayers(s2, sizes) && a < cols
    requires l < |ls| && i < sizes[l] && j < cols
    ensures AhcEntryMoves(ls[l], AhcStep(ls, s, a, r, s2, p, sizes, cols)[l], s[l], a,
                          LayerStep(LayerRate(p.alpha, |ls|), r + p.gamma * ls[l].v[s2[l]] - ls[l].v[s[l]]),
                          LayerStep(p.beta, r + p.gamma * ls[l].v[s2[l]] - ls[l].v[s[l]]),
                          Decay(p), p.lambd > 0.0, i, j)
  {
    var deltas := AhcDeltas(ls, s, r, s2, p.gamma);
    var delta := r + p.gamma * ls[l].v[s2[l]] - ls[l].v[s[l]];
    assert deltas[l] == delta;
    var critic, actor := LayerStep(LayerRate(p.alpha, |ls|), delta), LayerStep(p.beta, delta);
    assert AhcStep(ls, s, a, r, s2, p, sizes, cols)[l] == AhcLayerUpdate(ls[l], s[l], a, critic, actor, Decay(p), p.lambd > 0.0);
    AhcLayerUpdateEntry(ls[l], s[l], a, critic, actor, Decay(p), p.lambd > 0.0, i, j);
  }

  /** Layer l of a CMACAHC step depends on layer l alone. */
  lemma AhcStepLayerLocal(ls: seq<AhcLayer>, ls': seq<AhcLayer>, s: seq<int>, a: nat, r: real, s2: seq<int>,
                          p: Params, sizes: seq<nat>, cols: nat, l: nat)
    requires AhcShaped(ls, sizes, cols) && |ls| > 0 && InLayers(s, sizes) && InLayers(s2, sizes) && a < cols
    requires AhcShaped(ls', sizes, cols) && l < |ls| && ls[l] == ls'[l]
    ensures AhcStep(ls, s, a, r, s2, p, sizes, cols)[l] == AhcStep(ls', s, a, r, s2, p, sizes, cols)[l]
  {
    assert AhcDeltas(ls, s, r, s2, p.gamma)[l] == AhcDeltas(ls', s, r, s2, p.gamma)[l];
  }

  // ---------------------------------------------------------------------------------
  // Values, preferences and traces in arrays

  /** Layer l has a vector of `sizes[l]` values, every vector distinct. */
  predicate VectorsFit(V: seq<array<real>>, sizes: seq<nat>) {
    |V| == |sizes| && Distinct(V) && forall l :: 0 <= l < |V| ==> V[l].Length == sizes[l]
  }

  /** The values the per-layer vectors hold. */
  function Vs(V: seq<array<real>>): (vs: seq<seq<real>>)
    reads V
    ensures |vs| == |V| && forall l :: 0 <= l < |V| ==> vs[l] == V[l][..]
  {
    seq(|V|, l requires 0 <= l < |V| reads V => V[l][..])
  }

  /** The values, preferences and traces the per-layer arrays hold. */
  function AhcLayers(V: seq<array<real>>, mi: seq<array2<real>>, e: seq<array2<real>>): (ls: seq<AhcLayer>)
    reads V, mi, e
    requires |V| == |mi| && |e| == |mi|
    ensures |ls| == |mi| && forall l :: 0 <= l < |mi| ==> ls[l] == AhcLayer(V[l][..], Rows(mi[l]), Rows(e[l]))
    ensures Mis(ls) == Values(mi) && ValuesOf(ls) == Vs(V)
  {
    seq(|mi|, l requires 0 <= l < |mi| reads V, mi, e => AhcLayer(V[l][..], Rows(mi[l]), Rows(e[l])))
  }

  /** Per-layer vectors of the given lengths, all equal to one value. */
  function ConstantVectors(sizes: seq<nat>, v: real): (vs: seq<seq<real>>)
    ensures |vs| == |sizes|
    ensures forall l :: 0 <= l < |sizes| ==> |vs[l]| == sizes[l] && forall i :: 0 <= i < sizes[l] ==> vs[l][i] == v
  {
    seq(|sizes|, l requires 0 <= l < |sizes| => seq(sizes[l], _ => v))
  }

  /** Per-layer fresh vectors of the given lengths holding v everywhere, as
      `np.full(size, v)` for every size. */
  method NewVectors(sizes: seq<nat>, v: real) returns (V: seq<array<real>>)
    ensures VectorsFit(V, sizes) && forall l :: 0 <= l < |V| ==> fresh(V[l])
    ensures Vs(V) == ConstantVectors(sizes, v)
  {
    V := [];
    for l := 0 to |sizes|
      invariant |V| == l && Distinct(V)
      invariant forall k :: 0 <= k < l ==> fresh(V[k]) && V[k].Length == sizes[k]
      invariant forall k :: 0 <= k < l ==> V[k][..] == seq(sizes[k], _ => v)
    {
      var t := new real[sizes[l]](_ => v);
      assert t[..] == seq(sizes[l], _ => v);
      V := V + [t];
    }
  }

  /** The step `AhcLayerUpdate` describes, done on one layer's arrays. */
  method AhcLayerUpdateInPlace(V: array<real>, M: array2<real>, E: array2<real>, s: nat, a: nat, critic: real,
                               actor: real, decay: real, traced: bool)
    requires M != E && M.Length0 == E.Length0 && M.Length1 == E.Length1
    requires s < V.Length && s < M.Length0 && a < M.Length1
    modifies V, M, E
    ensures AhcLayer(V[..], Rows(M), Rows(E))
         == AhcLayerUpdate(AhcLayer(old(V[..]), old(Rows(M)), old(Rows(E))), s, a, critic, actor, decay, traced)
  {
    V[s] := V[s] + critic;
    if traced {
      BumpInPlace(E, s, a, 1.0);
      AddScaledInPlace(M, actor, E);
      ScaleRowInPlace(E, s, decay);
    } else {
      BumpInPlace(M, s, a, actor);
    }
  }

  /** Layer l makes its step on its own arrays; the other layers stay. */
  method AhcLayerUpdateAt(V: seq<array<real>>, mi: seq<array2<real>>, e: seq<array2<real>>, l: nat, s: nat, a: nat,
                          critic: real, actor: real, decay: real, traced: bool)
    requires |V| == |mi| && Distinct(V) && TracesFit(mi, e) && l < |mi|
    requires s < V[l].Length && s < mi[l].Length0 && a < mi[l].Length1
    modifies V[l], mi[l], e[l]
    ensures AhcLayers(V, mi, e)
         == old(AhcLayers(V, mi, e))[l := AhcLayerUpdate(old(AhcLayers(V, mi, e))[l], s, a, critic, actor, decay, traced)]
  {
    ghost var heap := AhcLayers(V, mi, e);
    AhcLayerUpdateInPlace(V[l], mi[l], e[l], s, a, critic, actor, decay, traced);
    assert forall k :: 0 <= k < |mi| && k != l ==> V[k][..] == heap[k].v;
    assert forall k :: 0 <= k < |mi| && k != l ==> Rows(mi[k]) == heap[k].mi;
    assert forall k :: 0 <= k < |mi| && k != l ==> Rows(e[k]) == heap[k].e;
  }

  /** Taking one more layer from `after` replaces layer l. */
  lemma SpliceNext(after: seq<AhcLayer>, before: seq<AhcLayer>, l: nat)
    requires |after| == |before| && l < |before|
    ensures after[..l + 1] + before[l + 1..] == (after[..l] + before[l..])[l := after[l]]
  {
  }

  /** `for l in range(n_layers)`: every layer makes its own step, with its own error,
      on its own arrays. */
  method AhcLayersUpdateInPlace(V: seq<array<real>>, mi: seq<array2<real>>, e: seq<array2<real>>, s: seq<int>, a: nat,
                                rate: real, beta: real, delta: seq<real>, decay: real, traced: bool)
    requires |V| == |mi| && Distinct(V) && TracesFit(mi, e) && |s| == |mi| && |delta| == |mi|
    requires forall l :: 0 <= l < |mi| ==> 0 <= s[l] < V[l].Length && s[l] < mi[l].Length0 && a < mi[l].Length1
    modifies V, mi, e
    ensures AhcLayers(V, mi, e) == AhcLayersUpdate(old(AhcLayers(V, mi, e)), s, a, rate, beta, delta, decay, traced)
  {
    ghost var before := AhcLayers(V, mi, e);
    ghost var after := AhcLayersUpdate(before, s, a, rate, beta, delta, decay, traced);
    for l := 0 to |mi|
      invariant AhcLayers(V, mi, e) == after[..l] + before[l..]
    {
      AhcLayerUpdateAt(V, mi, e, l, s[l], a, LayerStep(rate, delta[l]), LayerStep(beta, delta[l]), decay, traced);
      SpliceNext(after, before, l);
    }
    assert after[..|mi|] + before[|mi|..] == after;
  }

  // ---------------------------------------------------------------------------------
  // Episodes

  /** The layers after the CMACAHC steps ts from t. */
  function AhcEpisode(t: seq<AhcLayer>, ts: seq<Transition>, p: Params, sizes: seq<nat>, cols: nat): (u: seq<AhcLayer>)
    requires AhcShaped(t, sizes, cols) && |t| > 0
    requires forall k :: 0 <= k < |ts| ==> InTable(ts[k], sizes, cols)
    ensures AhcShaped(u, sizes, cols)
    decreases |ts|
  {
    if |ts| == 0 then t
    else
      var before, tr := AhcEpisode(t, ts[..|ts| - 1], p, sizes, cols), ts[|ts| - 1];
      assert InTable(tr, sizes, cols);
      AhcStep(before, tr.s, tr.a, tr.r, tr.s2, p, sizes, cols)
  }

  lemma AhcEpisodeSnoc(t: seq<AhcLayer>, ts: seq<Transition>, tr: Transition, p: Params, sizes: seq<nat>, cols: nat)
    requires AhcShaped(t, sizes, cols) && |t| > 0
    requires forall k :: 0 <= k < |ts| ==> InTable(ts[k], sizes, cols)
    requires InTable(tr, sizes, cols)
    ensures forall k :: 0 <= k < |ts + [tr]| ==> InTable((ts + [tr])[k], sizes, cols)
    ensures AhcEpisode(t, ts + [tr], p, sizes, cols) == AhcStep(AhcEpisode(t, ts, p, sizes, cols), tr.s, tr.a, tr.r, tr.s2, p, sizes, cols)
  {
    InTableSnoc(ts, tr, sizes, cols);
    assert (ts + [tr])[..|ts|] == ts;
  }

  /** Each action of a CMACAHC run is the epsilon-greedy choice on the summed
      preference rows of the layers as the earlier steps left them. */
  predicate AhcChoices(t0: seq<AhcLayer>, ts: seq<Transition>, p: Params, epsilon: real, draws: nat -> Draw,
                       sizes: seq<nat>, cols: nat)
    requires AhcShaped(t0, sizes, cols) && |t0| > 0 && cols > 0
    requires forall k :: 0 <= k < |ts| ==> InTable(ts[k], sizes, cols)
    decreases |ts|
  {
    |ts| == 0 ||
    var prev, tr := ts[..|ts| - 1], ts[|ts| - 1];
    assert InTable(tr, sizes, cols);
    && AhcChoices(t0, prev, p, epsilon, draws, sizes, cols)
    && ChosenOn(Mis(AhcEpisode(t0, prev, p, sizes, cols)), tr, epsilon, draws(|prev|), sizes, cols)
  }

  lemma AhcChoicesExtend(t0: seq<AhcLayer>, ts: seq<Transition>, tr: Transition, p: Params, epsilon: real,
                         draws: nat -> Draw, sizes: seq<nat>, cols: nat)
    requires AhcShaped(t0, sizes, cols) && |t0| > 0 && cols > 0
    requires forall k :: 0 <= k < |ts| ==> InTable(ts[k], sizes, cols)
    requires InTable(tr, sizes, cols) && AhcChoices(t0, ts, p, epsilon, draws, sizes, cols)
    requires ChosenOn(Mis(AhcEpisode(t0, ts, p, sizes, cols)), tr, epsilon, draws(|ts|), sizes, cols)
    ensures forall k :: 0 <= k < |ts + [tr]| ==> InTable((ts + [tr])[k], sizes, cols)
    ensures AhcChoices(t0, ts + [tr], p, epsilon, draws, sizes, cols)
  {
    InTableSnoc(ts, tr, sizes, cols);
    assert (ts + [tr])[..|ts|] == ts;
  }

  /** What a CMACAHC episode promises of its steps: a walk from obs0 on which every
      step but the last left the episode running, each action chosen on the
      preferences the earlier steps left. */
  predicate AhcRun(w: Setup, obs0: seq<real>, before: nat, t0: seq<AhcLayer>, ts: seq<Transition>, p: Params,
                   epsilon: real, draws: nat -> Draw)
    requires w.Ok() && AhcShaped(t0, Sizes(w.c), Cols(w))
  {
    && (forall k :: 0 <= k < |ts| ==> InTable(ts[k], Sizes(w.c), Cols(w)))
    && Walk(w, obs0, ts)
    && RunsOn(w, ts, before)
    && AhcChoices(t0, ts, p, epsilon, draws, Sizes(w.c), Cols(w))
  }

  /** The state of a CMACAHC episode after the steps ts: the run so far, the layers it
      made, the states recorded after `steps0` and the observation reached. */
  predicate AhcLoop(w: Setup, obs0: seq<real>, steps0: seq<EnvState>, t0: seq<AhcLayer>, ts: seq<Transition>,
                    p: Params, epsilon: real, draws: nat -> Draw, tables: seq<AhcLayer>, steps: seq<EnvState>,
                    obs: seq<real>)
    requires w.Ok() && AhcShaped(t0, Sizes(w.c), Cols(w))
  {
    && AhcRun(w, obs0, |steps0|, t0, ts, p, epsilon, draws)
    && tables == AhcEpisode(t0, ts, p, Sizes(w.c), Cols(w))
    && steps == steps0 + NextStates(ts)
    && obs == Here(obs0, ts)
  }

  /** Halfway through a pass of the loop of a CMACAHC episode: the step tr has been
      taken from where the episode ts (whose record was steps) stood, with the action
      chosen on its preferences; the episode's layers have not yet learnt from it. */
  predicate AhcActed(w: Setup, obs0: seq<real>, steps0: seq<EnvState>, t0: seq<AhcLayer>, ts: seq<Transition>,
                     tr: Transition, p: Params, epsilon: real, draws: nat -> Draw, tables: seq<AhcLayer>,
                     steps: seq<EnvState>, steps': seq<EnvState>, obs': seq<real>)
    requires w.Ok() && AhcShaped(t0, Sizes(w.c), Cols(w))
  {
    && AhcLoop(w, obs0, steps0, t0, ts, p, epsilon, draws, tables, steps, tr.obs)
    && Continues(w, ts, |steps0|) && Moves(w, tr) && InTable(tr, Sizes(w.c), Cols(w))
    && tr.a == Choose(SummedRow(Mis(tables), tr.s, Cols(w)), true, epsilon, draws(|ts|))
    && steps' == steps + [Codes(tr.s2)] && obs' == tr.obs2
  }

  /** A CMACAHC episode starts with no steps, on its initial layers, at its first
      observation. */
  lemma AhcLoopStart(w: Setup, obs0: seq<real>, steps0: seq<EnvState>, t0: seq<AhcLayer>, p: Params, epsilon: real,
                     draws: nat -> Draw)
    requires w.Ok() && AhcShaped(t0, Sizes(w.c), Cols(w))
    ensures AhcLoop(w, obs0, steps0, t0, [], p, epsilon, draws, t0, steps0, obs0)
  {
    assert NextStates([]) == [];
  }

  /** A CMACAHC run grows by a move from where it ended whose action is the choice on
      the current preferences, when its last step left the episode running. */
  lemma AhcRunExtend(w: Setup, obs0: seq<real>, before: nat, t0: seq<AhcLayer>, ts: seq<Transition>, tr: Transition,
                     p: Params, epsilon: real, draws: nat -> Draw)
    requires w.Ok() && AhcShaped(t0, Sizes(w.c), Cols(w))
    requires AhcRun(w, obs0, before, t0, ts, p, epsilon, draws) && Continues(w, ts, before)
    requires tr.obs == Here(obs0, ts) && Moves(w, tr) && InTable(tr, Sizes(w.c), Cols(w))
    requires tr.a == Choose(SummedRow(Mis(AhcEpisode(t0, ts, p, Sizes(w.c), Cols(w))), tr.s, Cols(w)), true, epsilon,
                            draws(|ts|))
    ensures AhcRun(w, obs0, before, t0, ts + [tr], p, epsilon, draws)
  {
    WalkExtend(w, obs0, before, ts, tr);
    AhcChoicesExtend(t0, ts, tr, p, epsilon, draws, Sizes(w.c), Cols(w));
  }

  /** A CMACAHC episode grows by the move it makes from where it stands with the
      action chosen on its preferences, into the layers that step leaves and the state
      it records. */
  lemma AhcLoopGrow(w: Setup, obs0: seq<real>, steps0: seq<EnvState>, t0: seq<AhcLayer>, ts: seq<Transition>,
                    tr: Transition, p: Params, epsilon: real, draws: nat -> Draw, tables: seq<AhcLayer>,
                    steps: seq<EnvState>, tables': seq<AhcLayer>, steps': seq<EnvState>)
    requires w.Ok() && AhcShaped(t0, Sizes(w.c), Cols(w))
    requires AhcLoop(w, obs0, steps0, t0, ts, p, epsilon, draws, tables, steps, tr.obs)
    requires Continues(w, ts, |steps0|) && Moves(w, tr) && InTable(tr, Sizes(w.c), Cols(w))
    requires tr.a == Choose(SummedRow(Mis(tables), tr.s, Cols(w)), true, epsilon, draws(|ts|))
    requires tables' == AhcStep(tables, tr.s, tr.a, tr.r, tr.s2, p, Sizes(w.c), Cols(w))
    requires steps' == steps + [Codes(tr.s2)]
    ensures AhcLoop(w, obs0, steps0, t0, ts + [tr], p, epsilon, draws, tables', steps', tr.obs2)
  {
    AhcRunExtend(w, obs0, |steps0|, t0, ts, tr, p, epsilon, draws);
    AhcEpisodeSnoc(t0, ts, tr, p, Sizes(w.c), Cols(w));
    StepsSnoc(steps0, ts, tr, steps, steps');
  }

  /** After that move the CMACAHC episode goes on exactly when the new observation is
      not absorbing and the ceiling is not reached. */
  lemma AhcLoopExtend(w: Setup, obs0: seq<real>, steps0: seq<EnvState>, t0: seq<AhcLayer>, ts: seq<Transition>,
                      tr: Transition, p: Params, epsilon: real, draws: nat -> Draw, tables: seq<AhcLayer>,
                      steps: seq<EnvState>, steps': seq<EnvState>)
    requires w.Ok() && AhcShaped(t0, Sizes(w.c), Cols(w))
    requires AhcLoop(w, obs0, steps0, t0, ts, p, epsilon, draws, tables, steps, tr.obs)
    requires Continues(w, ts, |steps0|) && Moves(w, tr) && InTable(tr, Sizes(w.c), Cols(w))
    requires tr.a == Choose(SummedRow(Mis(tables), tr.s, Cols(w)), true, epsilon, draws(|ts|))
    requires steps' == steps + [Codes(tr.s2)]
    ensures |steps'| == |steps0| + |ts| + 1
    ensures AhcLoop(w, obs0, steps0, t0, ts + [tr], p, epsilon, draws,
                    AhcStep(tables, tr.s, tr.a, tr.r, tr.s2, p, Sizes(w.c), Cols(w)), steps', tr.obs2)
    ensures Continues(w, ts + [tr], |steps0|) <==> !Done(IsStateAbsorbing(w.kind, tr.obs2), |steps'|, w.maxSteps)
  {
    AhcLoopGrow(w, obs0, steps0, t0, ts, tr, p, epsilon, draws, tables, steps,
                AhcStep(tables, tr.s, tr.a, tr.r, tr.s2, p, Sizes(w.c), Cols(w)), steps');
  }

  /** The values of the layers. */
  function ValuesOf(ls: seq<AhcLayer>): (vs: seq<seq<real>>)
    ensures |vs| == |ls| && forall l :: 0 <= l < |ls| ==> vs[l] == ls[l].v
  {
    seq(|ls|, l requires 0 <= l < |ls| => ls[l].v)
  }

  /** Layers made of the values, the preferences and zero traces. */
  function AhcWithZeroTraces(vs: seq<seq<real>>, tables: seq<seq<seq<real>>>): (ls: seq<AhcLayer>)
    requires |vs| == |tables|
    ensures |ls| == |tables| && forall l :: 0 <= l < |ls| ==> ls[l].v == vs[l] && ls[l].mi == tables[l]
  {
    seq(|tables|, l requires 0 <= l < |tables| =>
      AhcLayer(vs[l], tables[l], Zero(|tables[l]|, if |tables[l]| > 0 then |tables[l][0]| else 0)))
  }

  /** `do_action(a)`, then reading `reward` and `state`, while the learner's arrays
      stay as they are. */
  method ActBeside(env: Environment, c: CmacApproximator, a: nat, ghost V: seq<array<real>>, ghost mi: seq<array2<real>>,
                   ghost e: seq<array2<real>>) returns (r: real, s2: seq<int>)
    requires Holds(env, c) && a < |ContinuousActions(env.kind)| && |V| == |mi| && |e| == |mi|
    modifies env`observation, env`state, env`steps
    ensures Holds(env, c) && AhcLayers(V, mi, e) == old(AhcLayers(V, mi, e))
    ensures Moves(Setup(env.kind, env.dynamics, env.maxSteps, c),
                  Transition(old(env.observation), CodesOf(c, old(env.observation)), a, r, env.observation, s2))
    ensures env.steps == old(env.steps) + [Codes(s2)]
  {
    r, s2 := ActOn(env, c, a, mi, e);
  }

  // ---------------------------------------------------------------------------------
  // The class

  /** CMACAHC on a CMAC-approximated continuous environment. */
  class CmacAhc {
    const env: Environment
    const cmac: CmacApproximator
    const lambd: real
    const epsilon: real
    const gamma: real
    const alpha: real
    const beta: real
    /** One vector of state values per layer. */
    const V: seq<array<real>>
    /** One table of action preferences per layer. */
    const mi: seq<array2<real>>
    var stepsPerEpisode: seq<nat>

    ghost predicate Valid()
      reads this, env
    {
      && Holds(env, cmac)
      && VectorsFit(V, Sizes(cmac)) && TablesFit(mi, Sizes(cmac), Cols(W())) && |mi| > 0 && Distinct(mi)
    }

    function W(): Setup {
      Setup(env.kind, env.dynamics, env.maxSteps, cmac)
    }

    function P(): Params {
      Params(alpha, beta, gamma, lambd)
    }

    /** `CMACAHC(environment, lambd, epsilon, gamma, alpha, beta)`: the environment must
        hold a CMAC approximator (the setter's TypeError otherwise); per layer, values
        of one over the layer's possible states and preferences of zero over those
        states and the actions. */
    constructor (environment: Environment, lambd: real, epsilon: real, gamma: real, alpha: real, beta: real)
      requires environment.Valid()
      requires Compatibility.SetEnvironment(Compatibility.CmacFamily, Compatibility.ContinuousView(environment.approximator)).Ok?
      ensures Valid() && env == environment && cmac == environment.approximator.value.cmac
      ensures this.lambd == lambd && this.epsilon == epsilon && this.gamma == gamma
      ensures this.alpha == alpha && this.beta == beta
      ensures forall l :: 0 <= l < |V| ==> fresh(V[l])
      ensures forall l :: 0 <= l < |mi| ==> fresh(mi[l])
      ensures Vs(V) == ConstantVectors(Sizes(cmac), 1.0)
      ensures Values(mi) == ZeroLayers(Sizes(cmac), Cols(W()))
      ensures stepsPerEpisode == []
    {
      env := environment;
      var c := environment.approximator.value.cmac;
      cmac := c;
      this.lambd := lambd;
      this.epsilon := epsilon;
      this.gamma := gamma;
      this.alpha := alpha;
      this.beta := beta;
      var values := NewVectors(Sizes(c), 1.0);
      V := values;
      var tables := NewTables(Sizes(c), |ContinuousActions(environment.kind)|, 0.0);
      mi := tables;
      stepsPerEpisode := [];
    }

    /** `get_greedy_actions(s)` on the summed preference rows of the layers. */
    function GreedyActions(s: seq<int>): (g: seq<nat>)
      reads this, mi
      requires cmac.Valid() && TablesFit(mi, Sizes(cmac), Cols(W())) && InLayers(s, Sizes(cmac))
      ensures g == GreedyOf(Values(mi), s, Cols(W()))
    {
      GreedyOf(Values(mi), s, |ContinuousActions(env.kind)|)
    }

    /** `get_action()`: the epsilon-greedy choice at the codes s. */
    method ChooseAction(s: seq<int>, d: Draw) returns (a: nat)
      requires Valid() && InLayers(s, Sizes(cmac))
      ensures a == Choose(SummedRow(Values(mi), s, Cols(W())), true, epsilon, d)
    {
      a := GetAction(true, epsilon, |env.Actions()|, GreedyActions(s), d);
      ChooseIsGetAction(Values(mi), s, Cols(W()), epsilon, d);
    }

    /** The learning step of `run_learning_episode` after action a took the agent from
        the codes s to s2 with reward r. */
    method Update(e: seq<array2<real>>, s: seq<int>, a: nat, r: real, s2: seq<int>)
      requires Valid() && TracesFit(mi, e)
      requires InLayers(s, Sizes(cmac)) && InLayers(s2, Sizes(cmac)) && a < Cols(W())
      modifies V, mi, e
      ensures Valid() && TracesFit(mi, e) && unchanged(env)
      ensures AhcLayers(V, mi, e) == AhcStep(old(AhcLayers(V, mi, e)), s, a, r, s2, P(), Sizes(cmac), Cols(W()))
    {
      var delta := AhcDeltas(AhcLayers(V, mi, e), s, r, s2, gamma);
      var rate := alpha / |mi| as real;
      assert rate == LayerRate(alpha, |mi|);
      var decay := gamma * lambd;
      assert decay == Decay(P());
      AhcLayersUpdateInPlace(V, mi, e, s, a, rate, beta, delta, decay, lambd > 0.0);
    }

    /** The state of `run_learning_episode` after the steps ts of an episode that
        started at the observation obs0 with the record steps0 and the layers t0. */
    ghost predicate InEpisode(e: seq<array2<real>>, t0: seq<AhcLayer>, ts: seq<Transition>, obs0: seq<real>,
                              steps0: seq<EnvState>, draws: nat -> Draw)
      reads this, env, V, mi, e
    {
      && Valid() && TracesFit(mi, e) && AhcShaped(t0, Sizes(cmac), Cols(W()))
      && AhcLoop(W(), obs0, steps0, t0, ts, P(), epsilon, draws, AhcLayers(V, mi, e), env.steps, env.observation)
    }

    /** Choose an action epsilon-greedily at the current codes and act. */
    method Act(ghost e: seq<array2<real>>, d: Draw) returns (s: seq<int>, a: nat, r: real, s2: seq<int>)
      requires Valid() && |e| == |mi|
      modifies env`observation, env`state, env`steps
      ensures Valid() && AhcLayers(V, mi, e) == old(AhcLayers(V, mi, e))
      ensures Moves(W(), Transition(old(env.observation), s, a, r, env.observation, s2))
      ensures InTable(Transition(old(env.observation), s, a, r, env.observation, s2), Sizes(cmac), Cols(W()))
      ensures env.steps == old(env.steps) + [Codes(s2)]
      ensures a == Choose(SummedRow(old(Values(mi)), s, Cols(W())), true, epsilon, d)
    {
      StateCodes(env, cmac);
      s := env.state.codes;
      a := ChooseAction(s, d);
      r, s2 := ActBeside(env, cmac, a, V, mi, e);
      MovesInTable(W(), Transition(old(env.observation), s, a, r, env.observation, s2));
    }

    /** Halfway through a pass of the loop of `run_learning_episode`: the step tr from
        the state of the episode ts (whose record was steps) has been taken with the
        action chosen on the preferences, which are not yet updated. */
    ghost predicate Acted(e: seq<array2<real>>, t0: seq<AhcLayer>, ts: seq<Transition>, tr: Transition,
                          obs0: seq<real>, steps0: seq<EnvState>, draws: nat -> Draw, steps: seq<EnvState>)
      reads this, env, V, mi, e
    {
      && Valid() && TracesFit(mi, e) && AhcShaped(t0, Sizes(cmac), Cols(W()))
      && AhcActed(W(), obs0, steps0, t0, ts, tr, P(), epsilon, draws, AhcLayers(V, mi, e), steps, env.steps,
                  env.observation)
    }

    /** The acting half of a pass of the loop of `run_learning_episode`. */
    method ActStep(e: seq<array2<real>>, ghost t0: seq<AhcLayer>, ghost ts: seq<Transition>, ghost obs0: seq<real>,
                   ghost steps0: seq<EnvState>, draws: nat -> Draw, n: nat)
      returns (s: seq<int>, a: nat, r: real, s2: seq<int>, ghost tr: Transition, ghost steps: seq<EnvState>)
      requires InEpisode(e, t0, ts, obs0, steps0, draws) && n == |ts| && Continues(W(), ts, |steps0|)
      modifies env`observation, env`state, env`steps
      ensures Acted(e, t0, ts, tr, obs0, steps0, draws, steps)
      ensures tr.s == s && tr.a == a && tr.r == r && tr.s2 == s2
    {
      ghost var tables, obs, vals := AhcLayers(V, mi, e), env.observation, Values(mi);
      steps := env.steps;
      assert Mis(tables) == vals;
      s, a, r, s2 := Act(e, draws(n));
      tr := Transition(obs, s, a, r, env.observation, s2);
      assert AhcLayers(V, mi, e) == tables;
    }

    /** The learning half of a pass of the loop of `run_learning_episode`: the episode
        grows by the step taken. */
    method LearnStep(e: seq<array2<real>>, ghost t0: seq<AhcLayer>, ghost ts: seq<Transition>, ghost tr: Transition,
                     ghost obs0: seq<real>, ghost steps0: seq<EnvState>, draws: nat -> Draw, ghost steps: seq<EnvState>,
                     s: seq<int>, a: nat, r: real, s2: seq<int>)
      requires Acted(e, t0, ts, tr, obs0, steps0, draws, steps)
      requires tr.s == s && tr.a == a && tr.r == r && tr.s2 == s2
      modifies V, mi, e
      ensures InEpisode(e, t0, ts + [tr], obs0, steps0, draws)
      ensures |env.steps| == |steps0| + |ts| + 1
      ensures env.IsDone() <==> !Continues(W(), ts + [tr], |steps0|)
    {
      AhcLoopExtend(W(), obs0, steps0, t0, ts, tr, P(), epsilon, draws, AhcLayers(V, mi, e), steps, env.steps);
      Update(e, s, a, r, s2);
    }

    /** One pass of the loop of `run_learning_episode`. */
    method EpisodeStep(e: seq<array2<real>>, ghost t0: seq<AhcLayer>, ghost ts: seq<Transition>, ghost obs0: seq<real>,
                       ghost steps0: seq<EnvState>, draws: nat -> Draw, n: nat) returns (ghost tr: Transition)
      requires InEpisode(e, t0, ts, obs0, steps0, draws) && n == |ts| && Continues(W(), ts, |steps0|)
      modifies env, V, mi, e
      ensures InEpisode(e, t0, ts + [tr], obs0, steps0, draws)
      ensures |env.steps| == |steps0| + |ts| + 1
      ensures env.IsDone() <==> !Continues(W(), ts + [tr], |steps0|)
    {
      var s, a, r, s2;
      ghost var steps;
      s, a, r, s2, tr, steps := ActStep(e, t0, ts, obs0, steps0, draws, n);
      LearnStep(e, t0, ts, tr, obs0, steps0, draws, steps, s, a, r, s2);
    }

    /** The start of `run_learning_episode`: zero traces. */
    method StartEpisode(draws: nat -> Draw) returns (e: seq<array2<real>>)
      requires Valid()
      ensures TracesFit(mi, e) && forall l :: 0 <= l < |e| ==> fresh(e[l])
      ensures AhcLayers(V, mi, e) == AhcWithZeroTraces(Vs(V), Values(mi))
      ensures InEpisode(e, AhcLayers(V, mi, e), [], env.observation, env.steps, draws)
    {
      e := NewTraces(mi);
      AhcLoopStart(W(), env.observation, env.steps, AhcLayers(V, mi, e), P(), epsilon, draws);
    }

    /** The loop of `run_learning_episode`, up to the step after which the environment
        is done. */
    method RunSteps(e: seq<array2<real>>, ghost t0: seq<AhcLayer>, ghost obs0: seq<real>, ghost steps0: seq<EnvState>,
                    draws: nat -> Draw) returns (ghost ts: seq<Transition>)
      requires InEpisode(e, t0, [], obs0, steps0, draws)
      modifies env, V, mi, e
      ensures |ts| > 0 && InEpisode(e, t0, ts, obs0, steps0, draws) && env.IsDone()
    {
      ts := [];
      var n: nat := 0;
      while true
        invariant n == |ts| && InEpisode(e, t0, ts, obs0, steps0, draws) && Continues(W(), ts, |steps0|)
        invariant |env.steps| == |steps0| + n
        decreases env.maxSteps - |env.steps|
      {
        ghost var tr := EpisodeStep(e, t0, ts, obs0, steps0, draws, n);
        ts := ts + [tr];
        n := n + 1;
        if env.IsDone() {
          return;
        }
      }
    }

    /** `run_learning_episode`: from fresh traces, choose an action epsilon-greedily,
        act, learn from the step, until the environment is done.  The returned steps
        are the episode's walk; the values and preferences are the CMACAHC run over
        them. */
    method RunLearningEpisode(draws: nat -> Draw) returns (ghost ts: seq<Transition>)
      requires Valid()
      modifies env, V, mi
      ensures Valid() && env.IsDone()
      ensures |ts| > 0 && env.steps == old(env.steps) + NextStates(ts) && env.observation == ts[|ts| - 1].obs2
      ensures AhcRun(W(), old(env.observation), |old(env.steps)|, AhcWithZeroTraces(old(Vs(V)), old(Values(mi))), ts,
                     P(), epsilon, draws)
      ensures Vs(V) == ValuesOf(AhcEpisode(AhcWithZeroTraces(old(Vs(V)), old(Values(mi))), ts, P(), Sizes(cmac), Cols(W())))
      ensures Values(mi) == Mis(AhcEpisode(AhcWithZeroTraces(old(Vs(V)), old(Values(mi))), ts, P(), Sizes(cmac), Cols(W())))
    {
      var e := StartEpisode(draws);
      ghost var t0 := AhcLayers(V, mi, e);
      ts := RunSteps(e, t0, env.observation, env.steps, draws);
      ghost var u := AhcLayers(V, mi, e);
      assert u == AhcEpisode(t0, ts, P(), Sizes(cmac), Cols(W()));
    }

    /** The body of the loop of `learn`: clear the environment, run an episode and
        give the number of steps it took. */
    method ClearAndRun(draws: nat -> Draw) returns (length: nat)
      requires Valid()
      modifies env, V, mi
      ensures Valid()
      ensures length == |env.steps| && 1 <= length && (length == 1 || length <= env.maxSteps)
    {
      env.Clear();
      ghost var ts := RunLearningEpisode(draws);
      length := |env.steps|;
      assert RunsOn(W(), ts, 0);
      if |ts| > 1 {
        assert !Done(IsStateAbsorbing(env.kind, ts[|ts| - 2].obs2), |ts| - 1, env.maxSteps);
      }
    }

    /** `learn`: per episode, clear the environment, run the episode and record its
        length; with `stop`, quit after the first episode that makes the record count
        as learned.  `draws(i)` are the random draws of episode i. */
    method Learn(nEpisodes: int, stop: bool, lte: ExtReal, gte: ExtReal, w: int, draws: nat -> nat -> Draw)
      requires Valid()
      modifies this, env, V, mi
      ensures Valid()
      ensures LearnOutcome(old(stepsPerEpisode), stepsPerEpisode, nEpisodes, stop, lte, gte, w)
      ensures Classic.EpisodeLengths(stepsPerEpisode[|old(stepsPerEpisode)|..], env.maxSteps)
      ensures |stepsPerEpisode| > |old(stepsPerEpisode)| ==> stepsPerEpisode[|stepsPerEpisode| - 1] == |env.steps|
    {
      ghost var before := stepsPerEpisode;
      ghost var record := stepsPerEpisode;
      var i: nat := 0;
      while i < nEpisodes
        invariant Valid() && i <= if nEpisodes > 0 then nEpisodes else 0
        invariant stepsPerEpisode == record
        invariant LearnProgress(before, record, i, stop, lte, gte, w)
        invariant Classic.EpisodeLengths(record[|before|..], env.maxSteps)
        invariant |record| > |before| ==> record[|record| - 1] == |env.steps|
      {
        var length := ClearAndRun(draws(i));
        Classic.EpisodeLengthsSnoc(|before|, record, length, env.maxSteps);
        record := record + [length];
        stepsPerEpisode := stepsPerEpisode + [length];
        if stop && IsLearned(stepsPerEpisode, lte, gte, w) {
          LearnStopped(before, record, i, nEpisodes, stop, lte, gte, w);
          return;
        }
        LearnProgressStep(before, record, i, stop, lte, gte, w);
        i := i + 1;
      }
      LearnProgressOutcome(before, record, i, nEpisodes, stop, lte, gte, w);
    }
  }
}
