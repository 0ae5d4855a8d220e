/** The shared machinery of the CMAC algorithms of algorithm/cmac.py, and CMACQ.  Each
    algorithm keeps one table per CMAC layer (tiling); a state is one row code per
    layer; the greedy actions are the arg-max of the rows the codes select, summed
    over the layers; every layer learns from its own error.  As in the Classic module,
    each learning step is first a function on table values, and the classes run it in
    place on one array per layer.  CMACSARSA, CMACR and CMACAHC are the modules
    CmacSarsa, CmacR and CmacAhc. */
module Cmac {
  import opened Wrappers
  import opened ExtReals
  import opened Matrices
  import opened Learning
  import opened Approximators
  import opened Environments
  import Classic
  import Compatibility

  // ---------------------------------------------------------------------------------
  // Layers and states

  /** One layer's table with its eligibility traces. */
  datatype Layer = Layer(q: seq<seq<real>>, e: seq<seq<real>>)

  /** Per-layer tables and traces: layer l has `sizes[l]` rows and `cols` columns. */
  predicate Shaped(ls: seq<Layer>, sizes: seq<nat>, cols: nat) {
    |ls| == |sizes| && forall l :: 0 <= l < |ls| ==> IsMatrix(ls[l].q, sizes[l], cols) && IsMatrix(ls[l].e, sizes[l], cols)
  }

  /** Per-layer tables of the given shape. */
  predicate TablesShaped(tables: seq<seq<seq<real>>>, sizes: seq<nat>, cols: nat) {
    |tables| == |sizes| && forall l :: 0 <= l < |tables| ==> IsMatrix(tables[l], sizes[l], cols)
  }

  /** The tables of per-layer tables and traces. */
  function Qs(ls: seq<Layer>): (tables: seq<seq<seq<real>>>)
    ensures |tables| == |ls| && forall l :: 0 <= l < |ls| ==> tables[l] == ls[l].q
  {
    seq(|ls|, l requires 0 <= l < |ls| => ls[l].q)
  }

  /** A CMAC state: one row code per layer, within the layer's possible states. */
  predicate InLayers(s: seq<int>, sizes: seq<nat>) {
    |s| == |sizes| && forall l :: 0 <= l < |s| ==> 0 <= s[l] < sizes[l]
  }

  /** The number of possible states of each layer. */
  function Sizes(c: CmacApproximator): (sizes: seq<nat>)
    requires c.Valid()
    ensures |sizes| == c.nLayers
    ensures forall l :: 0 <= l < c.nLayers ==> sizes[l] == |CmacPossibleStates(c)[l]|
  {
    seq(c.nLayers, l requires 0 <= l < c.nLayers => |CmacPossibleStates(c)[l]|)
  }

  /** The codes `approximate_state` gives an observation: one per layer, each within
      its layer. */
  function CodesOf(c: CmacApproximator, obs: seq<real>): (s: seq<int>)
    requires c.Valid() && |obs| >= c.nStateVariables
    ensures InLayers(s, Sizes(c))
  {
    CmacApproximateState(c, obs).value
  }

  // ---------------------------------------------------------------------------------
  // Greedy selection over summed layers

  /** The rows `tables[l][s[l], :]` a state selects, one per layer. */
  function SelectedRows(tables: seq<seq<seq<real>>>, s: seq<int>): (rows: seq<seq<real>>)
    requires |s| == |tables| && forall l :: 0 <= l < |s| ==> 0 <= s[l] < |tables[l]|
    ensures |rows| == |tables| && forall l :: 0 <= l < |rows| ==> rows[l] == tables[l][s[l]]
  {
    seq(|tables|, l requires 0 <= l < |tables| => tables[l][s[l]])
  }

  /** `np.array(rows).sum(0)`: the element-wise sum of rows of one length. */
  function SumRows(rows: seq<seq<real>>, cols: nat): (v: seq<real>)
    requires forall l :: 0 <= l < |rows| ==> |rows[l]| == cols
    ensures |v| == cols
    decreases |rows|
  {
    if |rows| == 0 then seq(cols, _ => 0.0)
    else AddScaledV(SumRows(rows[..|rows| - 1], cols), 1.0, rows[|rows| - 1])
  }

  /** Entry j of each row. */
  function Column(rows: seq<seq<real>>, j: nat): (c: seq<real>)
    requires forall l :: 0 <= l < |rows| ==> j < |rows[l]|
    ensures |c| == |rows| && forall l :: 0 <= l < |rows| ==> c[l] == rows[l][j]
  {
    seq(|rows|, l requires 0 <= l < |rows| => rows[l][j])
  }

  /** Entry j of the summed row is the sum of the rows' entries j. */
  lemma {:induction false} SumRowsColumn(rows: seq<seq<real>>, cols: nat, j: nat)
    requires forall l :: 0 <= l < |rows| ==> |rows[l]| == cols
    requires j < cols
    ensures SumRows(rows, cols)[j] == Sum(Column(rows, j))
    decreases |rows|
  {
    if |rows| > 0 {
      var prefix := rows[..|rows| - 1];
      SumRowsColumn(prefix, cols, j);
      assert Column(rows, j)[..|rows| - 1] == Column(prefix, j);
    }
  }

  /** The summed row of a state: entry j is the sum over the layers of the entries
      `tables[l][s[l], j]`. */
  function SummedRow(tables: seq<seq<seq<real>>>, s: seq<int>, cols: nat): (v: seq<real>)
    requires |s| == |tables| && forall l :: 0 <= l < |s| ==> 0 <= s[l] < |tables[l]| && |tables[l][s[l]]| == cols
    ensures |v| == cols
  {
    SumRows(SelectedRows(tables, s), cols)
  }

  /** `get_greedy_actions(s)`: an action is greedy exactly when its value summed over
      the layers is at least that of every action; the set is non-empty and ascending. */
  lemma SummedGreedySet(tables: seq<seq<seq<real>>>, s: seq<int>, cols: nat)
    requires cols > 0
    requires |s| == |tables| && forall l :: 0 <= l < |s| ==> 0 <= s[l] < |tables[l]| && |tables[l][s[l]]| == cols
    ensures var g, rows := ArgMax(SummedRow(tables, s, cols)), SelectedRows(tables, s);
            && |g| > 0
            && (forall t, u :: 0 <= t < u < |g| ==> g[t] < g[u])
            && forall a :: a in g <==> 0 <= a < cols && forall b :: 0 <= b < cols ==> Sum(Column(rows, b)) <= Sum(Column(rows, a))
  {
    var v, rows := SummedRow(tables, s, cols), SelectedRows(tables, s);
    ArgMaxIsGreedySet(v);
    forall j | 0 <= j < cols ensures v[j] == Sum(Column(rows, j)) {
      SumRowsColumn(rows, cols, j);
    }
  }

  /** With every selected row constant (fresh tables) all actions are greedy, in order. */
  lemma SummedGreedyOfConstant(tables: seq<seq<seq<real>>>, s: seq<int>, cols: nat, c: real)
    requires cols > 0
    requires |s| == |tables| && forall l :: 0 <= l < |s| ==> 0 <= s[l] < |tables[l]| && |tables[l][s[l]]| == cols
    requires forall l, j :: 0 <= l < |s| && 0 <= j < cols ==> tables[l][s[l]][j] == c
    ensures ArgMax(SummedRow(tables, s, cols)) == seq(cols, a => a)
  {
    var v, rows := SummedRow(tables, s, cols), SelectedRows(tables, s);
    forall j | 0 <= j < cols ensures v[j] == v[0] {
      SumRowsColumn(rows, cols, j);
      SumRowsColumn(rows, cols, 0);
      assert Column(rows, j) == Column(rows, 0);
    }
    ArgMaxOfConstant(v, v[0]);
  }

  /** With a 1 in column 0 and zeros elsewhere in every selected row, action 0 alone is
      greedy. */
  lemma SummedGreedyOfFirstColumn(tables: seq<seq<seq<real>>>, s: seq<int>, cols: nat)
    requires cols > 0 && |s| > 0
    requires |s| == |tables| && forall l :: 0 <= l < |s| ==> 0 <= s[l] < |tables[l]| && |tables[l][s[l]]| == cols
    requires forall l, j :: 0 <= l < |s| && 0 <= j < cols ==> tables[l][s[l]][j] == if j == 0 then 1.0 else 0.0
    ensures ArgMax(SummedRow(tables, s, cols)) == [0]
  {
    var rows, v := SelectedRows(tables, s), SummedRow(tables, s, cols);
    assert Column(rows, 0) == seq(|rows|, _ => 1.0);
    SumOfOnes(|rows|);
    SumRowsColumn(rows, cols, 0);
    forall b | 0 < b < cols ensures v[b] == 0.0 {
      assert Column(rows, b) == seq(|rows|, _ => 0.0);
      SumZero(Column(rows, b));
      SumRowsColumn(rows, cols, b);
    }
    ArgMaxOfUnique(v, 0);
  }

  lemma {:induction false} SumOfOnes(n: nat)
    ensures Sum(seq(n, _ => 1.0)) == n as real
  {
    if n > 0 {
      assert seq(n, _ => 1.0)[..n - 1] == seq(n - 1, _ => 1.0);
      SumOfOnes(n - 1);
    }
  }

  // ---------------------------------------------------------------------------------
  // Learning steps on one layer

  /** Applying the step `step` to row s of one layer at action a.  With traces,
      `e[s, a] += 1`, row s of the table moves by `step * e[s, :]` and row s of the
      traces is multiplied by `decay`; other rows stay.  Without, only `q[s, a]` moves
      by `step`. */
  function RowTdUpdate(t: Layer, s: nat, a: nat, step: real, decay: real, traced: bool): (u: Layer)
    requires s < |t.q| && a < |t.q[s]| && SameShape(t.q, t.e)
    ensures SameShape(u.q, t.q) && SameShape(u.e, t.e)
  {
    if traced then
      var e1 := Bump(t.e, s, a, 1.0);
      Layer(t.q[s := AddScaledV(t.q[s], step, e1[s])], e1[s := ScaledV(e1[s], decay)])
    else Layer(Bump(t.q, s, a, step), t.e)
  }

  /** How entry (i, j) of a layer moves in a step at (s, a): rows other than s keep both
      their values and their traces (the traces there do not decay); untraced, only
      (s, a) moves, by `step`; traced, each entry of row s moves by `step` times its
      bumped trace, and that trace is multiplied by `decay`. */
  predicate RowEntryMoves(t: Layer, u: Layer, s: nat, a: nat, step: real, decay: real, traced: bool, i: nat, j: nat) {
    && i < |t.q| && i < |t.e| && i < |u.q| && i < |u.e|
    && j < |t.q[i]| && j < |t.e[i]| && j < |u.q[i]| && j < |u.e[i]|
    && (i != s ==> u.q[i][j] == t.q[i][j] && u.e[i][j] == t.e[i][j])
    && (!traced ==> u.e == t.e)
    && (!traced ==> u.q[i][j] == if (i, j) == (s, a) then t.q[i][j] + step else t.q[i][j])
    && (traced && i == s ==> u.q[i][j] == t.q[i][j] + step * (t.e[i][j] + Classic.UnitV(j, a)))
    && (traced && i == s ==> u.e[i][j] == decay * (t.e[i][j] + Classic.UnitV(j, a)))
  }

  lemma RowTdUpdateEntry(t: Layer, s: nat, a: nat, step: real, decay: real, traced: bool, i: nat, j: nat)
    requires s < |t.q| && a < |t.q[s]| && SameShape(t.q, t.e)
    requires i < |t.q| && j < |t.q[i]|
    ensures RowTdUpdate(t, s, a, step, decay, traced).q[i] == if traced && i == s then AddScaledV(t.q[s], step, Bump(t.e, s, a, 1.0)[s]) else RowTdUpdate(t, s, a, step, decay, traced).q[i]
    ensures RowEntryMoves(t, RowTdUpdate(t, s, a, step, decay, traced), s, a, step, decay, traced, i, j)
  {
  }

  /** Every layer moves at its own row by `rate * delta[l]`. */
  function LayersTdUpdate(ls: seq<Layer>, s: seq<int>, a: nat, rate: real, delta: seq<real>, decay: real, traced: bool)
    : (us: seq<Layer>)
    requires |s| == |ls| && |delta| == |ls|
    requires forall l :: 0 <= l < |ls| ==> 0 <= s[l] < |ls[l].q| && a < |ls[l].q[s[l]]| && SameShape(ls[l].q, ls[l].e)
    ensures |us| == |ls|
    ensures forall l :: 0 <= l < |ls| ==> SameShape(us[l].q, ls[l].q) && SameShape(us[l].e, ls[l].e)
  {
    seq(|ls|, l requires 0 <= l < |ls| => RowTdUpdate(ls[l], s[l], a, LayerStep(rate, delta[l]), decay, traced))
  }

  /** The step of a layer: the shared rate times the layer's own error. */
  function LayerStep(rate: real, delta: real): real {
    rate * delta
  }

  /** The factor `alpha / n_layers` every layer's error is scaled by. */
  function LayerRate(alpha: real, nLayers: nat): real
    requires nLayers > 0
  {
    alpha / nLayers as real
  }

  // ---------------------------------------------------------------------------------
  // CMACQ

  /** `delta[t] = r + gamma * q[t][s_[t], :].max() - q[t][s[t], a]`, for every layer t
      on its own table. */
  function QDeltas(ls: seq<Layer>, s: seq<int>, a: nat, r: real, s2: seq<int>, gamma: real): (delta: seq<real>)
    requires |s| == |ls| && |s2| == |ls|
    requires forall l :: 0 <= l < |ls| ==> 0 <= s[l] < |ls[l].q| && 0 <= s2[l] < |ls[l].q| && a < |ls[l].q[s[l]]| && |ls[l].q[s2[l]]| > 0
    ensures |delta| == |ls|
  {
    seq(|ls|, l requires 0 <= l < |ls| => r + gamma * Max(ls[l].q[s2[l]]) - ls[l].q[s[l]][a])
  }

  /** One CMACQ step from s by a to s2 with reward r. */
  function QStep(ls: seq<Layer>, s: seq<int>, a: nat, r: real, s2: seq<int>, p: Params, sizes: seq<nat>, cols: nat)
    : (us: seq<Layer>)
    requires Shaped(ls, sizes, cols) && |ls| > 0 && InLayers(s, sizes) && InLayers(s2, sizes) && a < cols
    ensures Shaped(us, sizes, cols)
  {
    LayersTdUpdate(ls, s, a, LayerRate(p.alpha, |ls|), QDeltas(ls, s, a, r, s2, p.gamma), Decay(p), p.lambd > 0.0)
  }

  /** Layer l of a CMACQ step: with lambda = 0 only `q[l][s[l], a]` moves, by
      `alpha / n * delta_l`; with lambda > 0 `e[l][s[l], a]` is bumped, row s[l] of
      q[l] moves by that step times the row's traces and only row s[l] of the traces
      decays by gamma * lambda.  The error of layer l reads layer l alone. */
  lemma QStepEntry(ls: seq<Layer>, s: seq<int>, a: nat, r: real, s2: seq<int>, p: Params, sizes: seq<nat>, cols: nat,
                   l: nat, i: nat, j: nat)
    requires Shaped(ls, sizes, cols) && |ls| > 0 && InLayers(s, sizes) && InLayers(s2, sizes) && a < cols
    requires l < |ls| && i < sizes[l] && j < cols
    ensures RowEntryMoves(ls[l], QStep(ls, s, a, r, s2, p, sizes, cols)[l], s[l], a,
                          LayerStep(LayerRate(p.alpha, |ls|), r + p.gamma * Max(ls[l].q[s2[l]]) - ls[l].q[s[l]][a]),
                          Decay(p), p.lambd > 0.0, i, j)
  {
    var deltas := QDeltas(ls, s, a, r, s2, p.gamma);
    var delta := r + p.gamma * Max(ls[l].q[s2[l]]) - ls[l].q[s[l]][a];
    assert deltas[l] == delta;
    var step := LayerStep(LayerRate(p.alpha, |ls|), delta);
    var u := QStep(ls, s, a, r, s2, p, sizes, cols)[l];
    assert u == RowTdUpdate(ls[l], s[l], a, step, Decay(p), p.lambd > 0.0);
    RowTdUpdateEntry(ls[l], s[l], a, step, Decay(p), p.lambd > 0.0, i, j);
    assert RowEntryMoves(ls[l], u, s[l], a, step, Decay(p), p.lambd > 0.0, i, j);
  }

  /** Layer l of a step depends on layer l of the tables alone. */
  lemma QStepLayerLocal(ls: seq<Layer>, ls': seq<Layer>, s: seq<int>, a: nat, r: real, s2: seq<int>, p: Params,
                        sizes: seq<nat>, cols: nat, l: nat)
    requires Shaped(ls, sizes, cols) && |ls| > 0 && InLayers(s, sizes) && InLayers(s2, sizes) && a < cols
    requires Shaped(ls', sizes, cols) && l < |ls| && ls[l] == ls'[l]
    ensures QStep(ls, s, a, r, s2, p, sizes, cols)[l] == QStep(ls', s, a, r, s2, p, sizes, cols)[l]
  {
    assert QDeltas(ls, s, a, r, s2, p.gamma)[l] == QDeltas(ls', s, a, r, s2, p.gamma)[l];
  }

  // ---------------------------------------------------------------------------------
  // Greedy membership

  /** Action a's value summed over the rows is at least every other action's. */
  predicate SummedGreedy(rows: seq<seq<real>>, a: nat, cols: nat)
    requires forall l :: 0 <= l < |rows| ==> |rows[l]| == cols
    requires a < cols
  {
    forall b :: 0 <= b < cols ==> Sum(Column(rows, b)) <= Sum(Column(rows, a))
  }

  /** An action is in the summed arg-max exactly when it is `SummedGreedy`. */
  lemma SummedGreedyMember(tables: seq<seq<seq<real>>>, s: seq<int>, cols: nat, a: nat)
    requires |s| == |tables| && forall l :: 0 <= l < |s| ==> 0 <= s[l] < |tables[l]| && |tables[l][s[l]]| == cols
    requires a < cols
    ensures a in ArgMax(SummedRow(tables, s, cols)) <==> SummedGreedy(SelectedRows(tables, s), a, cols)
  {
    SummedGreedySet(tables, s, cols);
  }

  // ---------------------------------------------------------------------------------
  // Per-layer arrays

  /** The tables of the layers are distinct arrays. */
  predicate Distinct<T(==)>(arrays: seq<T>) {
    forall l, m :: 0 <= l < m < |arrays| ==> arrays[l] != arrays[m]
  }

  /** Layer l's table has `sizes[l]` rows and `cols` columns. */
  predicate TablesFit(q: seq<array2<real>>, sizes: seq<nat>, cols: nat) {
    |q| == |sizes| && forall l :: 0 <= l < |q| ==> q[l].Length0 == sizes[l] && q[l].Length1 == cols
  }

  /** Traces of the shape of the tables, every array distinct from every other. */
  predicate TracesFit(q: seq<array2<real>>, e: seq<array2<real>>) {
    && |e| == |q| && Distinct(q) && Distinct(e)
    && (forall l :: 0 <= l < |q| ==> e[l].Length0 == q[l].Length0 && e[l].Length1 == q[l].Length1)
    && forall l, m :: 0 <= l < |q| && 0 <= m < |e| ==> q[l] != e[m]
  }

  /** The values the per-layer tables hold. */
  function Values(q: seq<array2<real>>): (tables: seq<seq<seq<real>>>)
    reads q
    ensures |tables| == |q| && forall l :: 0 <= l < |q| ==> tables[l] == Rows(q[l])
  {
    seq(|q|, l requires 0 <= l < |q| reads q => Rows(q[l]))
  }

  /** The values the per-layer tables and their traces hold. */
  function Layers(q: seq<array2<real>>, e: seq<array2<real>>): (ls: seq<Layer>)
    reads q, e
    requires |e| == |q|
    ensures |ls| == |q| && forall l :: 0 <= l < |q| ==> ls[l] == Layer(Rows(q[l]), Rows(e[l]))
    ensures Qs(ls) == Values(q)
  {
    seq(|q|, l requires 0 <= l < |q| reads q, e => Layer(Rows(q[l]), Rows(e[l])))
  }

  /** Tables of the given shapes, all equal to one value. */
  function ConstantTables(sizes: seq<nat>, cols: nat, v: real): (tables: seq<seq<seq<real>>>)
    ensures TablesShaped(tables, sizes, cols)
    ensures forall l, i, j :: 0 <= l < |sizes| && 0 <= i < sizes[l] && 0 <= j < cols ==> tables[l][i][j] == v
  {
    seq(|sizes|, l requires 0 <= l < |sizes| => Constant(sizes[l], cols, v))
  }

  /** Per-layer fresh tables of the given shapes holding v everywhere, as
      `[np.full((size, cols), v) for size in sizes]`. */
  method NewTables(sizes: seq<nat>, cols: nat, v: real) returns (q: seq<array2<real>>)
    ensures TablesFit(q, sizes, cols) && Distinct(q)
    ensures forall l :: 0 <= l < |q| ==> fresh(q[l])
    ensures Values(q) == ConstantTables(sizes, cols, v)
  {
    q := [];
    for l := 0 to |sizes|
      invariant |q| == l && Distinct(q)
      invariant forall k :: 0 <= k < l ==> fresh(q[k]) && q[k].Length0 == sizes[k] && q[k].Length1 == cols
      invariant forall k :: 0 <= k < l ==> Rows(q[k]) == Constant(sizes[k], cols, v)
    {
      var t := Matrices.NewTable(sizes[l], cols, v);
      q := q + [t];
    }
  }

  /** The step `RowTdUpdate` describes, done on the arrays of one layer's table and
      traces. */
  method RowTdUpdateInPlace(Q: array2<real>, E: array2<real>, s: nat, a: nat, step: real, decay: real, traced: bool)
    requires Q != E && Q.Length0 == E.Length0 && Q.Length1 == E.Length1
    requires s < Q.Length0 && a < Q.Length1
    modifies Q, E
    ensures Layer(Rows(Q), Rows(E)) == RowTdUpdate(Layer(old(Rows(Q)), old(Rows(E))), s, a, step, decay, traced)
  {
    if traced {
      BumpInPlace(E, s, a, 1.0);
      AddScaledRowInPlace(Q, s, step, E);
      ScaleRowInPlace(E, s, decay);
    } else {
      BumpInPlace(Q, s, a, step);
    }
  }

  /** Layer t makes its step on its own arrays; every other layer keeps its values and
      traces. */
  method LayerTdUpdateInPlace(q: seq<array2<real>>, e: seq<array2<real>>, t: nat, s: int, a: nat, step: real,
                              decay: real, traced: bool)
    requires TracesFit(q, e) && t < |q| && 0 <= s < q[t].Length0 && a < q[t].Length1
    modifies q[t], e[t]
    ensures Layer(Rows(q[t]), Rows(e[t])) == RowTdUpdate(Layer(old(Rows(q[t])), old(Rows(e[t]))), s, a, step, decay, traced)
    ensures forall l :: 0 <= l < |q| && l != t ==> Rows(q[l]) == old(Rows(q[l])) && Rows(e[l]) == old(Rows(e[l]))
  {
    RowTdUpdateInPlace(q[t], e[t], s, a, step, decay, traced);
  }

  /** `for t in range(n_layers)`: every layer makes its own step, with its own error,
      on its own arrays. */
  method LayersTdUpdateInPlace(q: seq<array2<real>>, e: seq<array2<real>>, s: seq<int>, a: nat, rate: real,
                               delta: seq<real>, decay: real, traced: bool)
    requires TracesFit(q, e) && |s| == |q| && |delta| == |q|
    requires forall l :: 0 <= l < |q| ==> 0 <= s[l] < q[l].Length0 && a < q[l].Length1
    modifies q, e
    ensures Layers(q, e) == LayersTdUpdate(old(Layers(q, e)), s, a, rate, delta, decay, traced)
  {
    ghost var before := Layers(q, e);
    ghost var after := LayersTdUpdate(before, s, a, rate, delta, decay, traced);
    for t := 0 to |q|
      invariant forall l :: 0 <= l < |q| ==> Layer(Rows(q[l]), Rows(e[l])) == if l < t then after[l] else before[l]
    {
      var step := rate * delta[t];
      assert step == LayerStep(rate, delta[t]);
      LayerTdUpdateInPlace(q, e, t, s[t], a, step, decay, traced);
    }
    assert Layers(q, e) == after;
  }

  // ---------------------------------------------------------------------------------
  // Episodes on a CMAC-approximated continuous environment

  /** What an episode's steps depend on besides the agent: the environment's kind, its
      equations of motion, its step ceiling and its CMAC approximator. */
  datatype Setup = Setup(kind: ContinuousKind, dynamics: (seq<real>, real) -> seq<real>, maxSteps: int,
                         c: CmacApproximator)
  {
    /** The approximator codes this kind's observations. */
    predicate Ok() {
      c.Valid() && c.nStateVariables == ObservationLength(kind)
    }
  }

  /** The number of actions of the environment. */
  function Cols(w: Setup): (cols: nat)
    ensures cols > 0
  {
    |ContinuousActions(w.kind)|
  }

  /** One step of an episode: the observations before and after, their codes, the
      action index and the reward. */
  datatype Transition = Transition(obs: seq<real>, s: seq<int>, a: nat, r: real, obs2: seq<real>, s2: seq<int>)

  /** The codes of an observation of this environment. */
  predicate Coded(w: Setup, obs: seq<real>, s: seq<int>)
    requires w.Ok()
  {
    |obs| == ObservationLength(w.kind) && s == CodesOf(w.c, obs)
  }

  /** `do_action(a)` and the reading of `reward` and `state`: the model moves from obs
      to obs2 under the control a selects, r is the reward at obs2 and s, s2 are the
      codes of obs, obs2. */
  predicate Moves(w: Setup, tr: Transition)
    requires w.Ok()
  {
    && ContinuousTransition(w.kind, w.dynamics, tr.obs, tr.a, tr.r, tr.obs2)
    && Coded(w, tr.obs, tr.s) && Coded(w, tr.obs2, tr.s2)
  }

  /** The codes and the action of a step are within the tables. */
  predicate InTable(tr: Transition, sizes: seq<nat>, cols: nat) {
    InLayers(tr.s, sizes) && InLayers(tr.s2, sizes) && tr.a < cols
  }

  lemma MovesInTable(w: Setup, tr: Transition)
    requires w.Ok() && Moves(w, tr)
    ensures InTable(tr, Sizes(w.c), Cols(w))
  {
  }

  lemma InTableSnoc(ts: seq<Transition>, tr: Transition, sizes: seq<nat>, cols: nat)
    requires forall k :: 0 <= k < |ts| ==> InTable(ts[k], sizes, cols)
    requires InTable(tr, sizes, cols)
    ensures forall k :: 0 <= k < |ts + [tr]| ==> InTable((ts + [tr])[k], sizes, cols)
  {
  }

  /** The steps form a walk from the observation obs0: each is a move that starts
      where the previous one ended. */
  predicate Walk(w: Setup, obs0: seq<real>, ts: seq<Transition>)
    requires w.Ok()
    decreases |ts|
  {
    |ts| == 0 ||
    var prev, tr := ts[..|ts| - 1], ts[|ts| - 1];
    && Walk(w, obs0, prev)
    && tr.obs == (if |prev| == 0 then obs0 else prev[|prev| - 1].obs2)
    && Moves(w, tr)
  }

  /** Every step of the walk but the last left the episode running: its new
      observation was not absorbing and the ceiling was not reached. */
  predicate RunsOn(w: Setup, ts: seq<Transition>, before: nat)
    decreases |ts|
  {
    |ts| <= 1 ||
    (&& RunsOn(w, ts[..|ts| - 1], before)
     && |ts[|ts| - 2].obs2| == ObservationLength(w.kind)
     && !Done(IsStateAbsorbing(w.kind, ts[|ts| - 2].obs2), before + |ts| - 1, w.maxSteps))
  }

  /** After the last step of ts the episode goes on. */
  predicate Continues(w: Setup, ts: seq<Transition>, before: nat) {
    |ts| > 0 ==>
      && |ts[|ts| - 1].obs2| == ObservationLength(w.kind)
      && !Done(IsStateAbsorbing(w.kind, ts[|ts| - 1].obs2), before + |ts|, w.maxSteps)
  }

  /** The states an episode records, one per step. */
  function NextStates(ts: seq<Transition>): (states: seq<EnvState>)
    ensures |states| == |ts|
    decreases |ts|
  {
    if |ts| == 0 then [] else NextStates(ts[..|ts| - 1]) + [Codes(ts[|ts| - 1].s2)]
  }

  /** Where the agent stands after the steps ts from obs0. */
  function Here(obs0: seq<real>, ts: seq<Transition>): seq<real> {
    if |ts| == 0 then obs0 else ts[|ts| - 1].obs2
  }

  lemma StepsSnoc(steps0: seq<EnvState>, ts: seq<Transition>, tr: Transition, before: seq<EnvState>, after: seq<EnvState>)
    requires before == steps0 + NextStates(ts) && after == before + [Codes(tr.s2)]
    ensures after == steps0 + NextStates(ts + [tr])
  {
    assert (ts + [tr])[..|ts|] == ts;
    assert steps0 + (NextStates(ts) + [Codes(tr.s2)]) == (steps0 + NextStates(ts)) + [Codes(tr.s2)];
  }

  /** A walk and its running record grow by a move from where the walk ended, when the
      walk's last step left the episode running. */
  lemma WalkExtend(w: Setup, obs0: seq<real>, before: nat, ts: seq<Transition>, tr: Transition)
    requires w.Ok() && Walk(w, obs0, ts) && RunsOn(w, ts, before) && Continues(w, ts, before)
    requires tr.obs == Here(obs0, ts) && Moves(w, tr)
    ensures Walk(w, obs0, ts + [tr]) && RunsOn(w, ts + [tr], before)
  {
    assert (ts + [tr])[..|ts|] == ts;
  }

  // ---------------------------------------------------------------------------------
  // CMACQ episodes

  /** The layers after the CMACQ steps ts from t. */
  function QEpisode(t: seq<Layer>, ts: seq<Transition>, p: Params, sizes: seq<nat>, cols: nat): (u: seq<Layer>)
    requires Shaped(t, sizes, cols) && |t| > 0
    requires forall k :: 0 <= k < |ts| ==> InTable(ts[k], sizes, cols)
    ensures Shaped(u, sizes, cols)
    decreases |ts|
  {
    if |ts| == 0 then t
    else
      var before, tr := QEpisode(t, ts[..|ts| - 1], p, sizes, cols), ts[|ts| - 1];
      assert InTable(tr, sizes, cols);
      QStep(before, tr.s, tr.a, tr.r, tr.s2, p, sizes, cols)
  }

  lemma QEpisodeSnoc(t: seq<Layer>, ts: seq<Transition>, tr: Transition, p: Params, sizes: seq<nat>, cols: nat)
    requires Shaped(t, sizes, cols) && |t| > 0
    requires forall k :: 0 <= k < |ts| ==> InTable(ts[k], sizes, cols)
    requires InTable(tr, sizes, cols)
    ensures forall k :: 0 <= k < |ts + [tr]| ==> InTable((ts + [tr])[k], sizes, cols)
    ensures QEpisode(t, ts + [tr], p, sizes, cols) == QStep(QEpisode(t, ts, p, sizes, cols), tr.s, tr.a, tr.r, tr.s2, p, sizes, cols)
  {
    assert (ts + [tr])[..|ts|] == ts;
  }

  /** Each action of a CMACQ run is the epsilon-greedy choice on the summed rows of the
      layers as the earlier steps left them. */
  predicate QChoices(t0: seq<Layer>, ts: seq<Transition>, p: Params, epsilon: real, draws: nat -> Draw,
                     sizes: seq<nat>, cols: nat)
    requires Shaped(t0, sizes, cols) && |t0| > 0 && cols > 0
    requires forall k :: 0 <= k < |ts| ==> InTable(ts[k], sizes, cols)
    decreases |ts|
  {
    |ts| == 0 ||
    var prev, tr := ts[..|ts| - 1], ts[|ts| - 1];
    assert InTable(tr, sizes, cols);
    && QChoices(t0, prev, p, epsilon, draws, sizes, cols)
    && ChosenOn(Qs(QEpisode(t0, prev, p, sizes, cols)), tr, epsilon, draws(|prev|), sizes, cols)
  }

  /** The action of a step is the epsilon-greedy choice on the summed rows its codes
      select in the tables. */
  predicate ChosenOn(tables: seq<seq<seq<real>>>, tr: Transition, epsilon: real, d: Draw, sizes: seq<nat>, cols: nat)
    requires TablesShaped(tables, sizes, cols) && InTable(tr, sizes, cols) && cols > 0
  {
    tr.a == Choose(SummedRow(tables, tr.s, cols), true, epsilon, d)
  }

  /** What a CMACQ episode promises of its steps: a walk from obs0 on which every step
      but the last left the episode running, each action chosen on the layers the
      earlier steps left. */
  predicate QRun(w: Setup, obs0: seq<real>, before: nat, t0: seq<Layer>, ts: seq<Transition>, p: Params,
                 epsilon: real, draws: nat -> Draw)
    requires w.Ok() && Shaped(t0, Sizes(w.c), Cols(w))
  {
    && (forall k :: 0 <= k < |ts| ==> InTable(ts[k], Sizes(w.c), Cols(w)))
    && Walk(w, obs0, ts)
    && RunsOn(w, ts, before)
    && QChoices(t0, ts, p, epsilon, draws, Sizes(w.c), Cols(w))
  }

  /** The state of a CMACQ episode after the steps ts: the run so far, the layers it
      made, the states recorded after `steps0` and the observation reached. */
  predicate QLoop(w: Setup, obs0: seq<real>, steps0: seq<EnvState>, t0: seq<Layer>, ts: seq<Transition>, p: Params,
                  epsilon: real, draws: nat -> Draw, tables: seq<Layer>, steps: seq<EnvState>, obs: seq<real>)
    requires w.Ok() && Shaped(t0, Sizes(w.c), Cols(w))
  {
    && QRun(w, obs0, |steps0|, t0, ts, p, epsilon, draws)
    && tables == QEpisode(t0, ts, p, Sizes(w.c), Cols(w))
    && steps == steps0 + NextStates(ts)
    && obs == Here(obs0, ts)
  }

  /** A CMACQ episode grows by the move it makes from where it stands with the action
      chosen on its layers, learning on the step and recording the new state. */
  lemma QLoopExtend(w: Setup, obs0: seq<real>, steps0: seq<EnvState>, t0: seq<Layer>, ts: seq<Transition>,
                    tr: Transition, p: Params, epsilon: real, draws: nat -> Draw, tables: seq<Layer>,
                    steps: seq<EnvState>, tables': seq<Layer>, steps': seq<EnvState>)
    requires w.Ok() && Shaped(t0, Sizes(w.c), Cols(w))
    requires QLoop(w, obs0, steps0, t0, ts, p, epsilon, draws, tables, steps, tr.obs)
    requires Continues(w, ts, |steps0|) && Moves(w, tr)
    requires tr.a == Choose(SummedRow(Qs(tables), tr.s, Cols(w)), true, epsilon, draws(|ts|))
    requires tables' == QStep(tables, tr.s, tr.a, tr.r, tr.s2, p, Sizes(w.c), Cols(w))
    requires steps' == steps + [Codes(tr.s2)]
    ensures QLoop(w, obs0, steps0, t0, ts + [tr], p, epsilon, draws, tables', steps', tr.obs2)
  {
    MovesInTable(w, tr);
    QRunExtend(w, obs0, |steps0|, t0, ts, tr, p, epsilon, draws);
    QEpisodeSnoc(t0, ts, tr, p, Sizes(w.c), Cols(w));
    StepsSnoc(steps0, ts, tr, steps, steps');
  }

  lemma QChoicesExtend(t0: seq<Layer>, ts: seq<Transition>, tr: Transition, p: Params, epsilon: real,
                       draws: nat -> Draw, sizes: seq<nat>, cols: nat)
    requires Shaped(t0, sizes, cols) && |t0| > 0 && cols > 0
    requires forall k :: 0 <= k < |ts| ==> InTable(ts[k], sizes, cols)
    requires InTable(tr, sizes, cols) && QChoices(t0, ts, p, epsilon, draws, sizes, cols)
    requires ChosenOn(Qs(QEpisode(t0, ts, p, sizes, cols)), tr, epsilon, draws(|ts|), sizes, cols)
    ensures forall k :: 0 <= k < |ts + [tr]| ==> InTable((ts + [tr])[k], sizes, cols)
    ensures QChoices(t0, ts + [tr], p, epsilon, draws, sizes, cols)
  {
    assert (ts + [tr])[..|ts|] == ts;
  }

  /** A CMACQ run grows by a move from where it ended whose action is the choice on
      the current layers, when its last step left the episode running. */
  lemma QRunExtend(w: Setup, obs0: seq<real>, before: nat, t0: seq<Layer>, ts: seq<Transition>, tr: Transition,
                   p: Params, epsilon: real, draws: nat -> Draw)
    requires w.Ok() && Shaped(t0, Sizes(w.c), Cols(w))
    requires QRun(w, obs0, before, t0, ts, p, epsilon, draws) && Continues(w, ts, before)
    requires tr.obs == Here(obs0, ts) && Moves(w, tr) && InTable(tr, Sizes(w.c), Cols(w))
    requires tr.a == Choose(SummedRow(Qs(QEpisode(t0, ts, p, Sizes(w.c), Cols(w))), tr.s, Cols(w)), true, epsilon, draws(|ts|))
    ensures QRun(w, obs0, before, t0, ts + [tr], p, epsilon, draws)
  {
    WalkExtend(w, obs0, before, ts, tr);
    QChoicesExtend(t0, ts, tr, p, epsilon, draws, Sizes(w.c), Cols(w));
  }

  /** The tables of `np.zeros((len(states), len(actions)))` per layer. */
  function ZeroLayers(sizes: seq<nat>, cols: nat): (tables: seq<seq<seq<real>>>)
    ensures TablesShaped(tables, sizes, cols)
  {
    ConstantTables(sizes, cols, 0.0)
  }

  /** Fresh zero traces for the tables, as `[np.zeros(q.shape) for q in self.q]`. */
  method NewTraces(q: seq<array2<real>>) returns (e: seq<array2<real>>)
    requires Distinct(q)
    ensures TracesFit(q, e) && forall l :: 0 <= l < |e| ==> fresh(e[l])
    ensures forall l :: 0 <= l < |e| ==> Rows(e[l]) == Zero(q[l].Length0, q[l].Length1)
  {
    e := [];
    for l := 0 to |q|
      invariant |e| == l && Distinct(e)
      invariant forall k :: 0 <= k < l ==> fresh(e[k]) && e[k].Length0 == q[k].Length0 && e[k].Length1 == q[k].Length1
      invariant forall k :: 0 <= k < l ==> Rows(e[k]) == Zero(q[k].Length0, q[k].Length1)
    {
      var t := Matrices.NewTable(q[l].Length0, q[l].Length1, 0.0);
      e := e + [t];
    }
  }

  /** An all-zero table, for fresh traces. */
  function Zero(rows: nat, cols: nat): (m: seq<seq<real>>)
    ensures IsMatrix(m, rows, cols)
  {
    Constant(rows, cols, 0.0)
  }

  /** Layers made of the tables' values and zero traces. */
  function WithZeroTraces(tables: seq<seq<seq<real>>>): (ls: seq<Layer>)
    ensures |ls| == |tables| && forall l :: 0 <= l < |ls| ==> ls[l].q == tables[l]
  {
    seq(|tables|, l requires 0 <= l < |tables| =>
      Layer(tables[l], Zero(|tables[l]|, if |tables[l]| > 0 then |tables[l][0]| else 0)))
  }

  /** `np.where(x == x.max())[0]` of the rows a state selects, summed: the actions whose
      summed value is at least every action's, in ascending order; never empty. */
  function GreedyOf(tables: seq<seq<seq<real>>>, s: seq<int>, cols: nat): (g: seq<nat>)
    requires cols > 0
    requires |s| == |tables| && forall l :: 0 <= l < |s| ==> 0 <= s[l] < |tables[l]| && |tables[l][s[l]]| == cols
    ensures |g| > 0 && forall t, u :: 0 <= t < u < |g| ==> g[t] < g[u]
    ensures forall t :: 0 <= t < |g| ==> g[t] < cols
    ensures forall a :: a in g <==> 0 <= a < cols && SummedGreedy(SelectedRows(tables, s), a, cols)
  {
    SummedGreedySet(tables, s, cols);
    var g := ArgMax(SummedRow(tables, s, cols));
    assert forall t :: 0 <= t < |g| ==> g[t] in g;
    g
  }

  /** The greedy set is the arg-max of the summed rows. */
  lemma GreedyOfIsArgMax(tables: seq<seq<seq<real>>>, s: seq<int>, cols: nat)
    requires cols > 0
    requires |s| == |tables| && forall l :: 0 <= l < |s| ==> 0 <= s[l] < |tables[l]| && |tables[l][s[l]]| == cols
    ensures GreedyOf(tables, s, cols) == ArgMax(SummedRow(tables, s, cols))
  {
  }

  /** The action `get_action` picks from the greedy set of a state: any action when
      exploring, else a greedy one. */
  lemma ChooseIsGetAction(tables: seq<seq<seq<real>>>, s: seq<int>, cols: nat, epsilon: real, d: Draw)
    requires cols > 0
    requires |s| == |tables| && forall l :: 0 <= l < |s| ==> 0 <= s[l] < |tables[l]| && |tables[l][s[l]]| == cols
    ensures GetAction(true, epsilon, cols, GreedyOf(tables, s, cols), d) == Choose(SummedRow(tables, s, cols), true, epsilon, d)
  {
  }

  /** The environment holds the CMAC approximator c, which codes its observations. */
  ghost predicate Holds(env: Environment, c: CmacApproximator)
    reads env
  {
    env.Valid() && env.approximator == Some(CmacApx(c)) && Setup(env.kind, env.dynamics, env.maxSteps, c).Ok()
  }

  /** The codes `state` gives while the environment holds c. */
  lemma StateCodes(env: Environment, c: CmacApproximator)
    requires Holds(env, c)
    ensures env.state == Codes(CodesOf(c, env.observation))
  {
  }

  /** `do_action(a)`, then reading `reward` and `state`: the environment makes the move
      a selects from where it stands and records the new codes. */
  method ActOn(env: Environment, c: CmacApproximator, a: nat, ghost q: seq<array2<real>>, ghost e: seq<array2<real>>)
    returns (r: real, s2: seq<int>)
    requires Holds(env, c) && a < |ContinuousActions(env.kind)| && |e| == |q|
    modifies env`observation, env`state, env`steps
    ensures Holds(env, c) && Layers(q, e) == old(Layers(q, e))
    ensures Moves(Setup(env.kind, env.dynamics, env.maxSteps, c),
                  Transition(old(env.observation), CodesOf(c, old(env.observation)), a, r, env.observation, s2))
    ensures env.steps == old(env.steps) + [Codes(s2)]
  {
    var _ := env.DoAction(a);
    r := Reward(env.kind, env.observation);
    s2 := env.state.codes;
  }

  /** CMACQ on a CMAC-approximated continuous environment. */
  class CmacQ {
    const env: Environment
    const cmac: CmacApproximator
    const lambd: real
    const epsilon: real
    const gamma: real
    const alpha: real
    /** One action-value table per layer. */
    const q: seq<array2<real>>
    var stepsPerEpisode: seq<nat>

    ghost predicate Valid()
      reads this, env
    {
      && Holds(env, cmac)
      && TablesFit(q, Sizes(cmac), Cols(W())) && |q| > 0 && Distinct(q)
    }

    function W(): Setup {
      Setup(env.kind, env.dynamics, env.maxSteps, cmac)
    }

    function P(): Params {
      Params(alpha, 0.0, gamma, lambd)
    }

    /** `CMACQ(environment, lambd, epsilon, gamma, alpha)`: the environment must hold a
        CMAC approximator (the setter's TypeError otherwise); one zero table per layer,
        over the layer's possible states and the actions. */
    constructor (environment: Environment, lambd: real, epsilon: real, gamma: real, alpha: real)
      requires environment.Valid()
      requires Compatibility.SetEnvironment(Compatibility.CmacFamily, Compatibility.ContinuousView(environment.approximator)).Ok?
      ensures Valid() && env == environment && cmac == environment.approximator.value.cmac
      ensures this.lambd == lambd && this.epsilon == epsilon && this.gamma == gamma && this.alpha == alpha
      ensures forall l :: 0 <= l < |q| ==> fresh(q[l])
      ensures Values(q) == ZeroLayers(Sizes(cmac), Cols(W()))
      ensures stepsPerEpisode == []
    {
      env := environment;
      var c := environment.approximator.value.cmac;
      cmac := c;
      this.lambd := lambd;
      this.epsilon := epsilon;
      this.gamma := gamma;
      this.alpha := alpha;
      var tables := NewTables(Sizes(c), |ContinuousActions(environment.kind)|, 0.0);
      q := tables;
      stepsPerEpisode := [];
    }

    /** `get_greedy_actions(s)` on the summed rows of the layers' tables. */
    function GreedyActions(s: seq<int>): (g: seq<nat>)
      reads this, q
      requires cmac.Valid() && TablesFit(q, Sizes(cmac), Cols(W())) && InLayers(s, Sizes(cmac))
      ensures g == GreedyOf(Values(q), s, Cols(W()))
    {
      GreedyOf(Values(q), s, |ContinuousActions(env.kind)|)
    }

    /** `get_action()`: the epsilon-greedy choice at the codes s. */
    method ChooseAction(s: seq<int>, d: Draw) returns (a: nat)
      requires Valid() && InLayers(s, Sizes(cmac))
      ensures a == Choose(SummedRow(Values(q), s, Cols(W())), true, epsilon, d)
    {
      a := GetAction(true, epsilon, |env.Actions()|, GreedyActions(s), d);
      ChooseIsGetAction(Values(q), s, Cols(W()), epsilon, d);
    }

    /** The learning step of `run_learning_episode` after action a took the agent from
        the codes s to s2 with reward r. */
    method Update(e: seq<array2<real>>, s: seq<int>, a: nat, r: real, s2: seq<int>)
      requires Valid() && TracesFit(q, e)
      requires InLayers(s, Sizes(cmac)) && InLayers(s2, Sizes(cmac)) && a < Cols(W())
      modifies q, e
      ensures Valid() && TracesFit(q, e) && unchanged(env)
      ensures Layers(q, e) == QStep(old(Layers(q, e)), s, a, r, s2, P(), Sizes(cmac), Cols(W()))
    {
      var delta := QDeltas(Layers(q, e), s, a, r, s2, gamma);
      var rate := alpha / |q| as real;
      assert rate == LayerRate(alpha, |q|);
      var decay := gamma * lambd;
      assert decay == Decay(P());
      LayersTdUpdateInPlace(q, e, s, a, rate, delta, decay, lambd > 0.0);
    }

    /** The state of `run_learning_episode` after the steps ts of an episode that
        started at the observation obs0 with the record steps0 and the layers t0. */
    ghost predicate InEpisode(e: seq<array2<real>>, t0: seq<Layer>, ts: seq<Transition>, obs0: seq<real>,
                              steps0: seq<EnvState>, draws: nat -> Draw)
      reads this, env, q, e
    {
      && Valid() && TracesFit(q, e) && Shaped(t0, Sizes(cmac), Cols(W()))
      && QLoop(W(), obs0, steps0, t0, ts, P(), epsilon, draws, Layers(q, e), env.steps, env.observation)
    }

    /** Choose an action epsilon-greedily at the current codes and act. */
    method Act(ghost e: seq<array2<real>>, d: Draw) returns (s: seq<int>, a: nat, r: real, s2: seq<int>)
      requires Valid() && |e| == |q|
      modifies env`observation, env`state, env`steps
      ensures Valid() && Layers(q, e) == old(Layers(q, e))
      ensures Moves(W(), Transition(old(env.observation), s, a, r, env.observation, s2))
      ensures InTable(Transition(old(env.observation), s, a, r, env.observation, s2), Sizes(cmac), Cols(W()))
      ensures env.steps == old(env.steps) + [Codes(s2)]
      ensures a == Choose(SummedRow(old(Values(q)), s, Cols(W())), true, epsilon, d)
    {
      StateCodes(env, cmac);
      s := env.state.codes;
      a := ChooseAction(s, d);
      r, s2 := ActOn(env, cmac, a, q, e);
      MovesInTable(W(), Transition(old(env.observation), s, a, r, env.observation, s2));
    }

    /** Halfway through a pass of the loop of `run_learning_episode`: the step tr from
        the state of the episode ts (whose record was steps) has been taken with the
        action chosen on the tables, which are not yet updated. */
    ghost predicate Acted(e: seq<array2<real>>, t0: seq<Layer>, ts: seq<Transition>, tr: Transition, obs0: seq<real>,
                          steps0: seq<EnvState>, draws: nat -> Draw, steps: seq<EnvState>)
      reads this, env, q, e
    {
      && Valid() && TracesFit(q, e) && Shaped(t0, Sizes(cmac), Cols(W()))
      && QLoop(W(), obs0, steps0, t0, ts, P(), epsilon, draws, Layers(q, e), steps, tr.obs)
      && Continues(W(), ts, |steps0|) && Moves(W(), tr) && InTable(tr, Sizes(cmac), Cols(W()))
      && ChosenOn(Qs(Layers(q, e)), tr, epsilon, draws(|ts|), Sizes(cmac), Cols(W()))
      && env.steps == steps + [Codes(tr.s2)] && env.observation == tr.obs2
    }

    /** The acting half of a pass of the loop of `run_learning_episode`. */
    method ActStep(e: seq<array2<real>>, ghost t0: seq<Layer>, ghost ts: seq<Transition>, ghost obs0: seq<real>,
                   ghost steps0: seq<EnvState>, draws: nat -> Draw, n: nat)
      returns (s: seq<int>, a: nat, r: real, s2: seq<int>, ghost tr: Transition, ghost steps: seq<EnvState>)
      requires InEpisode(e, t0, ts, obs0, steps0, draws) && n == |ts| && Continues(W(), ts, |steps0|)
      modifies env`observation, env`state, env`steps
      ensures Acted(e, t0, ts, tr, obs0, steps0, draws, steps)
      ensures tr.s == s && tr.a == a && tr.r == r && tr.s2 == s2
    {
      ghost var tables, obs, vals := Layers(q, e), env.observation, Values(q);
      steps := env.steps;
      assert Qs(tables) == vals;
      s, a, r, s2 := Act(e, draws(n));
      tr := Transition(obs, s, a, r, env.observation, s2);
      assert Layers(q, e) == tables;
    }

    /** The learning half of a pass of the loop of `run_learning_episode`: the episode
        grows by the step taken. */
    method LearnStep(e: seq<array2<real>>, ghost t0: seq<Layer>, ghost ts: seq<Transition>, ghost tr: Transition,
                     ghost obs0: seq<real>, ghost steps0: seq<EnvState>, draws: nat -> Draw, ghost steps: seq<EnvState>,
                     s: seq<int>, a: nat, r: real, s2: seq<int>)
      requires Acted(e, t0, ts, tr, obs0, steps0, draws, steps)
      requires tr.s == s && tr.a == a && tr.r == r && tr.s2 == s2
      modifies q, e
      ensures InEpisode(e, t0, ts + [tr], obs0, steps0, draws)
      ensures |env.steps| == |steps0| + |ts| + 1
      ensures env.IsDone() <==> !Continues(W(), ts + [tr], |steps0|)
    {
      ghost var tables := Layers(q, e);
      ghost var tables' := QStep(tables, s, a, r, s2, P(), Sizes(cmac), Cols(W()));
      MovesInTable(W(), tr);
      QLoopExtend(W(), obs0, steps0, t0, ts, tr, P(), epsilon, draws, tables, steps, tables', env.steps);
      assert env.IsDone() <==> !Continues(W(), ts + [tr], |steps0|);
      Update(e, s, a, r, s2);
    }

    /** One pass of the loop of `run_learning_episode`. */
    method EpisodeStep(e: seq<array2<real>>, ghost t0: seq<Layer>, ghost ts: seq<Transition>, ghost obs0: seq<real>,
                       ghost steps0: seq<EnvState>, draws: nat -> Draw, n: nat) returns (ghost tr: Transition)
      requires InEpisode(e, t0, ts, obs0, steps0, draws) && n == |ts| && Continues(W(), ts, |steps0|)
      modifies env, q, e
      ensures InEpisode(e, t0, ts + [tr], obs0, steps0, draws)
      ensures |env.steps| == |steps0| + |ts| + 1
      ensures env.IsDone() <==> !Continues(W(), ts + [tr], |steps0|)
    {
      var s, a, r, s2;
      ghost var steps;
      s, a, r, s2, tr, steps := ActStep(e, t0, ts, obs0, steps0, draws, n);
      LearnStep(e, t0, ts, tr, obs0, steps0, draws, steps, s, a, r, s2);
    }

    /** The start of `run_learning_episode`: zero traces. */
    method StartEpisode(draws: nat -> Draw) returns (e: seq<array2<real>>)
      requires Valid()
      ensures TracesFit(q, e) && forall l :: 0 <= l < |e| ==> fresh(e[l])
      ensures Layers(q, e) == WithZeroTraces(Values(q))
      ensures InEpisode(e, Layers(q, e), [], env.observation, env.steps, draws)
    {
      e := NewTraces(q);
      assert NextStates([]) == [];
    }

    /** The loop of `run_learning_episode`, up to the step after which the environment
        is done. */
    method RunSteps(e: seq<array2<real>>, ghost t0: seq<Layer>, ghost obs0: seq<real>, ghost steps0: seq<EnvState>,
                    draws: nat -> Draw) returns (ghost ts: seq<Transition>)
      requires InEpisode(e, t0, [], obs0, steps0, draws)
      modifies env, q, e
      ensures |ts| > 0 && InEpisode(e, t0, ts, obs0, steps0, draws) && env.IsDone()
    {
      ts := [];
      var n: nat := 0;
      while true
        invariant n == |ts| && InEpisode(e, t0, ts, obs0, steps0, draws) && Continues(W(), ts, |steps0|)
        invariant |env.steps| == |steps0| + n
        decreases env.maxSteps - |env.steps|
      {
        ghost var tr := EpisodeStep(e, t0, ts, obs0, steps0, draws, n);
        ts := ts + [tr];
        n := n + 1;
        if env.IsDone() {
          return;
        }
      }
    }

    /** `run_learning_episode`: from fresh traces, choose an action epsilon-greedily,
        act, learn from the step, until the environment is done.  The returned steps
        are the episode's walk; the tables are the CMACQ run over them. */
    method RunLearningEpisode(draws: nat -> Draw) returns (ghost ts: seq<Transition>)
      requires Valid()
      modifies env, q
      ensures Valid() && env.IsDone()
      ensures |ts| > 0 && env.steps == old(env.steps) + NextStates(ts) && env.observation == ts[|ts| - 1].obs2
      ensures QRun(W(), old(env.observation), |old(env.steps)|, WithZeroTraces(old(Values(q))), ts, P(), epsilon, draws)
      ensures Values(q) == Qs(QEpisode(WithZeroTraces(old(Values(q))), ts, P(), Sizes(cmac), Cols(W())))
    {
      var e := StartEpisode(draws);
      ts := RunSteps(e, Layers(q, e), env.observation, env.steps, draws);
    }

    /** The body of the loop of `learn`: clear the environment, run an episode and
        give the number of steps it took. */
    method ClearAndRun(draws: nat -> Draw) returns (length: nat)
      requires Valid()
      modifies env, q
      ensures Valid()
      ensures length == |env.steps| && 1 <= length && (length == 1 || length <= env.maxSteps)
    {
      env.Clear();
      ghost var ts := RunLearningEpisode(draws);
      length := |env.steps|;
      assert RunsOn(W(), ts, 0);
      if |ts| > 1 {
        assert !Done(IsStateAbsorbing(env.kind, ts[|ts| - 2].obs2), |ts| - 1, env.maxSteps);
      }
    }

    /** `learn`: per episode, clear the environment, run the episode and record its
        length; with `stop`, quit after the first episode that makes the record count
        as learned.  `draws(i)` are the random draws of episode i. */
    method Learn(nEpisodes: int, stop: bool, lte: ExtReal, gte: ExtReal, w: int, draws: nat -> nat -> Draw)
      requires Valid()
      modifies this, env, q
      ensures Valid()
      ensures LearnOutcome(old(stepsPerEpisode), stepsPerEpisode, nEpisodes, stop, lte, gte, w)
      ensures Classic.EpisodeLengths(stepsPerEpisode[|old(stepsPerEpisode)|..], env.maxSteps)
      ensures |stepsPerEpisode| > |old(stepsPerEpisode)| ==> stepsPerEpisode[|stepsPerEpisode| - 1] == |env.steps|
    {
      ghost var before := stepsPerEpisode;
      ghost var record := stepsPerEpisode;
      var i: nat := 0;
      while i < nEpisodes
        invariant Valid() && i <= if nEpisodes > 0 then nEpisodes else 0
        invariant stepsPerEpisode == record
        invariant LearnProgress(before, record, i, stop, lte, gte, w)
        invariant Classic.EpisodeLengths(record[|before|..], env.maxSteps)
        invariant |record| > |before| ==> record[|record| - 1] == |env.steps|
      {
        var length := ClearAndRun(draws(i));
        Classic.EpisodeLengthsSnoc(|before|, record, length, env.maxSteps);
        record := record + [length];
        stepsPerEpisode := stepsPerEpisode + [length];
        if stop && IsLearned(stepsPerEpisode, lte, gte, w) {
          LearnStopped(before, record, i, nEpisodes, stop, lte, gte, w);
          return;
        }
        LearnProgressStep(before, record, i, stop, lte, gte, w);
        i := i + 1;
      }
      LearnProgressOutcome(before, record, i, nEpisodes, stop, lte, gte, w);
    }
  }
}
