/** The table-based algorithms of algorithm/classic.py: AHC (actor-critic with a value
    vector V and preferences mi), Q-learning, SARSA and R-learning (average reward rho).
    Each learning step is first a function on table values, whose lemmas say which
    entries change and by how much; the classes then run the steps in place on arrays
    over a grid environment. */
module Classic {
  import opened Wrappers
  import opened ExtReals
  import opened Matrices
  import opened Learning
  import opened Models
  import opened Environments

  /** One learning step: state, chosen action, reward, next state. */
  datatype Transition = Transition(s: nat, a: nat, r: real, s2: nat)

  /** A SARSA step also names the action chosen for the next state. */
  datatype SarsaTransition = SarsaTransition(s: nat, a: nat, r: real, s2: nat, a2: nat)

  /** A Q table with its eligibility traces. */
  datatype QTables = QTables(q: seq<seq<real>>, e: seq<seq<real>>)

  predicate Shaped(t: QTables, rows: nat, cols: nat) {
    IsMatrix(t.q, rows, cols) && IsMatrix(t.e, rows, cols)
  }

  /** 1 at the visited entry, 0 elsewhere. */
  function Unit(i: nat, j: nat, s: nat, a: nat): real {
    if i == s && j == a then 1.0 else 0.0
  }

  /** Applying an error-scaled step `step` at (s, a).  With traces, `e[s, a] += 1`, the
      whole table moves by `step * e`, then every trace is multiplied by `decay`.
      Without, only `q[s, a]` moves by `step` and the traces stay. */
  function TdUpdate(t: QTables, s: nat, a: nat, step: real, decay: real, traced: bool): (u: QTables)
    requires s < |t.q| && a < |t.q[s]| && SameShape(t.q, t.e)
    ensures SameShape(u.q, t.q) && SameShape(u.e, t.e)
  {
    if traced then
      var e1 := Bump(t.e, s, a, 1.0);
      QTables(AddScaled(t.q, step, e1), Scaled(e1, decay))
    else QTables(Bump(t.q, s, a, step), t.e)
  }

  /** How entry (i, j) of a table and its trace move in a step at (s, a): untraced,
      the traces stay and only (s, a) moves, by `step`; traced, the entry moves by
      `step` times its bumped trace and the trace becomes the bumped trace times
      `decay`. */
  predicate EntryMoves(t: QTables, u: QTables, s: nat, a: nat, step: real, decay: real, traced: bool, i: nat, j: nat) {
    && i < |t.q| && i < |t.e| && i < |u.q| && i < |u.e|
    && j < |t.q[i]| && j < |t.e[i]| && j < |u.q[i]| && j < |u.e[i]|
    && (!traced ==> u.e == t.e)
    && (!traced ==> u.q[i][j] == if (i, j) == (s, a) then t.q[i][j] + step else t.q[i][j])
    && (traced ==> u.q[i][j] == t.q[i][j] + step * (t.e[i][j] + Unit(i, j, s, a)))
    && (traced ==> u.e[i][j] == decay * (t.e[i][j] + Unit(i, j, s, a)))
  }

  /** Every entry of a step's result moves as `EntryMoves` says. */
  lemma TdUpdateEntry(t: QTables, s: nat, a: nat, step: real, decay: real, traced: bool, i: nat, j: nat)
    requires s < |t.q| && a < |t.q[s]| && SameShape(t.q, t.e)
    requires i < |t.q| && j < |t.q[i]|
    ensures EntryMoves(t, TdUpdate(t, s, a, step, decay, traced), s, a, step, decay, traced, i, j)
  {
  }

  /** From traces that are all zero, the first traced step moves the table exactly as
      the untraced step does. */
  lemma TracedFirstStepIsPlain(t: QTables, s: nat, a: nat, step: real, decay: real)
    requires s < |t.q| && a < |t.q[s]| && SameShape(t.q, t.e)
    requires forall i, j :: 0 <= i < |t.e| && 0 <= j < |t.e[i]| ==> t.e[i][j] == 0.0
    ensures TdUpdate(t, s, a, step, decay, true).q == TdUpdate(t, s, a, step, decay, false).q
  {
    var traced := TdUpdate(t, s, a, step, decay, true).q;
    var plain := TdUpdate(t, s, a, step, decay, false).q;
    forall i | 0 <= i < |t.q| ensures traced[i] == plain[i] {
      forall j | 0 <= j < |t.q[i]| ensures traced[i][j] == plain[i][j] {
        TdUpdateEntry(t, s, a, step, decay, true, i, j);
        TdUpdateEntry(t, s, a, step, decay, false, i, j);
        if (i, j) == (s, a) {
          assert traced[i][j] == t.q[i][j] + step * (0.0 + 1.0);
        } else {
          assert traced[i][j] == t.q[i][j] + step * (0.0 + 0.0);
        }
      }
    }
  }

  /** Repeated traced steps at the same entry: the trace there is `decay * (e + 1)`, so
      starting from 0 it follows 0, decay, decay * (decay + 1), ... and stays 0 where
      no step visits. */
  lemma TracesAwayFromVisit(t: QTables, s: nat, a: nat, step: real, decay: real, i: nat, j: nat)
    requires s < |t.q| && a < |t.q[s]| && SameShape(t.q, t.e)
    requires i < |t.q| && j < |t.q[i]| && (i, j) != (s, a) && t.e[i][j] == 0.0
    ensures TdUpdate(t, s, a, step, decay, true).e[i][j] == 0.0
    ensures TdUpdate(t, s, a, step, decay, true).q[i][j] == t.q[i][j]
  {
    TdUpdateEntry(t, s, a, step, decay, true, i, j);
  }

  // ---------------------------------------------------------------------------------
  // Q-learning

  /** `delta = r + gamma * Q[s_, :].max() - Q[s, a]`. */
  function QDelta(q: seq<seq<real>>, tr: Transition, gamma: real): real
    requires tr.s < |q| && tr.s2 < |q| && |q[tr.s2]| > 0 && tr.a < |q[tr.s]|
  {
    tr.r + gamma * Max(q[tr.s2]) - q[tr.s][tr.a]
  }

  /** The error-scaled step `alpha * delta` of a Q-learning update. */
  function QStepSize(t: QTables, tr: Transition, p: Params): real
    requires tr.s < |t.q| && tr.s2 < |t.q| && |t.q[tr.s2]| > 0 && tr.a < |t.q[tr.s]|
  {
    p.alpha * QDelta(t.q, tr, p.gamma)
  }

  /** One Q-learning step. */
  function QStep(t: QTables, tr: Transition, p: Params): (u: QTables)
    requires tr.s < |t.q| && tr.s2 < |t.q| && |t.q[tr.s2]| > 0 && tr.a < |t.q[tr.s]| && SameShape(t.q, t.e)
    ensures SameShape(u.q, t.q) && SameShape(u.e, t.e)
  {
    TdUpdate(t, tr.s, tr.a, QStepSize(t, tr, p), Decay(p), p.lambd > 0.0)
  }

  /** With lambda = 0 a Q-learning step changes only Q[s, a], by alpha * delta; with
      lambda > 0 the visited trace is bumped, every entry moves by alpha * delta times
      its trace, and every trace decays by gamma * lambda. */
  lemma QStepUpdates(t: QTables, tr: Transition, p: Params, i: nat, j: nat)
    requires tr.s < |t.q| && tr.s2 < |t.q| && |t.q[tr.s2]| > 0 && tr.a < |t.q[tr.s]| && SameShape(t.q, t.e)
    requires i < |t.q| && j < |t.q[i]|
    ensures EntryMoves(t, QStep(t, tr, p), tr.s, tr.a, QStepSize(t, tr, p), Decay(p), p.lambd > 0.0, i, j)
  {
    TdUpdateEntry(t, tr.s, tr.a, QStepSize(t, tr, p), Decay(p), p.lambd > 0.0, i, j);
  }

  predicate InTable(tr: Transition, rows: nat, cols: nat) {
    tr.s < rows && tr.s2 < rows && tr.a < cols
  }

  /** The tables after a run of Q-learning steps. */
  function QEpisode(t: QTables, ts: seq<Transition>, p: Params, rows: nat, cols: nat): (u: QTables)
    requires Shaped(t, rows, cols) && cols > 0
    requires forall k :: 0 <= k < |ts| ==> InTable(ts[k], rows, cols)
    ensures Shaped(u, rows, cols)
    decreases |ts|
  {
    if |ts| == 0 then t
    else
      var before := QEpisode(t, ts[..|ts| - 1], p, rows, cols);
      assert InTable(ts[|ts| - 1], rows, cols);
      QStep(before, ts[|ts| - 1], p)
  }

  // ---------------------------------------------------------------------------------
  // SARSA

  /** `delta = r + gamma * Q[s_, a_] - Q[s, a]`. */
  function SarsaDelta(q: seq<seq<real>>, tr: SarsaTransition, gamma: real): real
    requires tr.s < |q| && tr.s2 < |q| && tr.a < |q[tr.s]| && tr.a2 < |q[tr.s2]|
  {
    tr.r + gamma * q[tr.s2][tr.a2] - q[tr.s][tr.a]
  }

  /** The error-scaled step `alpha * delta` of a SARSA update. */
  function SarsaStepSize(t: QTables, tr: SarsaTransition, p: Params): real
    requires tr.s < |t.q| && tr.s2 < |t.q| && tr.a < |t.q[tr.s]| && tr.a2 < |t.q[tr.s2]|
  {
    p.alpha * SarsaDelta(t.q, tr, p.gamma)
  }

  /** One SARSA step: the Q-learning update driven by the value of the action actually
      chosen next. */
  function SarsaStep(t: QTables, tr: SarsaTransition, p: Params): (u: QTables)
    requires tr.s < |t.q| && tr.s2 < |t.q| && tr.a < |t.q[tr.s]| && tr.a2 < |t.q[tr.s2]| && SameShape(t.q, t.e)
    ensures SameShape(u.q, t.q) && SameShape(u.e, t.e)
  {
    TdUpdate(t, tr.s, tr.a, SarsaStepSize(t, tr, p), Decay(p), p.lambd > 0.0)
  }

  /** A SARSA step changes the tables as a Q-learning step does, with the error taken
      from the value of the next chosen action instead of the best one. */
  lemma SarsaStepUpdates(t: QTables, tr: SarsaTransition, p: Params, i: nat, j: nat)
    requires tr.s < |t.q| && tr.s2 < |t.q| && tr.a < |t.q[tr.s]| && tr.a2 < |t.q[tr.s2]| && SameShape(t.q, t.e)
    requires i < |t.q| && j < |t.q[i]|
    ensures EntryMoves(t, SarsaStep(t, tr, p), tr.s, tr.a, SarsaStepSize(t, tr, p), Decay(p), p.lambd > 0.0, i, j)
  {
    TdUpdateEntry(t, tr.s, tr.a, SarsaStepSize(t, tr, p), Decay(p), p.lambd > 0.0, i, j);
  }

  predicate SarsaInTable(tr: SarsaTransition, rows: nat, cols: nat) {
    tr.s < rows && tr.s2 < rows && tr.a < cols && tr.a2 < cols
  }

  function SarsaEpisode(t: QTables, ts: seq<SarsaTransition>, p: Params, rows: nat, cols: nat): (u: QTables)
    requires Shaped(t, rows, cols)
    requires forall k :: 0 <= k < |ts| ==> SarsaInTable(ts[k], rows, cols)
    ensures Shaped(u, rows, cols)
    decreases |ts|
  {
    if |ts| == 0 then t
    else
      var before := SarsaEpisode(t, ts[..|ts| - 1], p, rows, cols);
      assert SarsaInTable(ts[|ts| - 1], rows, cols);
      SarsaStep(before, ts[|ts| - 1], p)
  }

  // ---------------------------------------------------------------------------------
  // R-learning

  /** Q table, traces and the average-reward estimate rho. */
  datatype RTables = RTables(q: seq<seq<real>>, e: seq<seq<real>>, rho: real)

  /** `delta = r - rho + Q[s_, :].max() - Q[s, a]`. */
  function RDelta(t: RTables, tr: Transition): real
    requires tr.s < |t.q| && tr.s2 < |t.q| && |t.q[tr.s2]| > 0 && tr.a < |t.q[tr.s]|
  {
    tr.r - t.rho + Max(t.q[tr.s2]) - t.q[tr.s][tr.a]
  }

  /** The rho update after the table update: only for a greedy action at the inspected
      state, judged on the updated table, and then by
      beta * (r - rho + max Q[s'] - max Q[s]). */
  function RhoUpdate(q: seq<seq<real>>, rho: real, tr: Transition, greedyState: nat, beta: real): (rho': real)
    requires tr.s < |q| && tr.s2 < |q| && greedyState < |q| && |q[tr.s]| > 0 && |q[tr.s2]| > 0 && |q[greedyState]| > 0
    ensures rho' != rho ==> tr.a in ArgMax(q[greedyState])
    ensures tr.a in ArgMax(q[greedyState]) ==> rho' == rho + beta * (tr.r - rho + Max(q[tr.s2]) - Max(q[tr.s]))
  {
    if tr.a in ArgMax(q[greedyState]) then rho + beta * (tr.r - rho + Max(q[tr.s2]) - Max(q[tr.s]))
    else rho
  }

  /** `get_greedy_actions(s)` as written: `s or self.environment.state`, so state 0
      stands for the environment's current state, which is s' at that point. */
  function GreedyStateAsWritten(s: nat, envState: nat): (g: nat)
    ensures s != 0 ==> g == s
    ensures s == 0 ==> g == envState
  {
    if s != 0 then s else envState
  }

  /** The error-scaled step `alpha * delta` of an R-learning update. */
  function RStepSize(t: RTables, tr: Transition, p: Params): real
    requires tr.s < |t.q| && tr.s2 < |t.q| && |t.q[tr.s2]| > 0 && tr.a < |t.q[tr.s]|
  {
    p.alpha * RDelta(t, tr)
  }

  /** The table part of an R-learning step: delta subtracts rho instead of discounting,
      and traces decay by lambda alone. */
  function RTableStep(t: RTables, tr: Transition, p: Params): (u: QTables)
    requires tr.s < |t.q| && tr.s2 < |t.q| && SameShape(t.q, t.e)
    requires |t.q[tr.s2]| > 0 && tr.a < |t.q[tr.s]|
    ensures SameShape(u.q, t.q) && SameShape(u.e, t.e)
  {
    TdUpdate(QTables(t.q, t.e), tr.s, tr.a, RStepSize(t, tr, p), p.lambd, p.lambd > 0.0)
  }

  /** One R-learning step in which the greedy test looks at `greedyState`: the tables
      move as `RTableStep` says, then rho as `RhoUpdate` says on the moved table. */
  function RStepAt(t: RTables, tr: Transition, p: Params, greedyState: nat): (u: RTables)
    requires tr.s < |t.q| && tr.s2 < |t.q| && greedyState < |t.q| && SameShape(t.q, t.e)
    requires |t.q[tr.s]| > 0 && |t.q[tr.s2]| > 0 && |t.q[greedyState]| > 0 && tr.a < |t.q[tr.s]|
    ensures SameShape(u.q, t.q) && SameShape(u.e, t.e)
    ensures u.q == RTableStep(t, tr, p).q && u.e == RTableStep(t, tr, p).e
    ensures u.rho == RhoUpdate(u.q, t.rho, tr, greedyState, p.beta)
  {
    var u := RTableStep(t, tr, p);
    assert |u.q[greedyState]| == |t.q[greedyState]|;
    RTables(u.q, u.e, RhoUpdate(u.q, t.rho, tr, greedyState, p.beta))
  }

  /** Entry by entry, the table part of an R-learning step. */
  lemma RTableStepUpdates(t: RTables, tr: Transition, p: Params, i: nat, j: nat)
    requires tr.s < |t.q| && tr.s2 < |t.q| && SameShape(t.q, t.e)
    requires |t.q[tr.s2]| > 0 && tr.a < |t.q[tr.s]|
    requires i < |t.q| && j < |t.q[i]|
    ensures EntryMoves(QTables(t.q, t.e), RTableStep(t, tr, p), tr.s, tr.a, RStepSize(t, tr, p), p.lambd, p.lambd > 0.0, i, j)
  {
    TdUpdateEntry(QTables(t.q, t.e), tr.s, tr.a, RStepSize(t, tr, p), p.lambd, p.lambd > 0.0, i, j);
  }

  /** R-learning as written: the greedy test at state 0 reads the next state. */
  function RStepAsWritten(t: RTables, tr: Transition, p: Params): (u: RTables)
    requires tr.s < |t.q| && tr.s2 < |t.q| && SameShape(t.q, t.e)
    requires |t.q[tr.s]| > 0 && |t.q[tr.s2]| > 0 && tr.a < |t.q[tr.s]|
    ensures tr.s != 0 ==> u == RStepAt(t, tr, p, tr.s)
    ensures tr.s == 0 ==> u == RStepAt(t, tr, p, tr.s2)
  {
    RStepAt(t, tr, p, GreedyStateAsWritten(tr.s, tr.s2))
  }

  /** The intended R-learning step: the greedy test is on the state the action was
      taken in. */
  function RStep(t: RTables, tr: Transition, p: Params): (u: RTables)
    requires tr.s < |t.q| && tr.s2 < |t.q| && SameShape(t.q, t.e)
    requires |t.q[tr.s]| > 0 && |t.q[tr.s2]| > 0 && tr.a < |t.q[tr.s]|
    ensures SameShape(u.q, t.q) && SameShape(u.e, t.e)
  {
    RStepAt(t, tr, p, tr.s)
  }

  /** From state 0 the as-written step consults the greedy set of s', so an action that
      is greedy at s but not at s' leaves rho unchanged where the intended step
      updates it. */
  lemma RStepAsWrittenMissesStateZero()
    ensures var t := RTables([[0.0, 0.0], [0.0, 1.0]], [[0.0, 0.0], [0.0, 0.0]], 0.0);
            var tr := Transition(0, 0, 0.0, 1);
            var p := Params(0.0, 0.5, 0.0, 0.0);
            && RStepAsWritten(t, tr, p).rho == 0.0
            && RStep(t, tr, p).rho == 0.5
  {
    var t := RTables([[0.0, 0.0], [0.0, 1.0]], [[0.0, 0.0], [0.0, 0.0]], 0.0);
    var tr := Transition(0, 0, 0.0, 1);
    var p := Params(0.0, 0.5, 0.0, 0.0);
    assert p.alpha * RDelta(t, tr) == 0.0;
    var u := TdUpdate(QTables(t.q, t.e), 0, 0, 0.0, p.lambd, false);
    assert u.q == Bump(t.q, 0, 0, 0.0);
    assert u.q == t.q by {
      assert u.q[0] == t.q[0];
    }
    ArgMaxOfConstant(t.q[0], 0.0);
    assert ArgMax(t.q[0]) == [0, 1];
    ArgMaxIsGreedySet(t.q[1]);
    assert t.q[1][1] > t.q[1][0];
    assert 0 !in ArgMax(t.q[1]);
    assert Max(t.q[1]) == 1.0;
    assert Max(t.q[0]) == 0.0;
  }

  function REpisode(t: RTables, ts: seq<Transition>, p: Params, rows: nat, cols: nat): (u: RTables)
    requires IsMatrix(t.q, rows, cols) && IsMatrix(t.e, rows, cols) && cols > 0
    requires forall k :: 0 <= k < |ts| ==> InTable(ts[k], rows, cols)
    ensures IsMatrix(u.q, rows, cols) && IsMatrix(u.e, rows, cols)
    decreases |ts|
  {
    if |ts| == 0 then t
    else
      var before := REpisode(t, ts[..|ts| - 1], p, rows, cols);
      assert InTable(ts[|ts| - 1], rows, cols);
      RStep(before, ts[|ts| - 1], p)
  }

  // ---------------------------------------------------------------------------------
  // AHC

  /** Values V, preferences mi and their two trace tables. */
  datatype AhcTables = AhcTables(v: seq<real>, mi: seq<seq<real>>, es: seq<real>, esa: seq<seq<real>>)

  predicate AhcShaped(t: AhcTables, rows: nat, cols: nat) {
    |t.v| == rows && |t.es| == rows && IsMatrix(t.mi, rows, cols) && IsMatrix(t.esa, rows, cols)
  }

  /** `delta = r + gamma * V[s_] - V[s]`. */
  function AhcDelta(v: seq<real>, tr: Transition, gamma: real): real
    requires tr.s < |v| && tr.s2 < |v|
  {
    tr.r + gamma * v[tr.s2] - v[tr.s]
  }

  /** The critic's step `alpha * delta` and the actor's step `beta * delta`. */
  function CriticStep(t: AhcTables, tr: Transition, p: Params): real
    requires tr.s < |t.v| && tr.s2 < |t.v|
  {
    p.alpha * AhcDelta(t.v, tr, p.gamma)
  }

  function ActorStep(t: AhcTables, tr: Transition, p: Params): real
    requires tr.s < |t.v| && tr.s2 < |t.v|
  {
    p.beta * AhcDelta(t.v, tr, p.gamma)
  }

  /** 1 at the visited state, 0 elsewhere. */
  function UnitV(i: nat, s: nat): real {
    if i == s then 1.0 else 0.0
  }

  /** A value vector with its eligibility traces. */
  datatype VTables = VTables(v: seq<real>, e: seq<real>)

  /** The critic's step at state s: with traces, `e[s] += 1`, the vector moves by
      `step * e` and the traces decay; without, only `v[s]` moves. */
  function TdUpdateV(t: VTables, s: nat, step: real, decay: real, traced: bool): (u: VTables)
    requires s < |t.v| && |t.e| == |t.v|
    ensures |u.v| == |t.v| && |u.e| == |t.e|
  {
    if traced then
      var e1 := t.e[s := t.e[s] + 1.0];
      VTables(AddScaledV(t.v, step, e1), ScaledV(e1, decay))
    else VTables(t.v[s := t.v[s] + step], t.e)
  }

  /** How entry i of a value vector and its trace move in a step at s. */
  predicate VEntryMoves(t: VTables, u: VTables, s: nat, step: real, decay: real, traced: bool, i: nat) {
    && i < |t.v| && i < |t.e| && i < |u.v| && i < |u.e|
    && (!traced ==> u.e == t.e)
    && (!traced ==> u.v[i] == if i == s then t.v[i] + step else t.v[i])
    && (traced ==> u.v[i] == t.v[i] + step * (t.e[i] + UnitV(i, s)))
    && (traced ==> u.e[i] == decay * (t.e[i] + UnitV(i, s)))
  }

  lemma TdUpdateVEntry(t: VTables, s: nat, step: real, decay: real, traced: bool, i: nat)
    requires s < |t.v| && |t.e| == |t.v| && i < |t.v|
    ensures VEntryMoves(t, TdUpdateV(t, s, step, decay, traced), s, step, decay, traced, i)
  {
  }

  /** The critic part (V with its state traces) and the actor part (mi with its
      state-action traces) of the AHC tables. */
  function Critic(t: AhcTables): VTables {
    VTables(t.v, t.es)
  }

  function Actor(t: AhcTables): QTables {
    QTables(t.mi, t.esa)
  }

  /** One AHC step: the critic moves by alpha * delta and the actor by beta * delta at
      the visited state and action; both trace kinds decay by gamma * lambda. */
  function AhcStep(t: AhcTables, tr: Transition, p: Params): (u: AhcTables)
    requires tr.s < |t.v| && tr.s2 < |t.v| && |t.es| == |t.v| && |t.mi| == |t.v|
    requires tr.a < |t.mi[tr.s]| && SameShape(t.mi, t.esa)
    ensures |u.v| == |t.v| && |u.es| == |t.es| && SameShape(u.mi, t.mi) && SameShape(u.esa, t.esa)
  {
    var critic := TdUpdateV(Critic(t), tr.s, CriticStep(t, tr, p), Decay(p), p.lambd > 0.0);
    var actor := TdUpdate(Actor(t), tr.s, tr.a, ActorStep(t, tr, p), Decay(p), p.lambd > 0.0);
    AhcTables(critic.v, actor.q, critic.e, actor.e)
  }

  /** The critic entry by entry: with lambda = 0 only V[s] moves, by alpha * delta, and
      the state traces stay; with lambda > 0 the trace of s is bumped, every V[i] moves
      by alpha * delta times its trace and every trace decays by gamma * lambda. */
  lemma AhcStepValue(t: AhcTables, tr: Transition, p: Params, i: nat)
    requires tr.s < |t.v| && tr.s2 < |t.v| && |t.es| == |t.v| && |t.mi| == |t.v|
    requires tr.a < |t.mi[tr.s]| && SameShape(t.mi, t.esa)
    requires i < |t.v|
    ensures VEntryMoves(Critic(t), Critic(AhcStep(t, tr, p)), tr.s, CriticStep(t, tr, p), Decay(p), p.lambd > 0.0, i)
  {
    TdUpdateVEntry(Critic(t), tr.s, CriticStep(t, tr, p), Decay(p), p.lambd > 0.0, i);
  }

  /** The actor entry by entry: with lambda = 0 only mi[s, a] moves, by beta * delta;
      with lambda > 0 the trace of (s, a) is bumped, every preference moves by
      beta * delta times its trace and every trace decays by gamma * lambda. */
  lemma AhcStepPreference(t: AhcTables, tr: Transition, p: Params, i: nat, j: nat)
    requires tr.s < |t.v| && tr.s2 < |t.v| && |t.es| == |t.v| && |t.mi| == |t.v|
    requires tr.a < |t.mi[tr.s]| && SameShape(t.mi, t.esa)
    requires i < |t.mi| && j < |t.mi[i]|
    ensures EntryMoves(Actor(t), Actor(AhcStep(t, tr, p)), tr.s, tr.a, ActorStep(t, tr, p), Decay(p), p.lambd > 0.0, i, j)
  {
    TdUpdateEntry(Actor(t), tr.s, tr.a, ActorStep(t, tr, p), Decay(p), p.lambd > 0.0, i, j);
  }

  function AhcEpisode(t: AhcTables, ts: seq<Transition>, p: Params, rows: nat, cols: nat): (u: AhcTables)
    requires AhcShaped(t, rows, cols)
    requires forall k :: 0 <= k < |ts| ==> InTable(ts[k], rows, cols)
    ensures AhcShaped(u, rows, cols)
    decreases |ts|
  {
    if |ts| == 0 then t
    else
      var before := AhcEpisode(t, ts[..|ts| - 1], p, rows, cols);
      assert InTable(ts[|ts| - 1], rows, cols);
      AhcStep(before, ts[|ts| - 1], p)
  }

  // ---------------------------------------------------------------------------------
  // Steps in place

  /** The step `TdUpdate` describes, done on the arrays of the table and its traces. */
  method TdUpdateInPlace(Q: array2<real>, E: array2<real>, s: nat, a: nat, step: real, decay: real, traced: bool)
    requires Q != E && Q.Length0 == E.Length0 && Q.Length1 == E.Length1
    requires s < Q.Length0 && a < Q.Length1
    modifies Q, E
    ensures QTables(Rows(Q), Rows(E)) == TdUpdate(QTables(old(Rows(Q)), old(Rows(E))), s, a, step, decay, traced)
  {
    if traced {
      BumpInPlace(E, s, a, 1.0);
      AddScaledInPlace(Q, step, E);
      ScaleInPlace(E, decay);
    } else {
      BumpInPlace(Q, s, a, step);
    }
  }

  /** The step `TdUpdateV` describes, done on the arrays of the vector and its traces. */
  method TdUpdateVInPlace(V: array<real>, E: array<real>, s: nat, step: real, decay: real, traced: bool)
    requires V != E && V.Length == E.Length && s < V.Length
    modifies V, E
    ensures VTables(V[..], E[..]) == TdUpdateV(VTables(old(V[..]), old(E[..])), s, step, decay, traced)
  {
    if traced {
      E[s] := E[s] + 1.0;
      AddScaledVInPlace(V, step, E);
      ScaleVInPlace(E, decay);
    } else {
      V[s] := V[s] + step;
    }
  }

  // ---------------------------------------------------------------------------------
  // Episodes on a grid environment

  /** The states an episode records, one per step. */
  function NextStates(ts: seq<Transition>): (states: seq<int>)
    ensures |states| == |ts|
    decreases |ts|
  {
    if |ts| == 0 then [] else NextStates(ts[..|ts| - 1]) + [ts[|ts| - 1].s2 as int]
  }

  lemma NextStatesSnoc(ts: seq<Transition>, tr: Transition)
    ensures NextStates(ts + [tr]) == NextStates(ts) + [tr.s2 as int]
  {
    assert (ts + [tr])[..|ts|] == ts;
  }

  lemma StepsSnoc(steps0: seq<int>, ts: seq<Transition>, tr: Transition, before: seq<int>, after: seq<int>)
    requires before == steps0 + NextStates(ts) && after == before + [tr.s2 as int]
    ensures after == steps0 + NextStates(ts + [tr])
  {
    NextStatesSnoc(ts, tr);
    assert steps0 + (NextStates(ts) + [tr.s2 as int]) == (steps0 + NextStates(ts)) + [tr.s2 as int];
  }

  /** The steps form a walk on the grid from state s0: each is a grid transition and
      starts where the previous one ended. */
  predicate Walk(g: seq<seq<real>>, walls: Option<real>, s0: int, ts: seq<Transition>)
    requires Rectangular(g) && |g| > 0 && Cols(g) > 0
    decreases |ts|
  {
    |ts| == 0 ||
    var prev, tr := ts[..|ts| - 1], ts[|ts| - 1];
    && Walk(g, walls, s0, prev)
    && tr.s == (if |prev| == 0 then s0 else prev[|prev| - 1].s2)
    && GridTransition(g, walls, tr.s, tr.a, tr.r, tr.s2)
  }

  /** An episode continues after a step exactly when the step's reward is 0 and the
      step ceiling is not reached: every step but the last left the episode running. */
  predicate RunsOn(ts: seq<Transition>, before: nat, maxSteps: int)
    decreases |ts|
  {
    |ts| <= 1 ||
    (RunsOn(ts[..|ts| - 1], before, maxSteps) && !Done(ts[|ts| - 2].r != 0.0, before + |ts| - 1, maxSteps))
  }

  /** An all-zero table of the given shape, for fresh traces. */
  function Zero(rows: nat, cols: nat): (m: seq<seq<real>>)
    ensures IsMatrix(m, rows, cols)
  {
    Constant(rows, cols, 0.0)
  }

  /** Each action of a Q-learning run is the epsilon-greedy choice on the table as the
      earlier steps left it. */
  predicate QChoices(t0: QTables, ts: seq<Transition>, p: Params, epsilon: real, draws: nat -> Draw, rows: nat, cols: nat)
    requires Shaped(t0, rows, cols) && cols > 0
    requires forall k :: 0 <= k < |ts| ==> InTable(ts[k], rows, cols)
    decreases |ts|
  {
    |ts| == 0 ||
    var prev, tr := ts[..|ts| - 1], ts[|ts| - 1];
    assert InTable(tr, rows, cols);
    && QChoices(t0, prev, p, epsilon, draws, rows, cols)
    && tr.a == Choose(QEpisode(t0, prev, p, rows, cols).q[tr.s], true, epsilon, draws(|prev|))
  }

  lemma QEpisodeSnoc(t0: QTables, ts: seq<Transition>, tr: Transition, p: Params, rows: nat, cols: nat)
    requires Shaped(t0, rows, cols) && cols > 0
    requires forall k :: 0 <= k < |ts| ==> InTable(ts[k], rows, cols)
    requires InTable(tr, rows, cols)
    ensures forall k :: 0 <= k < |ts + [tr]| ==> InTable((ts + [tr])[k], rows, cols)
    ensures QEpisode(t0, ts + [tr], p, rows, cols) == QStep(QEpisode(t0, ts, p, rows, cols), tr, p)
  {
    assert (ts + [tr])[..|ts|] == ts;
  }

  /** What a Q-learning episode on a grid promises of its steps: they are table
      transitions forming a walk from s0, every one but the last left the episode
      running, and each action was chosen on the table the earlier steps left. */
  predicate QRun(g: seq<seq<real>>, walls: Option<real>, s0: int, before: nat, maxSteps: int,
                 t0: QTables, ts: seq<Transition>, p: Params, epsilon: real, draws: nat -> Draw, rows: nat, cols: nat)
    requires Rectangular(g) && |g| > 0 && Cols(g) > 0 && Shaped(t0, rows, cols) && cols > 0
  {
    && (forall k :: 0 <= k < |ts| ==> InTable(ts[k], rows, cols))
    && Walk(g, walls, s0, ts)
    && RunsOn(ts, before, maxSteps)
    && QChoices(t0, ts, p, epsilon, draws, rows, cols)
  }

  lemma WalkExtend(g: seq<seq<real>>, walls: Option<real>, s0: int, ts: seq<Transition>, tr: Transition)
    requires Rectangular(g) && |g| > 0 && Cols(g) > 0
    requires Walk(g, walls, s0, ts)
    requires tr.s == if |ts| == 0 then s0 else ts[|ts| - 1].s2
    requires GridTransition(g, walls, tr.s, tr.a, tr.r, tr.s2)
    ensures Walk(g, walls, s0, ts + [tr])
  {
    assert (ts + [tr])[..|ts|] == ts;
  }

  lemma RunsOnExtend(ts: seq<Transition>, tr: Transition, before: nat, maxSteps: int)
    requires RunsOn(ts, before, maxSteps)
    requires |ts| > 0 ==> !Done(ts[|ts| - 1].r != 0.0, before + |ts|, maxSteps)
    ensures RunsOn(ts + [tr], before, maxSteps)
  {
    assert (ts + [tr])[..|ts|] == ts;
  }

  lemma QChoicesExtend(t0: QTables, ts: seq<Transition>, tr: Transition, p: Params, epsilon: real, draws: nat -> Draw,
                       rows: nat, cols: nat)
    requires Shaped(t0, rows, cols) && cols > 0
    requires forall k :: 0 <= k < |ts| ==> InTable(ts[k], rows, cols)
    requires InTable(tr, rows, cols)
    requires QChoices(t0, ts, p, epsilon, draws, rows, cols)
    requires tr.a == Choose(QEpisode(t0, ts, p, rows, cols).q[tr.s], true, epsilon, draws(|ts|))
    ensures forall k :: 0 <= k < |ts + [tr]| ==> InTable((ts + [tr])[k], rows, cols)
    ensures QChoices(t0, ts + [tr], p, epsilon, draws, rows, cols)
  {
    assert (ts + [tr])[..|ts|] == ts;
  }

  /** A run grows by a step that starts where the run ended, is a grid transition,
      and whose action is the choice on the current table, provided the run's last
      step left the episode running. */
  lemma QRunExtend(g: seq<seq<real>>, walls: Option<real>, s0: int, before: nat, maxSteps: int,
                   t0: QTables, ts: seq<Transition>, tr: Transition, p: Params, epsilon: real, draws: nat -> Draw,
                   rows: nat, cols: nat)
    requires Rectangular(g) && |g| > 0 && Cols(g) > 0 && Shaped(t0, rows, cols) && cols > 0
    requires QRun(g, walls, s0, before, maxSteps, t0, ts, p, epsilon, draws, rows, cols)
    requires |ts| > 0 ==> !Done(ts[|ts| - 1].r != 0.0, before + |ts|, maxSteps)
    requires tr.s == if |ts| == 0 then s0 else ts[|ts| - 1].s2
    requires InTable(tr, rows, cols) && GridTransition(g, walls, tr.s, tr.a, tr.r, tr.s2)
    requires tr.a == Choose(QEpisode(t0, ts, p, rows, cols).q[tr.s], true, epsilon, draws(|ts|))
    ensures QRun(g, walls, s0, before, maxSteps, t0, ts + [tr], p, epsilon, draws, rows, cols)
  {
    WalkExtend(g, walls, s0, ts, tr);
    RunsOnExtend(ts, tr, before, maxSteps);
    QChoicesExtend(t0, ts, tr, p, epsilon, draws, rows, cols);
  }

  /** The lengths `learn` records: every episode takes at least one step and, past
      the first step, no more than the ceiling. */
  predicate EpisodeLengths(lengths: seq<nat>, maxSteps: int) {
    forall k :: 0 <= k < |lengths| ==> 1 <= lengths[k] && (lengths[k] == 1 || lengths[k] <= maxSteps)
  }

  lemma EpisodeLengthsSnoc(from: nat, prev: seq<nat>, length: nat, maxSteps: int)
    requires from <= |prev| && EpisodeLengths(prev[from..], maxSteps)
    requires 1 <= length && (length == 1 || length <= maxSteps)
    ensures EpisodeLengths((prev + [length])[from..], maxSteps)
    ensures (prev + [length])[..|prev|] == prev
  {
    assert (prev + [length])[from..] == prev[from..] + [length];
  }

  /** The state of a Q-learning episode after the steps `ts`: what the run promised so
      far, the tables it made, the states it recorded after `steps0` and where the
      agent stands. */
  predicate QLoop(g: seq<seq<real>>, walls: Option<real>, s0: int, steps0: seq<int>, maxSteps: int,
                  t0: QTables, ts: seq<Transition>, p: Params, epsilon: real, draws: nat -> Draw, rows: nat, cols: nat,
                  tables: QTables, steps: seq<int>, state: int)
    requires Rectangular(g) && |g| > 0 && Cols(g) > 0 && Shaped(t0, rows, cols) && cols > 0
  {
    && QRun(g, walls, s0, |steps0|, maxSteps, t0, ts, p, epsilon, draws, rows, cols)
    && tables == QEpisode(t0, ts, p, rows, cols)
    && steps == steps0 + NextStates(ts)
    && state == (if |ts| == 0 then s0 else ts[|ts| - 1].s2)
  }

  /** A Q-learning episode grows by the step it takes from where it stands with the
      action chosen on its table, learning on the step and recording the new state. */
  lemma QLoopExtend(g: seq<seq<real>>, walls: Option<real>, s0: int, steps0: seq<int>, maxSteps: int,
                    t0: QTables, ts: seq<Transition>, tr: Transition, p: Params, epsilon: real, draws: nat -> Draw,
                    rows: nat, cols: nat, tables: QTables, steps: seq<int>, tables': QTables, steps': seq<int>)
    requires Rectangular(g) && |g| > 0 && Cols(g) > 0 && Shaped(t0, rows, cols) && cols > 0
    requires QLoop(g, walls, s0, steps0, maxSteps, t0, ts, p, epsilon, draws, rows, cols, tables, steps, tr.s)
    requires |ts| > 0 ==> !Done(ts[|ts| - 1].r != 0.0, |steps0| + |ts|, maxSteps)
    requires InTable(tr, rows, cols) && GridTransition(g, walls, tr.s, tr.a, tr.r, tr.s2)
    requires tr.a == Choose(tables.q[tr.s], true, epsilon, draws(|ts|))
    requires tables' == QStep(tables, tr, p) && steps' == steps + [tr.s2]
    ensures QLoop(g, walls, s0, steps0, maxSteps, t0, ts + [tr], p, epsilon, draws, rows, cols, tables', steps', tr.s2)
  {
    QRunExtend(g, walls, s0, |steps0|, maxSteps, t0, ts, tr, p, epsilon, draws, rows, cols);
    QEpisodeSnoc(t0, ts, tr, p, rows, cols);
    StepsSnoc(steps0, ts, tr, steps, steps');
  }

  /** Q-learning (class `Q`) on a grid environment. */
  class QLearning {
    const env: GridEnvironment
    const lambd: real
    const epsilon: real
    const gamma: real
    const alpha: real
    /** The action values, one row per state. */
    const Q: array2<real>
    var stepsPerEpisode: seq<nat>

    ghost predicate Valid()
      reads this, env, env.model
    {
      && env.Valid()
      && Q.Length0 == |env.model.grid| * Cols(env.model.grid)
      && Q.Length1 == |Actions|
    }

    function P(): Params {
      Params(alpha, 0.0, gamma, lambd)
    }

    /** `Q(environment, lambd, epsilon, gamma, alpha)`: a zero table over the
        environment's states and actions, and no episode recorded. */
    constructor (environment: GridEnvironment, lambd: real, epsilon: real, gamma: real, alpha: real)
      requires environment.Valid()
      ensures Valid() && env == environment
      ensures this.lambd == lambd && this.epsilon == epsilon && this.gamma == gamma && this.alpha == alpha
      ensures fresh(Q) && Rows(Q) == Zero(|environment.States()|, |Actions|)
      ensures stepsPerEpisode == []
    {
      env := environment;
      this.lambd := lambd;
      this.epsilon := epsilon;
      this.gamma := gamma;
      this.alpha := alpha;
      var table := NewTable(|environment.States()|, |Actions|, 0.0);
      Q := table;
      stepsPerEpisode := [];
    }

    /** `get_greedy_actions(s)`: the actions whose value is the row's maximum, in
        ascending order; never empty. */
    function GreedyActions(s: nat): (g: seq<nat>)
      reads Q
      requires s < Q.Length0 && Q.Length1 > 0
      ensures g == ArgMax(Rows(Q)[s])
      ensures |g| > 0 && forall t, u :: 0 <= t < u < |g| ==> g[t] < g[u]
      ensures forall t :: 0 <= t < |g| ==> g[t] < Q.Length1
      ensures forall j :: j in g <==> 0 <= j < Q.Length1 && forall k :: 0 <= k < Q.Length1 ==> Q[s, k] <= Q[s, j]
    {
      ArgMaxIsGreedySet(Rows(Q)[s]);
      var g := ArgMax(Rows(Q)[s]);
      assert forall t :: 0 <= t < |g| ==> g[t] in g;
      g
    }

    /** The learning step of `run_learning_episode` after action a took the agent from
        s to s2 with reward r. */
    method Update(e: array2<real>, s: nat, a: nat, r: real, s2: nat)
      requires Q != e && e.Length0 == Q.Length0 && e.Length1 == Q.Length1
      requires s < Q.Length0 && s2 < Q.Length0 && a < Q.Length1
      modifies Q, e
      ensures QTables(Rows(Q), Rows(e)) == QStep(QTables(old(Rows(Q)), old(Rows(e))), Transition(s, a, r, s2), P())
    {
      ghost var t := QTables(Rows(Q), Rows(e));
      ghost var tr := Transition(s, a, r, s2);
      var delta := r + gamma * Max(Rows(Q)[s2]) - Q[s, a];
      assert delta == QDelta(t.q, tr, P().gamma);
      var step := alpha * delta;
      assert step == QStepSize(t, tr, P());
      var decay := gamma * lambd;
      assert decay == Decay(P());
      TdUpdateInPlace(Q, e, s, a, step, decay, lambd > 0.0);
    }

    /** The state of `run_learning_episode` after the steps `ts` of an episode that
        started in state s0 with the record `steps0` and the table and traces `t0`:
        the arrays hold the Q-learning run over `ts`, the environment has recorded
        the states `ts` reached, and `ts` is a run of the episode. */
    ghost predicate InEpisode(e: array2<real>, t0: QTables, ts: seq<Transition>, s0: int, steps0: seq<int>,
                              draws: nat -> Draw)
      reads this, env, env.model, Q, e
    {
      && Valid() && Q != e && e.Length0 == Q.Length0 && e.Length1 == Q.Length1
      && Shaped(t0, Q.Length0, Q.Length1)
      && QLoop(env.model.grid, env.model.wallsMark, s0, steps0, env.maxSteps, t0, ts, P(), epsilon, draws,
               Q.Length0, Q.Length1, QTables(Rows(Q), Rows(e)), env.steps, env.state)
    }

    /** A pass of the loop of `run_learning_episode` on the arrays: choose an action
        epsilon-greedily on the table, act, read the reward and the new state, and
        learn from the step. */
    method ActAndLearn(e: array2<real>, d: Draw) returns (s: nat, a: nat, r: real, s2: nat)
      requires Valid() && Q != e && e.Length0 == Q.Length0 && e.Length1 == Q.Length1
      modifies env, env.model, Q, e
      ensures Valid()
      ensures s == old(env.state) && s2 == env.state && env.steps == old(env.steps) + [s2]
      ensures s < Q.Length0 && s2 < Q.Length0 && a < Q.Length1
      ensures GridTransition(env.model.grid, env.model.wallsMark, s, a, r, s2)
      ensures a == Choose(old(Rows(Q))[s], true, epsilon, d)
      ensures QTables(Rows(Q), Rows(e)) == QStep(QTables(old(Rows(Q)), old(Rows(e))), Transition(s, a, r, s2), P())
      ensures r != 0.0 <==> env.IsStateAbsorbing()
    {
      var g, walls, p := env.model.grid, env.model.wallsMark, env.model.agentPosition;
      CellStateIsEncoding(g, p);
      s := env.state;
      a := GetAction(true, epsilon, |Actions|, GreedyActions(s), d);
      var _ := env.DoAction(a);
      r := env.Reward();
      MoveIsGridTransition(g, walls, p, a);
      s2 := env.state;
      Update(e, s, a, r, s2);
    }

    /** One pass of the loop of `run_learning_episode`: the episode grows by the step
        taken. */
    method EpisodeStep(e: array2<real>, ghost t0: QTables, ghost ts: seq<Transition>, ghost s0: int,
                       ghost steps0: seq<int>, draws: nat -> Draw, n: nat) returns (ghost tr: Transition)
      requires InEpisode(e, t0, ts, s0, steps0, draws) && n == |ts|
      requires |ts| > 0 ==> !Done(ts[|ts| - 1].r != 0.0, |steps0| + |ts|, env.maxSteps)
      modifies env, env.model, Q, e
      ensures InEpisode(e, t0, ts + [tr], s0, steps0, draws)
      ensures tr.r != 0.0 <==> env.IsStateAbsorbing()
    {
      ghost var g, walls := env.model.grid, env.model.wallsMark;
      ghost var tables, steps := QTables(Rows(Q), Rows(e)), env.steps;
      assert QLoop(g, walls, s0, steps0, env.maxSteps, t0, ts, P(), epsilon, draws, Q.Length0, Q.Length1, tables, steps, env.state);
      var s, a, r, s2 := ActAndLearn(e, draws(n));
      tr := Transition(s, a, r, s2);
      QLoopExtend(g, walls, s0, steps0, env.maxSteps, t0, ts, tr, P(), epsilon, draws,
                  Q.Length0, Q.Length1, tables, steps, QTables(Rows(Q), Rows(e)), env.steps);
    }

    /** The start of `run_learning_episode`: zero traces. */
    method StartEpisode(draws: nat -> Draw) returns (e: array2<real>)
      requires Valid()
      ensures fresh(e) && Rows(e) == Zero(Q.Length0, Q.Length1)
      ensures InEpisode(e, QTables(Rows(Q), Rows(e)), [], env.state, env.steps, draws)
    {
      e := NewTable(Q.Length0, Q.Length1, 0.0);
      assert NextStates([]) == [];
    }

    /** `run_learning_episode`: from fresh traces, choose an action epsilon-greedily,
        act, learn from the step, until the environment is done.  The returned steps
        are the episode's walk; the table is the Q-learning run over them. */
    method RunLearningEpisode(draws: nat -> Draw) returns (ghost ts: seq<Transition>)
      requires Valid()
      modifies env, env.model, Q
      ensures Valid()
      ensures env.IsDone()
      ensures |ts| > 0 && env.steps == old(env.steps) + NextStates(ts) && env.state == ts[|ts| - 1].s2
      ensures QRun(env.model.grid, env.model.wallsMark, old(env.state), |old(env.steps)|, env.maxSteps,
                   QTables(old(Rows(Q)), Zero(Q.Length0, Q.Length1)), ts, P(), epsilon, draws, Q.Length0, Q.Length1)
      ensures Rows(Q) == QEpisode(QTables(old(Rows(Q)), Zero(Q.Length0, Q.Length1)), ts, P(), Q.Length0, Q.Length1).q
    {
      var e := StartEpisode(draws);
      ts := RunSteps(e, QTables(Rows(Q), Rows(e)), env.state, env.steps, draws);
    }

    /** The loop of `run_learning_episode`, up to the step after which the environment
        is done. */
    method RunSteps(e: array2<real>, ghost t0: QTables, ghost s0: int, ghost steps0: seq<int>, draws: nat -> Draw)
      returns (ghost ts: seq<Transition>)
      requires InEpisode(e, t0, [], s0, steps0, draws)
      modifies env, env.model, Q, e
      ensures |ts| > 0 && InEpisode(e, t0, ts, s0, steps0, draws) && env.IsDone()
    {
      ts := [];
      var n: nat := 0;
      while true
        invariant n == |ts|
        invariant InEpisode(e, t0, ts, s0, steps0, draws)
        invariant |ts| > 0 ==> !Done(ts[|ts| - 1].r != 0.0, |steps0| + |ts|, env.maxSteps)
        decreases env.maxSteps - |env.steps|
      {
        ghost var tr := EpisodeStep(e, t0, ts, s0, steps0, draws, n);
        ts := ts + [tr];
        n := n + 1;
        if env.IsDone() {
          return;
        }
      }
    }

    /** The body of the loop of `learn`: clear the environment, run an episode and
        give the number of steps it took. */
    method ClearAndRun(draws: nat -> Draw) returns (length: nat)
      requires Valid()
      modifies env, env.model, Q
      ensures Valid()
      ensures length == |env.steps| && 1 <= length && (length == 1 || length <= env.maxSteps)
    {
      env.Clear();
      ghost var ts := RunLearningEpisode(draws);
      if |ts| > 1 {
        assert !Done(ts[|ts| - 2].r != 0.0, |ts| - 1, env.maxSteps);
      }
      length := |env.steps|;
    }

    /** `learn`: per episode, clear the environment, run the episode and record its
        length; with `stop`, quit after the first episode that makes the record count
        as learned.  `draws(i)` are the random draws of episode i. */
    method Learn(nEpisodes: int, stop: bool, lte: ExtReal, gte: ExtReal, w: int, draws: nat -> nat -> Draw)
      requires Valid()
      modifies this, env, env.model, Q
      ensures Valid()
      ensures LearnOutcome(old(stepsPerEpisode), stepsPerEpisode, nEpisodes, stop, lte, gte, w)
      ensures EpisodeLengths(stepsPerEpisode[|old(stepsPerEpisode)|..], env.maxSteps)
      ensures |stepsPerEpisode| > |old(stepsPerEpisode)| ==> stepsPerEpisode[|stepsPerEpisode| - 1] == |env.steps|
    {
      ghost var before := stepsPerEpisode;
      ghost var record := stepsPerEpisode;
      var i: nat := 0;
      while i < nEpisodes
        invariant Valid() && i <= if nEpisodes > 0 then nEpisodes else 0
        invariant stepsPerEpisode == record
        invariant LearnProgress(before, record, i, stop, lte, gte, w)
        invariant EpisodeLengths(record[|before|..], env.maxSteps)
        invariant |record| > |before| ==> record[|record| - 1] == |env.steps|
      {
        var length := ClearAndRun(draws(i));
        EpisodeLengthsSnoc(|before|, record, length, env.maxSteps);
        record := record + [length];
        stepsPerEpisode := stepsPerEpisode + [length];
        if stop && IsLearned(stepsPerEpisode, lte, gte, w) {
          LearnStopped(before, record, i, nEpisodes, stop, lte, gte, w);
          return;
        }
        LearnProgressStep(before, record, i, stop, lte, gte, w);
        i := i + 1;
      }
      LearnProgressOutcome(before, record, i, nEpisodes, stop, lte, gte, w);
    }
  }

  // ---------------------------------------------------------------------------------
  // SARSA episodes

  /** A SARSA step without its next action. */
  function Plain(tr: SarsaTransition): Transition {
    Transition(tr.s, tr.a, tr.r, tr.s2)
  }

  function Plains(ts: seq<SarsaTransition>): (ps: seq<Transition>)
    ensures |ps| == |ts|
    decreases |ts|
  {
    if |ts| == 0 then [] else Plains(ts[..|ts| - 1]) + [Plain(ts[|ts| - 1])]
  }

  lemma {:induction false} PlainsAt(ts: seq<SarsaTransition>, k: nat)
    requires k < |ts|
    ensures Plains(ts)[k] == Plain(ts[k])
    decreases |ts|
  {
    if k < |ts| - 1 {
      PlainsAt(ts[..|ts| - 1], k);
    }
  }

  lemma PlainsSnoc(ts: seq<SarsaTransition>, tr: SarsaTransition)
    ensures Plains(ts + [tr]) == Plains(ts) + [Plain(tr)]
  {
    assert (ts + [tr])[..|ts|] == ts;
  }

  /** Each action of a SARSA run is a greedy choice (never exploring): the first on
      the initial table, and each step takes the action chosen at the end of the step
      before, on the table as the steps before it left it. */
  predicate SarsaChoices(t0: QTables, ts: seq<SarsaTransition>, p: Params, draws: nat -> Draw, rows: nat, cols: nat)
    requires Shaped(t0, rows, cols) && cols > 0
    requires forall k :: 0 <= k < |ts| ==> SarsaInTable(ts[k], rows, cols)
    decreases |ts|
  {
    |ts| == 0 ||
    var prev, tr := ts[..|ts| - 1], ts[|ts| - 1];
    assert SarsaInTable(tr, rows, cols);
    && SarsaChoices(t0, prev, p, draws, rows, cols)
    && tr.a == (if |prev| == 0 then Choose(t0.q[tr.s], false, 0.0, draws(0)) else prev[|prev| - 1].a2)
    && tr.a2 == Choose(SarsaEpisode(t0, prev, p, rows, cols).q[tr.s2], false, 0.0, draws(|prev| + 1))
  }

  /** What a SARSA episode on a grid promises of its steps, as `QRun` does for
      Q-learning. */
  predicate SarsaRun(g: seq<seq<real>>, walls: Option<real>, s0: int, before: nat, maxSteps: int,
                     t0: QTables, ts: seq<SarsaTransition>, p: Params, draws: nat -> Draw, rows: nat, cols: nat)
    requires Rectangular(g) && |g| > 0 && Cols(g) > 0 && Shaped(t0, rows, cols) && cols > 0
  {
    && (forall k :: 0 <= k < |ts| ==> SarsaInTable(ts[k], rows, cols))
    && Walk(g, walls, s0, Plains(ts))
    && RunsOn(Plains(ts), before, maxSteps)
    && SarsaChoices(t0, ts, p, draws, rows, cols)
  }

  lemma SarsaEpisodeSnoc(t0: QTables, ts: seq<SarsaTransition>, tr: SarsaTransition, p: Params, rows: nat, cols: nat)
    requires Shaped(t0, rows, cols)
    requires forall k :: 0 <= k < |ts| ==> SarsaInTable(ts[k], rows, cols)
    requires SarsaInTable(tr, rows, cols)
    ensures forall k :: 0 <= k < |ts + [tr]| ==> SarsaInTable((ts + [tr])[k], rows, cols)
    ensures SarsaEpisode(t0, ts + [tr], p, rows, cols) == SarsaStep(SarsaEpisode(t0, ts, p, rows, cols), tr, p)
  {
    assert (ts + [tr])[..|ts|] == ts;
  }

  lemma SarsaRunExtend(g: seq<seq<real>>, walls: Option<real>, s0: int, before: nat, maxSteps: int,
                       t0: QTables, ts: seq<SarsaTransition>, tr: SarsaTransition, p: Params, draws: nat -> Draw,
                       rows: nat, cols: nat)
    requires Rectangular(g) && |g| > 0 && Cols(g) > 0 && Shaped(t0, rows, cols) && cols > 0
    requires SarsaRun(g, walls, s0, before, maxSteps, t0, ts, p, draws, rows, cols)
    requires |ts| > 0 ==> !Done(ts[|ts| - 1].r != 0.0, before + |ts|, maxSteps)
    requires tr.s == if |ts| == 0 then s0 else ts[|ts| - 1].s2
    requires SarsaInTable(tr, rows, cols) && GridTransition(g, walls, tr.s, tr.a, tr.r, tr.s2)
    requires tr.a == if |ts| == 0 then Choose(t0.q[tr.s], false, 0.0, draws(0)) else ts[|ts| - 1].a2
    requires tr.a2 == Choose(SarsaEpisode(t0, ts, p, rows, cols).q[tr.s2], false, 0.0, draws(|ts| + 1))
    ensures SarsaRun(g, walls, s0, before, maxSteps, t0, ts + [tr], p, draws, rows, cols)
  {
    PlainsSnoc(ts, tr);
    if |ts| > 0 {
      PlainsAt(ts, |ts| - 1);
    }
    WalkExtend(g, walls, s0, Plains(ts), Plain(tr));
    RunsOnExtend(Plains(ts), Plain(tr), before, maxSteps);
    SarsaEpisodeSnoc(t0, ts, tr, p, rows, cols);
    assert (ts + [tr])[..|ts|] == ts;
  }

  /** The state of a SARSA episode after the steps `ts`: what the run promised so far,
      the tables it made, the states it recorded after `steps0`, where the agent
      stands and the action chosen for it. */
  predicate SarsaLoop(g: seq<seq<real>>, walls: Option<real>, s0: int, steps0: seq<int>, maxSteps: int,
                      t0: QTables, ts: seq<SarsaTransition>, p: Params, draws: nat -> Draw, rows: nat, cols: nat,
                      tables: QTables, steps: seq<int>, state: int, next: nat)
    requires Rectangular(g) && |g| > 0 && Cols(g) > 0 && Shaped(t0, rows, cols) && cols > 0 && 0 <= s0 < rows
  {
    && SarsaRun(g, walls, s0, |steps0|, maxSteps, t0, ts, p, draws, rows, cols)
    && tables == SarsaEpisode(t0, ts, p, rows, cols)
    && steps == steps0 + NextStates(Plains(ts))
    && state == (if |ts| == 0 then s0 else ts[|ts| - 1].s2)
    && next == (if |ts| == 0 then Choose(t0.q[s0], false, 0.0, draws(0)) else ts[|ts| - 1].a2)
  }

  /** A SARSA episode grows by the step it takes from where it stands with the action
      it chose, learning on the step and recording the new state. */
  lemma SarsaLoopExtend(g: seq<seq<real>>, walls: Option<real>, s0: int, steps0: seq<int>, maxSteps: int,
                        t0: QTables, ts: seq<SarsaTransition>, tr: SarsaTransition, p: Params, draws: nat -> Draw,
                        rows: nat, cols: nat, tables: QTables, steps: seq<int>, tables': QTables, steps': seq<int>)
    requires Rectangular(g) && |g| > 0 && Cols(g) > 0 && Shaped(t0, rows, cols) && cols > 0 && 0 <= s0 < rows
    requires SarsaLoop(g, walls, s0, steps0, maxSteps, t0, ts, p, draws, rows, cols, tables, steps, tr.s, tr.a)
    requires |ts| > 0 ==> !Done(ts[|ts| - 1].r != 0.0, |steps0| + |ts|, maxSteps)
    requires SarsaInTable(tr, rows, cols) && GridTransition(g, walls, tr.s, tr.a, tr.r, tr.s2)
    requires tr.a2 == Choose(tables.q[tr.s2], false, 0.0, draws(|ts| + 1))
    requires tables' == SarsaStep(tables, tr, p) && steps' == steps + [tr.s2]
    ensures SarsaLoop(g, walls, s0, steps0, maxSteps, t0, ts + [tr], p, draws, rows, cols, tables', steps', tr.s2, tr.a2)
  {
    SarsaRunExtend(g, walls, s0, |steps0|, maxSteps, t0, ts, tr, p, draws, rows, cols);
    SarsaEpisodeSnoc(t0, ts, tr, p, rows, cols);
    PlainsSnoc(ts, tr);
    StepsSnoc(steps0, Plains(ts), Plain(tr), steps, steps');
  }

  /** SARSA (class `SARSA`) on a grid environment: both the current and the next
      action are chosen greedily, without exploration. */
  class Sarsa {
    const env: GridEnvironment
    const lambd: real
    const gamma: real
    const alpha: real
    /** The action values, one row per state. */
    const Q: array2<real>
    var stepsPerEpisode: seq<nat>

    ghost predicate Valid()
      reads this, env, env.model
    {
      && env.Valid()
      && Q.Length0 == |env.model.grid| * Cols(env.model.grid)
      && Q.Length1 == |Actions|
    }

    function P(): Params {
      Params(alpha, 0.0, gamma, lambd)
    }

    /** `SARSA(environment, lambd, gamma, alpha)`: a zero table and no episode
        recorded; there is no exploration rate. */
    constructor (environment: GridEnvironment, lambd: real, gamma: real, alpha: real)
      requires environment.Valid()
      ensures Valid() && env == environment
      ensures this.lambd == lambd && this.gamma == gamma && this.alpha == alpha
      ensures fresh(Q) && Rows(Q) == Zero(|environment.States()|, |Actions|)
      ensures stepsPerEpisode == []
    {
      env := environment;
      this.lambd := lambd;
      this.gamma := gamma;
      this.alpha := alpha;
      var table := NewTable(|environment.States()|, |Actions|, 0.0);
      Q := table;
      stepsPerEpisode := [];
    }

    /** `get_greedy_actions(s)`, inherited from `Q`. */
    function GreedyActions(s: nat): (g: seq<nat>)
      reads Q
      requires s < Q.Length0 && Q.Length1 > 0
      ensures g == ArgMax(Rows(Q)[s])
      ensures |g| > 0 && forall t :: 0 <= t < |g| ==> g[t] < Q.Length1
    {
      ArgMaxIsGreedySet(Rows(Q)[s]);
      var g := ArgMax(Rows(Q)[s]);
      assert forall t :: 0 <= t < |g| ==> g[t] in g;
      g
    }

    /** The learning step after action a took the agent from s to s2 with reward r,
        and a2 was chosen for s2. */
    method Update(e: array2<real>, s: nat, a: nat, r: real, s2: nat, a2: nat)
      requires Q != e && e.Length0 == Q.Length0 && e.Length1 == Q.Length1
      requires s < Q.Length0 && s2 < Q.Length0 && a < Q.Length1 && a2 < Q.Length1
      modifies Q, e
      ensures QTables(Rows(Q), Rows(e)) ==
              SarsaStep(QTables(old(Rows(Q)), old(Rows(e))), SarsaTransition(s, a, r, s2, a2), P())
    {
      ghost var t := QTables(Rows(Q), Rows(e));
      ghost var tr := SarsaTransition(s, a, r, s2, a2);
      var delta := r + gamma * Q[s2, a2] - Q[s, a];
      assert delta == SarsaDelta(t.q, tr, P().gamma);
      var step := alpha * delta;
      assert step == SarsaStepSize(t, tr, P());
      var decay := gamma * lambd;
      assert decay == Decay(P());
      TdUpdateInPlace(Q, e, s, a, step, decay, lambd > 0.0);
    }

    /** The loop state of `run_learning_episode` after the steps `ts`: as for
        Q-learning, and `a` is the action to take next. */
    ghost predicate InEpisode(e: array2<real>, t0: QTables, ts: seq<SarsaTransition>, s0: int, steps0: seq<int>,
                              draws: nat -> Draw, a: nat)
      reads this, env, env.model, Q, e
    {
      && Valid() && Q != e && e.Length0 == Q.Length0 && e.Length1 == Q.Length1
      && Shaped(t0, Q.Length0, Q.Length1) && 0 <= s0 < Q.Length0 && a < Q.Length1
      && SarsaLoop(env.model.grid, env.model.wallsMark, s0, steps0, env.maxSteps, t0, ts, P(), draws,
                   Q.Length0, Q.Length1, QTables(Rows(Q), Rows(e)), env.steps, env.state, a)
    }

    /** A pass of the loop on the arrays: take action a from state s, read the
        reward and the new state, choose the next action greedily on the table, and
        learn from the step. */
    method ActAndLearn(e: array2<real>, s: nat, a: nat, d: Draw) returns (r: real, s2: nat, a2: nat)
      requires Valid() && Q != e && e.Length0 == Q.Length0 && e.Length1 == Q.Length1
      requires s == env.state && a < |Actions|
      modifies env, env.model, Q, e
      ensures Valid()
      ensures s2 == env.state && env.steps == old(env.steps) + [s2]
      ensures s < Q.Length0 && s2 < Q.Length0 && a2 < Q.Length1
      ensures GridTransition(env.model.grid, env.model.wallsMark, s, a, r, s2)
      ensures a2 == Choose(old(Rows(Q))[s2], false, 0.0, d)
      ensures QTables(Rows(Q), Rows(e)) ==
              SarsaStep(QTables(old(Rows(Q)), old(Rows(e))), SarsaTransition(s, a, r, s2, a2), P())
      ensures r != 0.0 <==> env.IsStateAbsorbing()
    {
      var g, walls, p := env.model.grid, env.model.wallsMark, env.model.agentPosition;
      CellStateIsEncoding(g, p);
      var _ := env.DoAction(a);
      r := env.Reward();
      MoveIsGridTransition(g, walls, p, a);
      s2 := env.state;
      a2 := GetAction(false, 0.0, |Actions|, GreedyActions(s2), d);
      Update(e, s, a, r, s2, a2);
    }

    /** One pass of the loop of `run_learning_episode`. */
    method EpisodeStep(e: array2<real>, ghost t0: QTables, ghost ts: seq<SarsaTransition>, ghost s0: int,
                       ghost steps0: seq<int>, draws: nat -> Draw, n: nat, s: nat, a: nat)
      returns (a2: nat, ghost tr: SarsaTransition)
      requires InEpisode(e, t0, ts, s0, steps0, draws, a) && n == |ts| && s == env.state
      requires |ts| > 0 ==> !Done(ts[|ts| - 1].r != 0.0, |steps0| + |ts|, env.maxSteps)
      modifies env, env.model, Q, e
      ensures InEpisode(e, t0, ts + [tr], s0, steps0, draws, a2) && a2 == tr.a2
      ensures tr.r != 0.0 <==> env.IsStateAbsorbing()
    {
      ghost var g, walls := env.model.grid, env.model.wallsMark;
      ghost var tables, steps := QTables(Rows(Q), Rows(e)), env.steps;
      assert SarsaLoop(g, walls, s0, steps0, env.maxSteps, t0, ts, P(), draws, Q.Length0, Q.Length1, tables, steps, s, a);
      var r, s2;
      r, s2, a2 := ActAndLearn(e, s, a, draws(n + 1));
      tr := SarsaTransition(s, a, r, s2, a2);
      SarsaLoopExtend(g, walls, s0, steps0, env.maxSteps, t0, ts, tr, P(), draws,
                      Q.Length0, Q.Length1, tables, steps, QTables(Rows(Q), Rows(e)), env.steps);
    }

    /** The start of `run_learning_episode`: zero traces, and the first action chosen
        greedily at the current state. */
    method StartEpisode(draws: nat -> Draw) returns (e: array2<real>, s: nat, a: nat)
      requires Valid()
      ensures fresh(e) && Rows(e) == Zero(Q.Length0, Q.Length1) && s == env.state
      ensures InEpisode(e, QTables(Rows(Q), Rows(e)), [], env.state, env.steps, draws, a)
    {
      e := NewTable(Q.Length0, Q.Length1, 0.0);
      CellStateIsEncoding(env.model.grid, env.model.agentPosition);
      s := env.state;
      a := GetAction(false, 0.0, |Actions|, GreedyActions(s), draws(0));
      assert NextStates(Plains([])) == [];
    }

    /** `run_learning_episode`: choose the first action greedily, then act, choose the
        next action greedily, learn from the step, and carry the next state and action
        forward, until the environment is done. */
    method RunLearningEpisode(draws: nat -> Draw) returns (ghost ts: seq<SarsaTransition>)
      requires Valid()
      modifies env, env.model, Q
      ensures Valid()
      ensures env.IsDone()
      ensures |ts| > 0 && env.steps == old(env.steps) + NextStates(Plains(ts)) && env.state == ts[|ts| - 1].s2
      ensures SarsaRun(env.model.grid, env.model.wallsMark, old(env.state), |old(env.steps)|, env.maxSteps,
                       QTables(old(Rows(Q)), Zero(Q.Length0, Q.Length1)), ts, P(), draws, Q.Length0, Q.Length1)
      ensures Rows(Q) == SarsaEpisode(QTables(old(Rows(Q)), Zero(Q.Length0, Q.Length1)), ts, P(), Q.Length0, Q.Length1).q
    {
      var e, s, a := StartEpisode(draws);
      ts := RunSteps(e, QTables(Rows(Q), Rows(e)), env.state, env.steps, draws, s, a);
    }

    /** The loop of `run_learning_episode`, from the first action to the step after
        which the environment is done. */
    method RunSteps(e: array2<real>, ghost t0: QTables, ghost s0: int, ghost steps0: seq<int>, draws: nat -> Draw,
                    s: nat, a: nat) returns (ghost ts: seq<SarsaTransition>)
      requires InEpisode(e, t0, [], s0, steps0, draws, a) && s == env.state
      modifies env, env.model, Q, e
      ensures |ts| > 0 && InEpisode(e, t0, ts, s0, steps0, draws, ts[|ts| - 1].a2) && env.IsDone()
    {
      ts := [];
      var n: nat := 0;
      var state, next := s, a;
      while true
        invariant n == |ts| && state == env.state
        invariant InEpisode(e, t0, ts, s0, steps0, draws, next)
        invariant |ts| > 0 ==> !Done(ts[|ts| - 1].r != 0.0, |steps0| + |ts|, env.maxSteps)
        decreases env.maxSteps - |env.steps|
      {
        ghost var tr;
        var a2;
        a2, tr := EpisodeStep(e, t0, ts, s0, steps0, draws, n, state, next);
        ts := ts + [tr];
        n := n + 1;
        if env.IsDone() {
          return;
        }
        state, next := env.state, a2;
      }
    }

    method ClearAndRun(draws: nat -> Draw) returns (length: nat)
      requires Valid()
      modifies env, env.model, Q
      ensures Valid()
      ensures length == |env.steps| && 1 <= length && (length == 1 || length <= env.maxSteps)
    {
      env.Clear();
      ghost var ts := RunLearningEpisode(draws);
      if |ts| > 1 {
        PlainsAt(ts, |ts| - 2);
        assert !Done(ts[|ts| - 2].r != 0.0, |ts| - 1, env.maxSteps);
      }
      length := |env.steps|;
    }

    /** `learn`, inherited from `Algorithm`. */
    method Learn(nEpisodes: int, stop: bool, lte: ExtReal, gte: ExtReal, w: int, draws: nat -> nat -> Draw)
      requires Valid()
      modifies this, env, env.model, Q
      ensures Valid()
      ensures LearnOutcome(old(stepsPerEpisode), stepsPerEpisode, nEpisodes, stop, lte, gte, w)
      ensures EpisodeLengths(stepsPerEpisode[|old(stepsPerEpisode)|..], env.maxSteps)
      ensures |stepsPerEpisode| > |old(stepsPerEpisode)| ==> stepsPerEpisode[|stepsPerEpisode| - 1] == |env.steps|
    {
      ghost var before := stepsPerEpisode;
      ghost var record := stepsPerEpisode;
      var i: nat := 0;
      while i < nEpisodes
        invariant Valid() && i <= if nEpisodes > 0 then nEpisodes else 0
        invariant stepsPerEpisode == record
        invariant LearnProgress(before, record, i, stop, lte, gte, w)
        invariant EpisodeLengths(record[|before|..], env.maxSteps)
        invariant |record| > |before| ==> record[|record| - 1] == |env.steps|
      {
        var length := ClearAndRun(draws(i));
        EpisodeLengthsSnoc(|before|, record, length, env.maxSteps);
        record := record + [length];
        stepsPerEpisode := stepsPerEpisode + [length];
        if stop && IsLearned(stepsPerEpisode, lte, gte, w) {
          LearnStopped(before, record, i, nEpisodes, stop, lte, gte, w);
          return;
        }
        LearnProgressStep(before, record, i, stop, lte, gte, w);
        i := i + 1;
      }
      LearnProgressOutcome(before, record, i, nEpisodes, stop, lte, gte, w);
    }
  }

  // ---------------------------------------------------------------------------------
  // R-learning episodes

  /** Each action of an R-learning run is the epsilon-greedy choice on the table as the
      earlier steps left it. */
  predicate RChoices(t0: RTables, ts: seq<Transition>, p: Params, epsilon: real, draws: nat -> Draw, rows: nat, cols: nat)
    requires IsMatrix(t0.q, rows, cols) && IsMatrix(t0.e, rows, cols) && cols > 0
    requires forall k :: 0 <= k < |ts| ==> InTable(ts[k], rows, cols)
    decreases |ts|
  {
    |ts| == 0 ||
    var prev, tr := ts[..|ts| - 1], ts[|ts| - 1];
    assert InTable(tr, rows, cols);
    && RChoices(t0, prev, p, epsilon, draws, rows, cols)
    && tr.a == Choose(REpisode(t0, prev, p, rows, cols).q[tr.s], true, epsilon, draws(|prev|))
  }

  /** What an R-learning episode on a grid promises of its steps, as `QRun` does for
      Q-learning. */
  predicate RRun(g: seq<seq<real>>, walls: Option<real>, s0: int, before: nat, maxSteps: int,
                 t0: RTables, ts: seq<Transition>, p: Params, epsilon: real, draws: nat -> Draw, rows: nat, cols: nat)
    requires Rectangular(g) && |g| > 0 && Cols(g) > 0
    requires IsMatrix(t0.q, rows, cols) && IsMatrix(t0.e, rows, cols) && cols > 0
  {
    && (forall k :: 0 <= k < |ts| ==> InTable(ts[k], rows, cols))
    && Walk(g, walls, s0, ts)
    && RunsOn(ts, before, maxSteps)
    && RChoices(t0, ts, p, epsilon, draws, rows, cols)
  }

  lemma REpisodeSnoc(t0: RTables, ts: seq<Transition>, tr: Transition, p: Params, rows: nat, cols: nat)
    requires IsMatrix(t0.q, rows, cols) && IsMatrix(t0.e, rows, cols) && cols > 0
    requires forall k :: 0 <= k < |ts| ==> InTable(ts[k], rows, cols)
    requires InTable(tr, rows, cols)
    ensures forall k :: 0 <= k < |ts + [tr]| ==> InTable((ts + [tr])[k], rows, cols)
    ensures REpisode(t0, ts + [tr], p, rows, cols) == RStep(REpisode(t0, ts, p, rows, cols), tr, p)
  {
    assert (ts + [tr])[..|ts|] == ts;
  }

  lemma RRunExtend(g: seq<seq<real>>, walls: Option<real>, s0: int, before: nat, maxSteps: int,
                   t0: RTables, ts: seq<Transition>, tr: Transition, p: Params, epsilon: real, draws: nat -> Draw,
                   rows: nat, cols: nat)
    requires Rectangular(g) && |g| > 0 && Cols(g) > 0
    requires IsMatrix(t0.q, rows, cols) && IsMatrix(t0.e, rows, cols) && cols > 0
    requires RRun(g, walls, s0, before, maxSteps, t0, ts, p, epsilon, draws, rows, cols)
    requires |ts| > 0 ==> !Done(ts[|ts| - 1].r != 0.0, before + |ts|, maxSteps)
    requires tr.s == if |ts| == 0 then s0 else ts[|ts| - 1].s2
    requires InTable(tr, rows, cols) && GridTransition(g, walls, tr.s, tr.a, tr.r, tr.s2)
    requires tr.a == Choose(REpisode(t0, ts, p, rows, cols).q[tr.s], true, epsilon, draws(|ts|))
    ensures RRun(g, walls, s0, before, maxSteps, t0, ts + [tr], p, epsilon, draws, rows, cols)
  {
    WalkExtend(g, walls, s0, ts, tr);
    RunsOnExtend(ts, tr, before, maxSteps);
    REpisodeSnoc(t0, ts, tr, p, rows, cols);
    assert (ts + [tr])[..|ts|] == ts;
  }

  /** The state of an R-learning episode after the steps `ts`: what the run promised so
      far, the tables and the estimate rho it made, the states it recorded after
      `steps0` and where the agent stands. */
  predicate RLoop(g: seq<seq<real>>, walls: Option<real>, s0: int, steps0: seq<int>, maxSteps: int,
                  t0: RTables, ts: seq<Transition>, p: Params, epsilon: real, draws: nat -> Draw, rows: nat, cols: nat,
                  tables: RTables, steps: seq<int>, state: int)
    requires Rectangular(g) && |g| > 0 && Cols(g) > 0
    requires IsMatrix(t0.q, rows, cols) && IsMatrix(t0.e, rows, cols) && cols > 0
  {
    && RRun(g, walls, s0, |steps0|, maxSteps, t0, ts, p, epsilon, draws, rows, cols)
    && tables == REpisode(t0, ts, p, rows, cols)
    && steps == steps0 + NextStates(ts)
    && state == (if |ts| == 0 then s0 else ts[|ts| - 1].s2)
  }

  /** An R-learning episode grows by the step it takes from where it stands with the
      action chosen on its table, learning on the step and recording the new state. */
  lemma RLoopExtend(g: seq<seq<real>>, walls: Option<real>, s0: int, steps0: seq<int>, maxSteps: int,
                    t0: RTables, ts: seq<Transition>, tr: Transition, p: Params, epsilon: real, draws: nat -> Draw,
                    rows: nat, cols: nat, tables: RTables, steps: seq<int>, tables': RTables, steps': seq<int>)
    requires Rectangular(g) && |g| > 0 && Cols(g) > 0
    requires IsMatrix(t0.q, rows, cols) && IsMatrix(t0.e, rows, cols) && cols > 0
    requires RLoop(g, walls, s0, steps0, maxSteps, t0, ts, p, epsilon, draws, rows, cols, tables, steps, tr.s)
    requires |ts| > 0 ==> !Done(ts[|ts| - 1].r != 0.0, |steps0| + |ts|, maxSteps)
    requires InTable(tr, rows, cols) && GridTransition(g, walls, tr.s, tr.a, tr.r, tr.s2)
    requires tr.a == Choose(tables.q[tr.s], true, epsilon, draws(|ts|))
    requires tables' == RStep(tables, tr, p) && steps' == steps + [tr.s2]
    ensures RLoop(g, walls, s0, steps0, maxSteps, t0, ts + [tr], p, epsilon, draws, rows, cols, tables', steps', tr.s2)
  {
    RRunExtend(g, walls, s0, |steps0|, maxSteps, t0, ts, tr, p, epsilon, draws, rows, cols);
    REpisodeSnoc(t0, ts, tr, p, rows, cols);
    StepsSnoc(steps0, ts, tr, steps, steps');
  }

  /** R-learning (class `R`) on a grid environment: there is no discount; the average
      reward rho starts at 0 in every episode. */
  class RLearning {
    const env: GridEnvironment
    const lambd: real
    const epsilon: real
    const alpha: real
    const beta: real
    /** The action values, one row per state. */
    const Q: array2<real>
    var stepsPerEpisode: seq<nat>

    ghost predicate Valid()
      reads this, env, env.model
    {
      && env.Valid()
      && Q.Length0 == |env.model.grid| * Cols(env.model.grid)
      && Q.Length1 == |Actions|
    }

    function P(): Params {
      Params(alpha, beta, 0.0, lambd)
    }

    /** `R(environment, lambd, epsilon, alpha, beta)`: a zero table and no episode
        recorded. */
    constructor (environment: GridEnvironment, lambd: real, epsilon: real, alpha: real, beta: real)
      requires environment.Valid()
      ensures Valid() && env == environment
      ensures this.lambd == lambd && this.epsilon == epsilon && this.alpha == alpha && this.beta == beta
      ensures fresh(Q) && Rows(Q) == Zero(|environment.States()|, |Actions|)
      ensures stepsPerEpisode == []
    {
      env := environment;
      this.lambd := lambd;
      this.epsilon := epsilon;
      this.alpha := alpha;
      this.beta := beta;
      var table := NewTable(|environment.States()|, |Actions|, 0.0);
      Q := table;
      stepsPerEpisode := [];
    }

    /** `get_greedy_actions(s)`, inherited from `Q`. */
    function GreedyActions(s: nat): (g: seq<nat>)
      reads Q
      requires s < Q.Length0 && Q.Length1 > 0
      ensures g == ArgMax(Rows(Q)[s])
      ensures |g| > 0 && forall t :: 0 <= t < |g| ==> g[t] < Q.Length1
    {
      ArgMaxIsGreedySet(Rows(Q)[s]);
      var g := ArgMax(Rows(Q)[s]);
      assert forall t :: 0 <= t < |g| ==> g[t] in g;
      g
    }

    /** The learning step after action a took the agent from s to s2 with reward r:
        the table and traces move, then rho moves if a is greedy at s on the moved
        table. */
    method Update(e: array2<real>, rho: real, s: nat, a: nat, r: real, s2: nat) returns (rho': real)
      requires Q != e && e.Length0 == Q.Length0 && e.Length1 == Q.Length1
      requires s < Q.Length0 && s2 < Q.Length0 && a < Q.Length1
      modifies Q, e
      ensures RTables(Rows(Q), Rows(e), rho') == RStep(RTables(old(Rows(Q)), old(Rows(e)), rho), Transition(s, a, r, s2), P())
    {
      ghost var t := RTables(Rows(Q), Rows(e), rho);
      ghost var tr := Transition(s, a, r, s2);
      var delta := r - rho + Max(Rows(Q)[s2]) - Q[s, a];
      assert delta == RDelta(t, tr);
      var step := alpha * delta;
      assert step == RStepSize(t, tr, P());
      TdUpdateInPlace(Q, e, s, a, step, lambd, lambd > 0.0);
      assert QTables(Rows(Q), Rows(e)) == RTableStep(t, tr, P());
      rho' := UpdateRho(rho, s, a, r, s2);
    }

    /** The rho part of the learning step, on the table the step has already moved:
        `rho` moves only when a is one of the greedy actions at s. */
    method UpdateRho(rho: real, s: nat, a: nat, r: real, s2: nat) returns (rho': real)
      requires s < Q.Length0 && s2 < Q.Length0 && a < Q.Length1
      ensures rho' == RhoUpdate(Rows(Q), rho, Transition(s, a, r, s2), s, beta)
    {
      ghost var q, tr := Rows(Q), Transition(s, a, r, s2);
      var greedy := GreedyActions(s);
      rho' := rho;
      if a in greedy {
        var adjusted := r - rho + Max(Rows(Q)[s2]) - Max(Rows(Q)[s]);
        assert adjusted == tr.r - rho + Max(q[tr.s2]) - Max(q[tr.s]);
        rho' := rho + beta * adjusted;
      }
    }

    /** The loop state of `run_learning_episode` after the steps `ts`, with `rho` the
        current average-reward estimate. */
    ghost predicate InEpisode(e: array2<real>, t0: RTables, ts: seq<Transition>, s0: int, steps0: seq<int>,
                              draws: nat -> Draw, rho: real)
      reads this, env, env.model, Q, e
    {
      && Valid() && Q != e && e.Length0 == Q.Length0 && e.Length1 == Q.Length1
      && IsMatrix(t0.q, Q.Length0, Q.Length1) && IsMatrix(t0.e, Q.Length0, Q.Length1)
      && RLoop(env.model.grid, env.model.wallsMark, s0, steps0, env.maxSteps, t0, ts, P(), epsilon, draws,
               Q.Length0, Q.Length1, RTables(Rows(Q), Rows(e), rho), env.steps, env.state)
    }

    /** A pass of the loop on the arrays: choose an action epsilon-greedily, act, read
        the reward and the new state, and learn from the step. */
    method ActAndLearn(e: array2<real>, rho: real, d: Draw) returns (s: nat, a: nat, r: real, s2: nat, rho': real)
      requires Valid() && Q != e && e.Length0 == Q.Length0 && e.Length1 == Q.Length1
      modifies env, env.model, Q, e
      ensures Valid()
      ensures s == old(env.state) && s2 == env.state && env.steps == old(env.steps) + [s2]
      ensures s < Q.Length0 && s2 < Q.Length0 && a < Q.Length1
      ensures GridTransition(env.model.grid, env.model.wallsMark, s, a, r, s2)
      ensures a == Choose(old(Rows(Q))[s], true, epsilon, d)
      ensures RTables(Rows(Q), Rows(e), rho') ==
              RStep(RTables(old(Rows(Q)), old(Rows(e)), rho), Transition(s, a, r, s2), P())
      ensures r != 0.0 <==> env.IsStateAbsorbing()
    {
      var g, walls, p := env.model.grid, env.model.wallsMark, env.model.agentPosition;
      CellStateIsEncoding(g, p);
      s := env.state;
      a := GetAction(true, epsilon, |Actions|, GreedyActions(s), d);
      var _ := env.DoAction(a);
      r := env.Reward();
      MoveIsGridTransition(g, walls, p, a);
      s2 := env.state;
      rho' := Update(e, rho, s, a, r, s2);
    }

    /** One pass of the loop of `run_learning_episode`. */
    method EpisodeStep(e: array2<real>, ghost t0: RTables, ghost ts: seq<Transition>, ghost s0: int,
                       ghost steps0: seq<int>, draws: nat -> Draw, n: nat, rho: real)
      returns (rho': real, ghost tr: Transition)
      requires InEpisode(e, t0, ts, s0, steps0, draws, rho) && n == |ts|
      requires |ts| > 0 ==> !Done(ts[|ts| - 1].r != 0.0, |steps0| + |ts|, env.maxSteps)
      modifies env, env.model, Q, e
      ensures InEpisode(e, t0, ts + [tr], s0, steps0, draws, rho')
      ensures tr.r != 0.0 <==> env.IsStateAbsorbing()
    {
      ghost var g, walls := env.model.grid, env.model.wallsMark;
      ghost var tables, steps := RTables(Rows(Q), Rows(e), rho), env.steps;
      assert RLoop(g, walls, s0, steps0, env.maxSteps, t0, ts, P(), epsilon, draws, Q.Length0, Q.Length1,
                   tables, steps, env.state);
      var s, a, r, s2;
      s, a, r, s2, rho' := ActAndLearn(e, rho, draws(n));
      tr := Transition(s, a, r, s2);
      RLoopExtend(g, walls, s0, steps0, env.maxSteps, t0, ts, tr, P(), epsilon, draws,
                  Q.Length0, Q.Length1, tables, steps, RTables(Rows(Q), Rows(e), rho'), env.steps);
    }

    /** The start of `run_learning_episode`: zero traces and `rho = 0.0`. */
    method StartEpisode(draws: nat -> Draw) returns (e: array2<real>)
      requires Valid()
      ensures fresh(e) && Rows(e) == Zero(Q.Length0, Q.Length1)
      ensures InEpisode(e, RTables(Rows(Q), Rows(e), 0.0), [], env.state, env.steps, draws, 0.0)
    {
      e := NewTable(Q.Length0, Q.Length1, 0.0);
      assert NextStates([]) == [];
    }

    /** The loop of `run_learning_episode`, up to the step after which the environment
        is done; gives the final rho. */
    method RunSteps(e: array2<real>, ghost t0: RTables, ghost s0: int, ghost steps0: seq<int>, draws: nat -> Draw)
      returns (rho: real, ghost ts: seq<Transition>)
      requires InEpisode(e, t0, [], s0, steps0, draws, 0.0)
      modifies env, env.model, Q, e
      ensures |ts| > 0 && InEpisode(e, t0, ts, s0, steps0, draws, rho) && env.IsDone()
    {
      ts := [];
      rho := 0.0;
      var n: nat := 0;
      while true
        invariant n == |ts|
        invariant InEpisode(e, t0, ts, s0, steps0, draws, rho)
        invariant |ts| > 0 ==> !Done(ts[|ts| - 1].r != 0.0, |steps0| + |ts|, env.maxSteps)
        decreases env.maxSteps - |env.steps|
      {
        ghost var tr;
        rho, tr := EpisodeStep(e, t0, ts, s0, steps0, draws, n, rho);
        ts := ts + [tr];
        n := n + 1;
        if env.IsDone() {
          return;
        }
      }
    }

    /** `run_learning_episode`: from fresh traces and rho = 0, choose an action
        epsilon-greedily, act, learn from the step and update rho, until the
        environment is done. */
    method RunLearningEpisode(draws: nat -> Draw) returns (ghost ts: seq<Transition>)
      requires Valid()
      modifies env, env.model, Q
      ensures Valid()
      ensures env.IsDone()
      ensures |ts| > 0 && env.steps == old(env.steps) + NextStates(ts) && env.state == ts[|ts| - 1].s2
      ensures RRun(env.model.grid, env.model.wallsMark, old(env.state), |old(env.steps)|, env.maxSteps,
                   RTables(old(Rows(Q)), Zero(Q.Length0, Q.Length1), 0.0), ts, P(), epsilon, draws, Q.Length0, Q.Length1)
      ensures Rows(Q) == REpisode(RTables(old(Rows(Q)), Zero(Q.Length0, Q.Length1), 0.0), ts, P(), Q.Length0, Q.Length1).q
    {
      var e := StartEpisode(draws);
      var rho;
      rho, ts := RunSteps(e, RTables(Rows(Q), Rows(e), 0.0), env.state, env.steps, draws);
    }

    method ClearAndRun(draws: nat -> Draw) returns (length: nat)
      requires Valid()
      modifies env, env.model, Q
      ensures Valid()
      ensures length == |env.steps| && 1 <= length && (length == 1 || length <= env.maxSteps)
    {
      env.Clear();
      ghost var ts := RunLearningEpisode(draws);
      if |ts| > 1 {
        assert !Done(ts[|ts| - 2].r != 0.0, |ts| - 1, env.maxSteps);
      }
      length := |env.steps|;
    }

    /** `learn`, inherited from `Algorithm`. */
    method Learn(nEpisodes: int, stop: bool, lte: ExtReal, gte: ExtReal, w: int, draws: nat -> nat -> Draw)
      requires Valid()
      modifies this, env, env.model, Q
      ensures Valid()
      ensures LearnOutcome(old(stepsPerEpisode), stepsPerEpisode, nEpisodes, stop, lte, gte, w)
      ensures EpisodeLengths(stepsPerEpisode[|old(stepsPerEpisode)|..], env.maxSteps)
      ensures |stepsPerEpisode| > |old(stepsPerEpisode)| ==> stepsPerEpisode[|stepsPerEpisode| - 1] == |env.steps|
    {
      ghost var before := stepsPerEpisode;
      ghost var record := stepsPerEpisode;
      var i: nat := 0;
      while i < nEpisodes
        invariant Valid() && i <= if nEpisodes > 0 then nEpisodes else 0
        invariant stepsPerEpisode == record
        invariant LearnProgress(before, record, i, stop, lte, gte, w)
        invariant EpisodeLengths(record[|before|..], env.maxSteps)
        invariant |record| > |before| ==> record[|record| - 1] == |env.steps|
      {
        var length := ClearAndRun(draws(i));
        EpisodeLengthsSnoc(|before|, record, length, env.maxSteps);
        record := record + [length];
        stepsPerEpisode := stepsPerEpisode + [length];
        if stop && IsLearned(stepsPerEpisode, lte, gte, w) {
          LearnStopped(before, record, i, nEpisodes, stop, lte, gte, w);
          return;
        }
        LearnProgressStep(before, record, i, stop, lte, gte, w);
        i := i + 1;
      }
      LearnProgressOutcome(before, record, i, nEpisodes, stop, lte, gte, w);
    }
  }

  // ---------------------------------------------------------------------------------
  // AHC episodes

  /** Each action of an AHC run is the epsilon-greedy choice on the preferences as the
      earlier steps left them. */
  predicate AhcChoices(t0: AhcTables, ts: seq<Transition>, p: Params, epsilon: real, draws: nat -> Draw, rows: nat, cols: nat)
    requires AhcShaped(t0, rows, cols) && cols > 0
    requires forall k :: 0 <= k < |ts| ==> InTable(ts[k], rows, cols)
    decreases |ts|
  {
    |ts| == 0 ||
    var prev, tr := ts[..|ts| - 1], ts[|ts| - 1];
    assert InTable(tr, rows, cols);
    && AhcChoices(t0, prev, p, epsilon, draws, rows, cols)
    && tr.a == Choose(AhcEpisode(t0, prev, p, rows, cols).mi[tr.s], true, epsilon, draws(|prev|))
  }

  /** What an AHC episode on a grid promises of its steps, as `QRun` does for
      Q-learning. */
  predicate AhcRun(g: seq<seq<real>>, walls: Option<real>, s0: int, before: nat, maxSteps: int,
                   t0: AhcTables, ts: seq<Transition>, p: Params, epsilon: real, draws: nat -> Draw, rows: nat, cols: nat)
    requires Rectangular(g) && |g| > 0 && Cols(g) > 0
    requires AhcShaped(t0, rows, cols) && cols > 0
  {
    && (forall k :: 0 <= k < |ts| ==> InTable(ts[k], rows, cols))
    && Walk(g, walls, s0, ts)
    && RunsOn(ts, before, maxSteps)
    && AhcChoices(t0, ts, p, epsilon, draws, rows, cols)
  }

  lemma AhcEpisodeSnoc(t0: AhcTables, ts: seq<Transition>, tr: Transition, p: Params, rows: nat, cols: nat)
    requires AhcShaped(t0, rows, cols)
    requires forall k :: 0 <= k < |ts| ==> InTable(ts[k], rows, cols)
    requires InTable(tr, rows, cols)
    ensures forall k :: 0 <= k < |ts + [tr]| ==> InTable((ts + [tr])[k], rows, cols)
    ensures AhcEpisode(t0, ts + [tr], p, rows, cols) == AhcStep(AhcEpisode(t0, ts, p, rows, cols), tr, p)
  {
    assert (ts + [tr])[..|ts|] == ts;
  }

  lemma AhcRunExtend(g: seq<seq<real>>, walls: Option<real>, s0: int, before: nat, maxSteps: int,
                     t0: AhcTables, ts: seq<Transition>, tr: Transition, p: Params, epsilon: real, draws: nat -> Draw,
                     rows: nat, cols: nat)
    requires Rectangular(g) && |g| > 0 && Cols(g) > 0
    requires AhcShaped(t0, rows, cols) && cols > 0
    requires AhcRun(g, walls, s0, before, maxSteps, t0, ts, p, epsilon, draws, rows, cols)
    requires |ts| > 0 ==> !Done(ts[|ts| - 1].r != 0.0, before + |ts|, maxSteps)
    requires tr.s == if |ts| == 0 then s0 else ts[|ts| - 1].s2
    requires InTable(tr, rows, cols) && GridTransition(g, walls, tr.s, tr.a, tr.r, tr.s2)
    requires tr.a == Choose(AhcEpisode(t0, ts, p, rows, cols).mi[tr.s], true, epsilon, draws(|ts|))
    ensures AhcRun(g, walls, s0, before, maxSteps, t0, ts + [tr], p, epsilon, draws, rows, cols)
  {
    WalkExtend(g, walls, s0, ts, tr);
    RunsOnExtend(ts, tr, before, maxSteps);
    AhcEpisodeSnoc(t0, ts, tr, p, rows, cols);
    assert (ts + [tr])[..|ts|] == ts;
  }

  /** The state of an AHC episode after the steps `ts`: what the run promised so far,
      the values, preferences and traces it made, the states it recorded after
      `steps0` and where the agent stands. */
  predicate AhcLoop(g: seq<seq<real>>, walls: Option<real>, s0: int, steps0: seq<int>, maxSteps: int,
                    t0: AhcTables, ts: seq<Transition>, p: Params, epsilon: real, draws: nat -> Draw, rows: nat, cols: nat,
                    tables: AhcTables, steps: seq<int>, state: int)
    requires Rectangular(g) && |g| > 0 && Cols(g) > 0
    requires AhcShaped(t0, rows, cols) && cols > 0
  {
    && AhcRun(g, walls, s0, |steps0|, maxSteps, t0, ts, p, epsilon, draws, rows, cols)
    && tables == AhcEpisode(t0, ts, p, rows, cols)
    && steps == steps0 + NextStates(ts)
    && state == (if |ts| == 0 then s0 else ts[|ts| - 1].s2)
  }

  /** An AHC episode grows by the step it takes from where it stands with the action
      chosen on its preferences, learning on the step and recording the new state. */
  lemma AhcLoopExtend(g: seq<seq<real>>, walls: Option<real>, s0: int, steps0: seq<int>, maxSteps: int,
                      t0: AhcTables, ts: seq<Transition>, tr: Transition, p: Params, epsilon: real, draws: nat -> Draw,
                      rows: nat, cols: nat, tables: AhcTables, steps: seq<int>, tables': AhcTables, steps': seq<int>)
    requires Rectangular(g) && |g| > 0 && Cols(g) > 0
    requires AhcShaped(t0, rows, cols) && cols > 0
    requires AhcLoop(g, walls, s0, steps0, maxSteps, t0, ts, p, epsilon, draws, rows, cols, tables, steps, tr.s)
    requires |ts| > 0 ==> !Done(ts[|ts| - 1].r != 0.0, |steps0| + |ts|, maxSteps)
    requires InTable(tr, rows, cols) && GridTransition(g, walls, tr.s, tr.a, tr.r, tr.s2)
    requires tr.a == Choose(tables.mi[tr.s], true, epsilon, draws(|ts|))
    requires tables' == AhcStep(tables, tr, p) && steps' == steps + [tr.s2]
    ensures AhcLoop(g, walls, s0, steps0, maxSteps, t0, ts + [tr], p, epsilon, draws, rows, cols, tables', steps', tr.s2)
  {
    AhcRunExtend(g, walls, s0, |steps0|, maxSteps, t0, ts, tr, p, epsilon, draws, rows, cols);
    AhcEpisodeSnoc(t0, ts, tr, p, rows, cols);
    StepsSnoc(steps0, ts, tr, steps, steps');
  }

  /** AHC on a grid environment: a critic V over the states and an actor mi over
      state-action pairs, both moved by the critic's temporal-difference error. */
  class Ahc {
    const env: GridEnvironment
    const lambd: real
    const epsilon: real
    const gamma: real
    const alpha: real
    const beta: real
    /** The state values, one per state. */
    const V: array<real>
    /** The action preferences, one row per state. */
    const mi: array2<real>
    var stepsPerEpisode: seq<nat>

    ghost predicate Valid()
      reads this, env, env.model
    {
      && env.Valid()
      && V.Length == |env.model.grid| * Cols(env.model.grid)
      && mi.Length0 == V.Length
      && mi.Length1 == |Actions|
    }

    function P(): Params {
      Params(alpha, beta, gamma, lambd)
    }

    /** The tables of the learner together with the traces `es` and `esa`. */
    ghost function Tables(es: array<real>, esa: array2<real>): AhcTables
      reads V, mi, es, esa
    {
      AhcTables(V[..], Rows(mi), es[..], Rows(esa))
    }

    /** `AHC(environment, lambd, epsilon, gamma, alpha, beta)`: values of one,
        preferences of zero, and no episode recorded. */
    constructor (environment: GridEnvironment, lambd: real, epsilon: real, gamma: real, alpha: real, beta: real)
      requires environment.Valid()
      ensures Valid() && env == environment
      ensures this.lambd == lambd && this.epsilon == epsilon && this.gamma == gamma
      ensures this.alpha == alpha && this.beta == beta
      ensures fresh(V) && fresh(mi)
      ensures V[..] == seq(|environment.States()|, _ => 1.0)
      ensures Rows(mi) == Zero(|environment.States()|, |Actions|)
      ensures stepsPerEpisode == []
    {
      env := environment;
      this.lambd := lambd;
      this.epsilon := epsilon;
      this.gamma := gamma;
      this.alpha := alpha;
      this.beta := beta;
      var n := |environment.States()|;
      var values := new real[n](_ => 1.0);
      V := values;
      var table := NewTable(n, |Actions|, 0.0);
      mi := table;
      stepsPerEpisode := [];
    }

    /** `get_greedy_actions(s)`: the actions of highest preference at s. */
    function GreedyActions(s: nat): (g: seq<nat>)
      reads mi
      requires s < mi.Length0 && mi.Length1 > 0
      ensures g == ArgMax(Rows(mi)[s])
      ensures |g| > 0 && forall t :: 0 <= t < |g| ==> g[t] < mi.Length1
    {
      ArgMaxIsGreedySet(Rows(mi)[s]);
      var g := ArgMax(Rows(mi)[s]);
      assert forall t :: 0 <= t < |g| ==> g[t] in g;
      g
    }

    /** The learning step after action a took the agent from s to s2 with reward r:
        the error is computed once, then the critic and the actor move. */
    method Update(es: array<real>, esa: array2<real>, s: nat, a: nat, r: real, s2: nat)
      requires es.Length == V.Length && esa.Length0 == mi.Length0 && esa.Length1 == mi.Length1
      requires V != es && mi != esa && V.Length == mi.Length0
      requires s < V.Length && s2 < V.Length && a < mi.Length1
      modifies V, es, mi, esa
      ensures Tables(es, esa) == AhcStep(old(Tables(es, esa)), Transition(s, a, r, s2), P())
    {
      ghost var t := Tables(es, esa);
      ghost var tr := Transition(s, a, r, s2);
      var delta := r + gamma * V[s2] - V[s];
      assert delta == AhcDelta(t.v, tr, P().gamma);
      var decay := gamma * lambd;
      assert decay == Decay(P());
      var criticStep := alpha * delta;
      assert criticStep == CriticStep(t, tr, P());
      var actorStep := beta * delta;
      assert actorStep == ActorStep(t, tr, P());
      TdUpdateVInPlace(V, es, s, criticStep, decay, lambd > 0.0);
      TdUpdateInPlace(mi, esa, s, a, actorStep, decay, lambd > 0.0);
    }

    /** The loop state of `run_learning_episode` after the steps `ts`. */
    ghost predicate InEpisode(es: array<real>, esa: array2<real>, t0: AhcTables, ts: seq<Transition>, s0: int,
                              steps0: seq<int>, draws: nat -> Draw)
      reads this, env, env.model, V, mi, es, esa
    {
      && Valid() && V != es && mi != esa
      && es.Length == V.Length && esa.Length0 == mi.Length0 && esa.Length1 == mi.Length1
      && AhcShaped(t0, V.Length, mi.Length1)
      && AhcLoop(env.model.grid, env.model.wallsMark, s0, steps0, env.maxSteps, t0, ts, P(), epsilon, draws,
                 V.Length, mi.Length1, Tables(es, esa), env.steps, env.state)
    }

    /** A pass of the loop on the arrays: choose an action epsilon-greedily on the
        preferences, act, read the reward and the new state, and learn from the step. */
    method ActAndLearn(es: array<real>, esa: array2<real>, d: Draw) returns (s: nat, a: nat, r: real, s2: nat)
      requires Valid() && V != es && mi != esa
      requires es.Length == V.Length && esa.Length0 == mi.Length0 && esa.Length1 == mi.Length1
      modifies env, env.model, V, es, mi, esa
      ensures Valid()
      ensures s == old(env.state) && s2 == env.state && env.steps == old(env.steps) + [s2]
      ensures s < V.Length && s2 < V.Length && a < mi.Length1
      ensures GridTransition(env.model.grid, env.model.wallsMark, s, a, r, s2)
      ensures a == Choose(old(Rows(mi))[s], true, epsilon, d)
      ensures Tables(es, esa) == AhcStep(old(Tables(es, esa)), Transition(s, a, r, s2), P())
      ensures r != 0.0 <==> env.IsStateAbsorbing()
    {
      var g, walls, p := env.model.grid, env.model.wallsMark, env.model.agentPosition;
      CellStateIsEncoding(g, p);
      s := env.state;
      a := GetAction(true, epsilon, |Actions|, GreedyActions(s), d);
      var _ := env.DoAction(a);
      r := env.Reward();
      MoveIsGridTransition(g, walls, p, a);
      s2 := env.state;
      Update(es, esa, s, a, r, s2);
    }

    /** One pass of the loop of `run_learning_episode`. */
    method EpisodeStep(es: array<real>, esa: array2<real>, ghost t0: AhcTables, ghost ts: seq<Transition>,
                       ghost s0: int, ghost steps0: seq<int>, draws: nat -> Draw, n: nat)
      returns (ghost tr: Transition)
      requires InEpisode(es, esa, t0, ts, s0, steps0, draws) && n == |ts|
      requires |ts| > 0 ==> !Done(ts[|ts| - 1].r != 0.0, |steps0| + |ts|, env.maxSteps)
      modifies env, env.model, V, es, mi, esa
      ensures InEpisode(es, esa, t0, ts + [tr], s0, steps0, draws)
      ensures tr.r != 0.0 <==> env.IsStateAbsorbing()
    {
      ghost var g, walls := env.model.grid, env.model.wallsMark;
      ghost var tables, steps := Tables(es, esa), env.steps;
      assert AhcLoop(g, walls, s0, steps0, env.maxSteps, t0, ts, P(), epsilon, draws, V.Length, mi.Length1,
                     tables, steps, env.state);
      var s, a, r, s2 := ActAndLearn(es, esa, draws(n));
      tr := Transition(s, a, r, s2);
      AhcLoopExtend(g, walls, s0, steps0, env.maxSteps, t0, ts, tr, P(), epsilon, draws,
                    V.Length, mi.Length1, tables, steps, Tables(es, esa), env.steps);
    }

    /** The start of `run_learning_episode`: zero traces of both kinds. */
    method StartEpisode(draws: nat -> Draw) returns (es: array<real>, esa: array2<real>)
      requires Valid()
      ensures fresh(es) && fresh(esa)
      ensures es[..] == seq(V.Length, _ => 0.0) && Rows(esa) == Zero(mi.Length0, mi.Length1)
      ensures InEpisode(es, esa, Tables(es, esa), [], env.state, env.steps, draws)
    {
      es := new real[V.Length](_ => 0.0);
      esa := NewTable(mi.Length0, mi.Length1, 0.0);
      assert NextStates([]) == [];
    }

    /** The loop of `run_learning_episode`, up to the step after which the environment
        is done. */
    method RunSteps(es: array<real>, esa: array2<real>, ghost t0: AhcTables, ghost s0: int, ghost steps0: seq<int>,
                    draws: nat -> Draw)
      returns (ghost ts: seq<Transition>)
      requires InEpisode(es, esa, t0, [], s0, steps0, draws)
      modifies env, env.model, V, es, mi, esa
      ensures |ts| > 0 && InEpisode(es, esa, t0, ts, s0, steps0, draws) && env.IsDone()
    {
      ts := [];
      var n: nat := 0;
      while true
        invariant n == |ts|
        invariant InEpisode(es, esa, t0, ts, s0, steps0, draws)
        invariant |ts| > 0 ==> !Done(ts[|ts| - 1].r != 0.0, |steps0| + |ts|, env.maxSteps)
        decreases env.maxSteps - |env.steps|
      {
        ghost var tr := EpisodeStep(es, esa, t0, ts, s0, steps0, draws, n);
        ts := ts + [tr];
        n := n + 1;
        if env.IsDone() {
          return;
        }
      }
    }

    /** `run_learning_episode`: from zero traces, choose an action epsilon-greedily on
        the preferences, act and move critic and actor by the error of the step, until
        the environment is done. */
    method RunLearningEpisode(draws: nat -> Draw) returns (ghost ts: seq<Transition>)
      requires Valid()
      modifies env, env.model, V, mi
      ensures Valid()
      ensures env.IsDone()
      ensures |ts| > 0 && env.steps == old(env.steps) + NextStates(ts) && env.state == ts[|ts| - 1].s2
      ensures var t0 := AhcTables(old(V[..]), old(Rows(mi)), seq(V.Length, _ => 0.0), Zero(mi.Length0, mi.Length1));
              && AhcRun(env.model.grid, env.model.wallsMark, old(env.state), |old(env.steps)|, env.maxSteps,
                        t0, ts, P(), epsilon, draws, V.Length, mi.Length1)
              && V[..] == AhcEpisode(t0, ts, P(), V.Length, mi.Length1).v
              && Rows(mi) == AhcEpisode(t0, ts, P(), V.Length, mi.Length1).mi
    {
      var es, esa := StartEpisode(draws);
      ts := RunSteps(es, esa, Tables(es, esa), env.state, env.steps, draws);
    }

    method ClearAndRun(draws: nat -> Draw) returns (length: nat)
      requires Valid()
      modifies env, env.model, V, mi
      ensures Valid()
      ensures length == |env.steps| && 1 <= length && (length == 1 || length <= env.maxSteps)
    {
      env.Clear();
      ghost var ts := RunLearningEpisode(draws);
      if |ts| > 1 {
        assert !Done(ts[|ts| - 2].r != 0.0, |ts| - 1, env.maxSteps);
      }
      length := |env.steps|;
    }

    /** `learn`, inherited from `Algorithm`. */
    method Learn(nEpisodes: int, stop: bool, lte: ExtReal, gte: ExtReal, w: int, draws: nat -> nat -> Draw)
      requires Valid()
      modifies this, env, env.model, V, mi
      ensures Valid()
      ensures LearnOutcome(old(stepsPerEpisode), stepsPerEpisode, nEpisodes, stop, lte, gte, w)
      ensures EpisodeLengths(stepsPerEpisode[|old(stepsPerEpisode)|..], env.maxSteps)
      ensures |stepsPerEpisode| > |old(stepsPerEpisode)| ==> stepsPerEpisode[|stepsPerEpisode| - 1] == |env.steps|
    {
      ghost var before := stepsPerEpisode;
      ghost var record := stepsPerEpisode;
      var i: nat := 0;
      while i < nEpisodes
        invariant Valid() && i <= if nEpisodes > 0 then nEpisodes else 0
        invariant stepsPerEpisode == record
        invariant LearnProgress(before, record, i, stop, lte, gte, w)
        invariant EpisodeLengths(record[|before|..], env.maxSteps)
        invariant |record| > |before| ==> record[|record| - 1] == |env.steps|
      {
        var length := ClearAndRun(draws(i));
        EpisodeLengthsSnoc(|before|, record, length, env.maxSteps);
        record := record + [length];
        stepsPerEpisode := stepsPerEpisode + [length];
        if stop && IsLearned(stepsPerEpisode, lte, gte, w) {
          LearnStopped(before, record, i, nEpisodes, stop, lte, gte, w);
          return;
        }
        LearnProgressStep(before, record, i, stop, lte, gte, w);
        i := i + 1;
      }
      LearnProgressOutcome(before, record, i, nEpisodes, stop, lte, gte, w);
    }
  }
}
