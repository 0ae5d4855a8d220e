/** The fuzzy algorithms of algorithm/fuzzy.py: FQ, FSARSA and FR learn one action
    value per fuzzy rule, a rule being one membership function of every state
    variable.  A state is the vector of grades of every variable; phi is the product
    of the grades over the rules, Q(s) the phi-weighted average of each action's
    values, and every step moves each action's values by its traces, or the chosen
    action's by phi.  Tensors of the state shape are flattened in row-major order. */
module FuzzyLearning {
  import opened Wrappers
  import opened ExtReals
  import opened Matrices
  import opened Learning
  import opened Fuzzy
  import opened Approximators
  import opened Environments
  import Classic
  import Compatibility

  // ---------------------------------------------------------------------------------
  // phi

  /** `a * b` on naturals as repeated addition, which keeps the index arithmetic
      below linear for the solver (TimesIsProduct relates it to `*`). */
  function Times(a: nat, b: nat): nat
    decreases a
  {
    if a == 0 then 0 else Times(a - 1, b) + b
  }

  lemma {:induction false} TimesIsProduct(a: nat, b: nat)
    ensures Times(a, b) == a * b
    decreases a
  {
    if a > 0 {
      TimesIsProduct(a - 1, b);
      assert (a - 1) * b + b == a * b;
    }
  }

  lemma {:induction false} TimesOne(a: nat)
    ensures Times(a, 1) == a
    decreases a
  {
    if a > 0 {
      TimesOne(a - 1);
    }
  }

  /** The number of rules of the grade vectors gs: the product of their lengths. */
  function Size(gs: seq<seq<real>>): nat
    decreases |gs|
  {
    if |gs| == 0 then 1 else Times(|gs[0]|, Size(gs[1..]))
  }

  /** `a * b`.  Products of grades go through this function, so that the solver
      treats equal products as equal terms. */
  function Mul(a: real, b: real): real {
    a * b
  }

  /** `x * k` on a grade vector. */
  function Scale(x: seq<real>, k: real): (w: seq<real>)
    ensures |w| == |x|
    decreases |x|
  {
    if |x| == 0 then [] else Scale(x[..|x| - 1], k) + [Mul(k, x[|x| - 1])]
  }

  lemma {:induction false} ScaleEntry(x: seq<real>, k: real, j: nat)
    requires j < |x|
    ensures Scale(x, k)[j] == Mul(k, x[j])
    decreases |x|
  {
    if j < |x| - 1 {
      ScaleEntry(x[..|x| - 1], k, j);
      assert Scale(x, k)[j] == Scale(x[..|x| - 1], k)[j];
    }
  }

  /** `np.array([x * i for i in y])`, flattened: x scaled by each grade of y in turn. */
  function Outer(y: seq<real>, x: seq<real>): (p: seq<real>)
    ensures |p| == Times(|y|, |x|)
    decreases |y|
  {
    if |y| == 0 then [] else Outer(y[..|y| - 1], x) + Scale(x, y[|y| - 1])
  }

  /** `phi(s)`: the reduce over the reversed grade vectors, so that its entry at rule
      (i_0, ..., i_{n-1}) is `gs[0][i_0] * ... * gs[n-1][i_{n-1}]` (see PhiEntry). */
  function Phi(gs: seq<seq<real>>): (p: seq<real>)
    requires |gs| > 0
    ensures |p| == Size(gs)
    decreases |gs|
  {
    if |gs| == 1 then
      assert Size(gs[1..]) == 1;
      TimesOne(|gs[0]|);
      gs[0]
    else Outer(gs[0], Phi(gs[1..]))
  }

  /** `phi` of any state: a state with no variables makes `reduce` raise TypeError. */
  function PhiOf(gs: seq<seq<real>>): (r: Result<seq<real>>)
    ensures r.Err? <==> |gs| == 0
    ensures r.Err? ==> r.error == TypeError
    ensures r.Ok? ==> r.value == Phi(gs)
  {
    if |gs| == 0 then Err(TypeError) else Ok(Phi(gs))
  }

  /** A rule: one membership function of every variable. */
  predicate IsRule(gs: seq<seq<real>>, idx: seq<nat>) {
    |idx| == |gs| && forall k :: 0 <= k < |gs| ==> idx[k] < |gs[k]|
  }

  /** The row-major position of a rule among all rules. */
  function FlatIndex(gs: seq<seq<real>>, idx: seq<nat>): nat
    requires |idx| == |gs|
    decreases |gs|
  {
    if |gs| == 0 then 0 else Times(idx[0], Size(gs[1..])) + FlatIndex(gs[1..], idx[1..])
  }

  /** The product of the grades a rule picks. */
  function GradeProduct(gs: seq<seq<real>>, idx: seq<nat>): real
    requires IsRule(gs, idx)
    decreases |gs|
  {
    if |gs| == 0 then 1.0
    else
      RestIsRule(gs, idx);
      Mul(gs[0][idx[0]], GradeProduct(gs[1..], idx[1..]))
  }

  lemma {:induction false} GradeProductStep(gs: seq<seq<real>>, idx: seq<nat>)
    requires |gs| > 0 && IsRule(gs, idx)
    ensures IsRule(gs[1..], idx[1..])
    ensures GradeProduct(gs, idx) == Mul(gs[0][idx[0]], GradeProduct(gs[1..], idx[1..]))
  {
    RestIsRule(gs, idx);
  }

  /** Row-major positions: cell (i, j) of an n-by-m grid lies inside it, and inside
      its first n - 1 rows when i does. */
  lemma {:induction false} RowMajor(i: nat, n: nat, j: nat, m: nat)
    requires i < n && j < m
    ensures Times(i, m) + j < Times(n, m)
    ensures i < n - 1 ==> Times(i, m) + j < Times(n - 1, m)
    decreases n
  {
    if i < n - 1 {
      RowMajor(i, n - 1, j, m);
    }
  }

  /** Entry `i * |x| + j` of the flattened outer product is entry j of x scaled by
      `y[i]` (ScaleEntry: `Mul(y[i], x[j])`). */
  lemma {:induction false} OuterEntry(y: seq<real>, x: seq<real>, i: nat, j: nat)
    requires i < |y| && j < |x|
    ensures Times(i, |x|) + j < |Outer(y, x)|
    ensures Outer(y, x)[Times(i, |x|) + j] == Scale(x, y[i])[j]
    decreases |y|
  {
    RowMajor(i, |y|, j, |x|);
    if i < |y| - 1 {
      OuterEntry(y[..|y| - 1], x, i, j);
      assert y[..|y| - 1][i] == y[i];
    }
  }

  lemma {:induction false} RestIsRule(gs: seq<seq<real>>, idx: seq<nat>)
    requires |gs| > 0 && IsRule(gs, idx)
    ensures IsRule(gs[1..], idx[1..])
  {
    var rest, ri := gs[1..], idx[1..];
    forall k | 0 <= k < |rest| ensures ri[k] < |rest[k]| {
      assert ri[k] == idx[k + 1] && rest[k] == gs[k + 1];
    }
  }

  /** Every rule has its own position among the rules. */
  lemma {:induction false} FlatIndexBound(gs: seq<seq<real>>, idx: seq<nat>)
    requires IsRule(gs, idx)
    ensures FlatIndex(gs, idx) < Size(gs)
    decreases |gs|
  {
    if |gs| > 0 {
      var m := Size(gs[1..]);
      RestIsRule(gs, idx);
      FlatIndexBound(gs[1..], idx[1..]);
      RowMajor(idx[0], |gs[0]|, FlatIndex(gs[1..], idx[1..]), m);
    }
  }

  /** Each entry of phi is the product of the grades of its rule. */
  lemma {:induction false} PhiEntry(gs: seq<seq<real>>, idx: seq<nat>)
    requires |gs| > 0 && IsRule(gs, idx)
    ensures FlatIndex(gs, idx) < |Phi(gs)|
    ensures Phi(gs)[FlatIndex(gs, idx)] == GradeProduct(gs, idx)
    decreases |gs|
  {
    FlatIndexBound(gs, idx);
    RestIsRule(gs, idx);
    if |gs| == 1 {
      assert gs[1..] == [] && idx[1..] == [];
      TimesOne(idx[0]);
      assert FlatIndex(gs, idx) == idx[0];
      assert GradeProduct(gs, idx) == gs[0][idx[0]];
    } else {
      PhiEntry(gs[1..], idx[1..]);
      PhiEntryCons(gs, idx);
    }
  }

  /** The inductive step of PhiEntry: the rule's entry sits in the block its first
      grade scales. */
  lemma {:induction false} PhiEntryCons(gs: seq<seq<real>>, idx: seq<nat>)
    requires |gs| > 1 && IsRule(gs, idx) && IsRule(gs[1..], idx[1..])
    requires FlatIndex(gs[1..], idx[1..]) < |Phi(gs[1..])|
    requires Phi(gs[1..])[FlatIndex(gs[1..], idx[1..])] == GradeProduct(gs[1..], idx[1..])
    ensures FlatIndex(gs, idx) < |Phi(gs)|
    ensures Phi(gs)[FlatIndex(gs, idx)] == GradeProduct(gs, idx)
  {
    var x, j, g := Phi(gs[1..]), FlatIndex(gs[1..], idx[1..]), gs[0][idx[0]];
    assert Phi(gs) == Outer(gs[0], x);
    assert FlatIndex(gs, idx) == Times(idx[0], |x|) + j;
    OuterEntry(gs[0], x, idx[0], j);
    ScaleEntry(x, g, j);
    GradeProductStep(gs, idx);
  }

  /** No entry is negative. */
  predicate NonNegative(v: seq<real>) {
    forall j :: 0 <= j < |v| ==> 0.0 <= v[j]
  }

  /** Some entry is positive. */
  predicate SomePositive(v: seq<real>) {
    exists j :: 0 <= j < |v| && v[j] > 0.0
  }

  /** On non-negative entries the sum is never negative, and it is positive exactly
      when some entry is. */
  lemma {:induction false} SumPositive(v: seq<real>)
    requires NonNegative(v)
    ensures Sum(v) >= 0.0
    ensures Sum(v) > 0.0 <==> SomePositive(v)
    decreases |v|
  {
    if |v| > 0 {
      var front := v[..|v| - 1];
      assert NonNegative(front) by {
        forall j | 0 <= j < |front| ensures 0.0 <= front[j] {
          assert front[j] == v[j];
        }
      }
      SumPositive(front);
      if SomePositive(front) {
        var j :| 0 <= j < |front| && front[j] > 0.0;
        assert v[j] == front[j];
      }
      if SomePositive(v) {
        var j :| 0 <= j < |v| && v[j] > 0.0;
        if j < |front| {
          assert front[j] == v[j];
        }
      }
    }
  }

  lemma {:induction false} ProductSign(a: real, b: real)
    requires a >= 0.0 && b >= 0.0
    ensures Mul(a, b) >= 0.0
    ensures Mul(a, b) > 0.0 <==> a > 0.0 && b > 0.0
  {
    if a > 0.0 && b > 0.0 {
      assert a * b > 0.0;
    }
  }

  /** x scaled by a non-negative k stays non-negative, and has a positive entry
      exactly when k and some entry of x are positive. */
  lemma {:induction false} ScaleSign(x: seq<real>, k: real)
    requires NonNegative(x) && k >= 0.0
    ensures NonNegative(Scale(x, k))
    ensures SomePositive(Scale(x, k)) <==> k > 0.0 && SomePositive(x)
  {
    var w := Scale(x, k);
    forall j | 0 <= j < |w| ensures 0.0 <= w[j] && (w[j] > 0.0 <==> k > 0.0 && x[j] > 0.0) {
      ScaleEntry(x, k, j);
      ProductSign(k, x[j]);
    }
    if SomePositive(w) {
      var j :| 0 <= j < |w| && w[j] > 0.0;
      assert x[j] > 0.0;
    }
    if k > 0.0 && SomePositive(x) {
      var j :| 0 <= j < |x| && x[j] > 0.0;
      assert w[j] > 0.0;
    }
  }

  lemma {:induction false} ConcatSign(a: seq<real>, b: seq<real>)
    requires NonNegative(a) && NonNegative(b)
    ensures NonNegative(a + b)
    ensures SomePositive(a + b) <==> SomePositive(a) || SomePositive(b)
  {
    var c := a + b;
    if SomePositive(c) {
      var j :| 0 <= j < |c| && c[j] > 0.0;
      if j < |a| {
        assert a[j] == c[j];
      } else {
        assert b[j - |a|] == c[j];
      }
    }
    if SomePositive(a) {
      var j :| 0 <= j < |a| && a[j] > 0.0;
      assert c[j] == a[j];
    }
    if SomePositive(b) {
      var j :| 0 <= j < |b| && b[j] > 0.0;
      assert c[|a| + j] == b[j];
    }
  }

  /** The outer product of non-negative vectors is non-negative, and has a positive
      entry exactly when both vectors do. */
  lemma {:induction false} OuterSign(y: seq<real>, x: seq<real>)
    requires NonNegative(y) && NonNegative(x)
    ensures NonNegative(Outer(y, x))
    ensures SomePositive(Outer(y, x)) <==> SomePositive(y) && SomePositive(x)
    decreases |y|
  {
    if |y| > 0 {
      var front := y[..|y| - 1];
      assert NonNegative(front) by {
        forall j | 0 <= j < |front| ensures 0.0 <= front[j] {
          assert front[j] == y[j];
        }
      }
      OuterSign(front, x);
      ScaleSign(x, y[|y| - 1]);
      ConcatSign(Outer(front, x), Scale(x, y[|y| - 1]));
      if SomePositive(front) {
        var j :| 0 <= j < |front| && front[j] > 0.0;
        assert y[j] == front[j];
      }
      if SomePositive(y) {
        var j :| 0 <= j < |y| && y[j] > 0.0;
        if j < |front| {
          assert front[j] == y[j];
        }
      }
    }
  }

  /** Grades are never negative. */
  predicate Graded(gs: seq<seq<real>>) {
    forall k :: 0 <= k < |gs| ==> NonNegative(gs[k])
  }

  /** Every variable has some positive grade. */
  predicate Covered(gs: seq<seq<real>>) {
    forall k :: 0 <= k < |gs| ==> SomePositive(gs[k])
  }

  /** A state is graded, and covered, exactly when its first variable and the rest are. */
  lemma {:induction false} GradedCons(gs: seq<seq<real>>)
    requires |gs| > 0
    ensures Graded(gs) <==> NonNegative(gs[0]) && Graded(gs[1..])
    ensures Covered(gs) <==> SomePositive(gs[0]) && Covered(gs[1..])
  {
    var rest := gs[1..];
    assert forall k :: 0 <= k < |rest| ==> rest[k] == gs[k + 1];
    assert forall k :: 0 < k < |gs| ==> gs[k] == rest[k - 1];
  }

  /** phi of non-negative grades is non-negative, and some rule fires exactly when
      every variable has a positive grade. */
  lemma {:induction false} PhiSign(gs: seq<seq<real>>)
    requires |gs| > 0 && Graded(gs)
    ensures NonNegative(Phi(gs))
    ensures SomePositive(Phi(gs)) <==> Covered(gs)
    decreases |gs|
  {
    GradedCons(gs);
    if |gs| > 1 {
      PhiSign(gs[1..]);
      OuterSign(gs[0], Phi(gs[1..]));
    } else {
      assert Covered(gs[1..]);
    }
  }

  /** `phi(s).sum()` is never negative, and it is zero exactly when some variable
      has no positive grade. */
  lemma {:induction false} PhiVanishes(gs: seq<seq<real>>)
    requires |gs| > 0 && Graded(gs)
    ensures NonNegative(Phi(gs)) && Sum(Phi(gs)) >= 0.0
    ensures Sum(Phi(gs)) == 0.0 <==> !Covered(gs)
  {
    PhiSign(gs);
    SumPositive(Phi(gs));
  }

  // ---------------------------------------------------------------------------------
  // Action values

  /** What `Q(s)` returns: the scalar 0.0 when no rule fires, else one value per
      action. */
  datatype QValue = Scalar(x: real) | Vector(v: seq<real>)

  /** `Q(s)`: each action's values weighted by phi and divided by phi's sum; the
      scalar 0.0 when phi sums to zero. */
  function QOf(q: seq<seq<real>>, phi: seq<real>): (r: QValue)
    requires forall b :: 0 <= b < |q| ==> |q[b]| == |phi|
    ensures r.Scalar? <==> Sum(phi) == 0.0
    ensures r.Scalar? ==> r.x == 0.0
    ensures r.Vector? ==> |r.v| == |q|
  {
    if Sum(phi) == 0.0 then Scalar(0.0)
    else Vector(seq(|q|, b requires 0 <= b < |q| => Dot(q[b], phi) / Sum(phi)))
  }

  /** Q(s)[b] is the phi-weighted mean of action b's values: scaled back by phi's sum
      it is their phi-weighted sum. */
  lemma {:induction false} QOfWeighted(q: seq<seq<real>>, phi: seq<real>, b: nat)
    requires forall c :: 0 <= c < |q| ==> |q[c]| == |phi|
    requires Sum(phi) != 0.0 && b < |q|
    ensures QOf(q, phi).v[b] * Sum(phi) == Dot(q[b], phi)
  {
  }

  /** `Q.max()`: a float has no `max` (AttributeError), and numpy refuses the
      maximum of no values (ValueError). */
  function QMax(qv: QValue): (r: Result<real>)
    ensures qv.Scalar? ==> r == Err(AttributeError)
    ensures qv.Vector? && |qv.v| == 0 ==> r == Err(ValueError)
    ensures qv.Vector? && |qv.v| > 0 ==> r.Ok? && (forall b :: 0 <= b < |qv.v| ==> qv.v[b] <= r.value) &&
                                         exists b :: 0 <= b < |qv.v| && qv.v[b] == r.value
  {
    if qv.Scalar? then Err(AttributeError)
    else if |qv.v| == 0 then Err(ValueError)
    else Ok(Max(qv.v))
  }

  /** `Q[a]`: a float cannot be indexed (TypeError), nor a vector past its end
      (IndexError). */
  function QAt(qv: QValue, a: nat): (r: Result<real>)
    ensures qv.Scalar? ==> r == Err(TypeError)
    ensures qv.Vector? && a >= |qv.v| ==> r == Err(IndexError)
    ensures qv.Vector? && a < |qv.v| ==> r == Ok(qv.v[a])
  {
    if qv.Scalar? then Err(TypeError)
    else if a >= |qv.v| then Err(IndexError)
    else Ok(qv.v[a])
  }

  /** No action has a higher value than a. */
  predicate Best(v: seq<real>, a: nat) {
    a < |v| && forall c :: 0 <= c < |v| ==> v[c] <= v[a]
  }

  /** `get_greedy_actions(s)`: the actions of highest Q(s), ascending; the scalar
      Q of a state no rule covers has no `max` and raises AttributeError. */
  function Greedy(q: seq<seq<real>>, phi: seq<real>): (r: Result<seq<nat>>)
    requires |q| > 0 && forall b :: 0 <= b < |q| ==> |q[b]| == |phi|
    ensures r.Err? <==> Sum(phi) == 0.0
    ensures r.Err? ==> r.error == AttributeError
    ensures r.Ok? ==> |r.value| > 0 && forall t, u :: 0 <= t < u < |r.value| ==> r.value[t] < r.value[u]
    ensures r.Ok? ==> forall b :: b in r.value <==> Best(QOf(q, phi).v, b)
  {
    match QOf(q, phi)
    case Scalar(_) => Err(AttributeError)
    case Vector(v) =>
      ArgMaxIsGreedySet(v);
      Ok(ArgMax(v))
  }

  /** With all values zero, Q of a covered state is zero for every action, and so
      every action is greedy, in order. */
  lemma {:induction false} GreedyOfZeroTable(q: seq<seq<real>>, phi: seq<real>)
    requires |q| > 0 && forall b :: 0 <= b < |q| ==> |q[b]| == |phi|
    requires forall b, k :: 0 <= b < |q| && 0 <= k < |phi| ==> q[b][k] == 0.0
    requires Sum(phi) != 0.0
    ensures Greedy(q, phi).Ok? && |Greedy(q, phi).value| == |q|
    ensures forall t :: 0 <= t < |q| ==> Greedy(q, phi).value[t] == t
  {
    var v := QOf(q, phi).v;
    forall b | 0 <= b < |q| ensures v[b] == 0.0 {
      DotZero(q[b], phi);
    }
    ArgMaxOfConstant(v, 0.0);
  }

  // ---------------------------------------------------------------------------------
  // Steps

  /** The action values, one row of rule values per action, and their traces. */
  datatype FTables = FTables(q: seq<seq<real>>, e: seq<seq<real>>)

  /** One step at action a with the state's phi.  With traces, `e[a] += phi`, every
      value moves by `step * e` and every trace is multiplied by `decay`; without,
      only `q[a]` moves, by `step * phi`. */
  function FUpdate(t: FTables, a: nat, phi: seq<real>, step: real, decay: real, traced: bool): (u: FTables)
    requires SameShape(t.q, t.e) && a < |t.q| && |t.q[a]| == |phi|
    ensures SameShape(u.q, t.q) && SameShape(u.e, t.e)
  {
    if traced then
      var e1 := t.e[a := AddScaledV(t.e[a], 1.0, phi)];
      FTables(AddScaled(t.q, step, e1), Scaled(e1, decay))
    else FTables(t.q[a := AddScaledV(t.q[a], step, phi)], t.e)
  }

  /** How entry (b, k) moves in a step at action a: untraced, only action a's values
      move, each by `step * phi[k]`, and the traces stay; traced, every value moves by
      `step` times its trace after action a's traces gained phi, and that trace is
      multiplied by `decay`. */
  lemma {:induction false} FUpdateEntry(t: FTables, a: nat, phi: seq<real>, step: real, decay: real, traced: bool, b: nat, k: nat)
    requires SameShape(t.q, t.e) && a < |t.q| && |t.q[a]| == |phi|
    requires b < |t.q| && k < |t.q[b]|
    ensures var u := FUpdate(t, a, phi, step, decay, traced);
            var bumped := t.e[b][k] + (if b == a then phi[k] else 0.0);
            && (!traced ==> u.e == t.e && u.q[b][k] == t.q[b][k] + (if b == a then step * phi[k] else 0.0))
            && (traced ==> u.q[b][k] == t.q[b][k] + step * bumped && u.e[b][k] == decay * bumped)
  {
  }

  /** `delta = r + gamma * Q(s_).max() - Q(s)[a]`, evaluated left to right. */
  function FQDelta(q: seq<seq<real>>, phi: seq<real>, a: nat, r: real, phi2: seq<real>, gamma: real): (d: Result<real>)
    requires |q| > 0 && |phi2| == |phi| && forall b :: 0 <= b < |q| ==> |q[b]| == |phi|
    ensures d.Err? <==> Sum(phi2) == 0.0 || Sum(phi) == 0.0 || a >= |q|
    ensures Sum(phi2) == 0.0 ==> d == Err(AttributeError)
    ensures Sum(phi2) != 0.0 && Sum(phi) == 0.0 ==> d == Err(TypeError)
    ensures d.Ok? ==> d.value == r + Mul(gamma, Max(QOf(q, phi2).v)) - QOf(q, phi).v[a]
  {
    var next :- QMax(QOf(q, phi2));
    var here :- QAt(QOf(q, phi), a);
    Ok(r + Mul(gamma, next) - here)
  }

  /** `delta = r + gamma * Q(s_)[a_] - Q(s)[a]`, evaluated left to right. */
  function FSarsaDelta(q: seq<seq<real>>, phi: seq<real>, a: nat, r: real, phi2: seq<real>, a2: nat, gamma: real)
    : (d: Result<real>)
    requires |phi2| == |phi| && forall b :: 0 <= b < |q| ==> |q[b]| == |phi|
    ensures d.Err? <==> Sum(phi2) == 0.0 || Sum(phi) == 0.0 || a >= |q| || a2 >= |q|
    ensures Sum(phi2) == 0.0 ==> d == Err(TypeError)
    ensures d.Ok? ==> d.value == r + Mul(gamma, QOf(q, phi2).v[a2]) - QOf(q, phi).v[a]
  {
    var next :- QAt(QOf(q, phi2), a2);
    var here :- QAt(QOf(q, phi), a);
    Ok(r + Mul(gamma, next) - here)
  }

  /** `delta = r - rho + Q(s_).max() - Q(s)[a]`, evaluated left to right. */
  function FRDelta(q: seq<seq<real>>, rho: real, phi: seq<real>, a: nat, r: real, phi2: seq<real>): (d: Result<real>)
    requires |q| > 0 && |phi2| == |phi| && forall b :: 0 <= b < |q| ==> |q[b]| == |phi|
    ensures d.Err? <==> Sum(phi2) == 0.0 || Sum(phi) == 0.0 || a >= |q|
    ensures Sum(phi2) == 0.0 ==> d == Err(AttributeError)
    ensures Sum(phi2) != 0.0 && Sum(phi) == 0.0 ==> d == Err(TypeError)
    ensures d.Ok? ==> d.value == r - rho + Max(QOf(q, phi2).v) - QOf(q, phi).v[a]
  {
    var next :- QMax(QOf(q, phi2));
    var here :- QAt(QOf(q, phi), a);
    Ok(r - rho + next - here)
  }

  // ---------------------------------------------------------------------------------
  // Steps of an episode

  /** The number of rules of a state shape: the product of its entries. */
  function Cells(shape: seq<nat>): nat
    decreases |shape|
  {
    if |shape| == 0 then 1 else Times(shape[0], Cells(shape[1..]))
  }

  /** Grade vectors of the lengths a shape lists have that shape's number of rules. */
  lemma {:induction false} SizeOfShape(gs: seq<seq<real>>, shape: seq<nat>)
    requires |gs| == |shape| && forall k :: 0 <= k < |gs| ==> |gs[k]| == shape[k]
    ensures Size(gs) == Cells(shape)
    decreases |gs|
  {
    if |gs| > 0 {
      SizeOfShape(gs[1..], shape[1..]);
    }
  }

  /** One step of an episode: the observation and its grades before, the action, the
      reward, and the observation and its grades after. */
  datatype Transition = Transition(obs: seq<real>, gs: seq<seq<real>>, a: nat, r: real,
                                   obs2: seq<real>, gs2: seq<seq<real>>)

  /** Grades of `cols` rules, some of which fire: Q of such a state is a vector. */
  predicate Fires(gs: seq<seq<real>>, cols: nat) {
    |gs| > 0 && |Phi(gs)| == cols && Sum(Phi(gs)) != 0.0
  }

  /** A step whose action is one of `rows` and whose states both fire over `cols` rules. */
  predicate InTable(tr: Transition, rows: nat, cols: nat) {
    tr.a < rows && Fires(tr.gs, cols) && Fires(tr.gs2, cols)
  }

  /** Values and traces of `rows` actions over `cols` rules. */
  predicate Shaped(t: FTables, rows: nat, cols: nat) {
    IsMatrix(t.q, rows, cols) && IsMatrix(t.e, rows, cols)
  }

  /** The step `alpha * delta` of an FQ update. */
  function FQStepSize(t: FTables, tr: Transition, p: Params, rows: nat, cols: nat): real
    requires Shaped(t, rows, cols) && InTable(tr, rows, cols)
  {
    Mul(p.alpha, FQDelta(t.q, Phi(tr.gs), tr.a, tr.r, Phi(tr.gs2), p.gamma).value)
  }

  /** One FQ step: traces decay by `gamma * lambda`. */
  function FQStep(t: FTables, tr: Transition, p: Params, rows: nat, cols: nat): (u: FTables)
    requires Shaped(t, rows, cols) && InTable(tr, rows, cols)
    ensures Shaped(u, rows, cols)
  {
    FUpdate(t, tr.a, Phi(tr.gs), FQStepSize(t, tr, p, rows, cols), Decay(p), p.lambd > 0.0)
  }

  /** The step `alpha * delta` of an FSARSA update, a2 being the next action. */
  function FSarsaStepSize(t: FTables, tr: Transition, a2: nat, p: Params, rows: nat, cols: nat): real
    requires Shaped(t, rows, cols) && InTable(tr, rows, cols) && a2 < rows
  {
    Mul(p.alpha, FSarsaDelta(t.q, Phi(tr.gs), tr.a, tr.r, Phi(tr.gs2), a2, p.gamma).value)
  }

  /** One FSARSA step: traces decay by `gamma * lambda`. */
  function FSarsaStep(t: FTables, tr: Transition, a2: nat, p: Params, rows: nat, cols: nat): (u: FTables)
    requires Shaped(t, rows, cols) && InTable(tr, rows, cols) && a2 < rows
    ensures Shaped(u, rows, cols)
  {
    FUpdate(t, tr.a, Phi(tr.gs), FSarsaStepSize(t, tr, a2, p, rows, cols), Decay(p), p.lambd > 0.0)
  }

  /** The values and traces of FR with its average-reward estimate rho. */
  datatype FRTables = FRTables(t: FTables, rho: real)

  /** The step `alpha * delta` of an FR update. */
  function FRStepSize(t: FRTables, tr: Transition, p: Params, rows: nat, cols: nat): real
    requires Shaped(t.t, rows, cols) && InTable(tr, rows, cols)
  {
    Mul(p.alpha, FRDelta(t.t.q, t.rho, Phi(tr.gs), tr.a, tr.r, Phi(tr.gs2)).value)
  }

  /** `rho += beta * (r - rho + Q(s_).max() - Q(s).max())` on the values q. */
  function RhoMove(q: seq<seq<real>>, rho: real, tr: Transition, beta: real, rows: nat, cols: nat): real
    requires IsMatrix(q, rows, cols) && InTable(tr, rows, cols)
  {
    rho + Mul(beta, tr.r - rho + Max(QOf(q, Phi(tr.gs2)).v) - Max(QOf(q, Phi(tr.gs)).v))
  }

  /** The rho update after the values moved to q: rho moves on q when a is greedy at s
      on q, and stays otherwise. */
  function RhoStep(q: seq<seq<real>>, rho: real, tr: Transition, beta: real, rows: nat, cols: nat): real
    requires IsMatrix(q, rows, cols) && InTable(tr, rows, cols)
  {
    if tr.a in Greedy(q, Phi(tr.gs)).value then RhoMove(q, rho, tr, beta, rows, cols) else rho
  }

  /** rho moves exactly when the action is greedy at s on the values q: no action has
      a higher Q(s). */
  lemma RhoStepMoves(q: seq<seq<real>>, rho: real, tr: Transition, beta: real, rows: nat, cols: nat)
    requires IsMatrix(q, rows, cols) && InTable(tr, rows, cols)
    ensures Best(QOf(q, Phi(tr.gs)).v, tr.a) ==> RhoStep(q, rho, tr, beta, rows, cols) == RhoMove(q, rho, tr, beta, rows, cols)
    ensures !Best(QOf(q, Phi(tr.gs)).v, tr.a) ==> RhoStep(q, rho, tr, beta, rows, cols) == rho
  {
    var g := Greedy(q, Phi(tr.gs));
    assert g.Ok?;
    assert tr.a in g.value <==> Best(QOf(q, Phi(tr.gs)).v, tr.a);
  }

  /** The values and traces after an FR step: traces decay by lambda alone. */
  function FRTableStep(t: FRTables, tr: Transition, p: Params, rows: nat, cols: nat): (u: FTables)
    requires Shaped(t.t, rows, cols) && InTable(tr, rows, cols)
    ensures Shaped(u, rows, cols)
  {
    FUpdate(t.t, tr.a, Phi(tr.gs), FRStepSize(t, tr, p, rows, cols), p.lambd, p.lambd > 0.0)
  }

  /** One FR step: the values learn, and then rho moves on the new values when a is
      greedy at s on them. */
  function FRStep(t: FRTables, tr: Transition, p: Params, rows: nat, cols: nat): (u: FRTables)
    requires Shaped(t.t, rows, cols) && InTable(tr, rows, cols)
    ensures Shaped(u.t, rows, cols)
  {
    var tables := FRTableStep(t, tr, p, rows, cols);
    FRTables(tables, RhoStep(tables.q, t.rho, tr, p.beta, rows, cols))
  }

  /** Without traces only the chosen action's values of rules that fire move: a rule
      whose grade product is zero keeps its value. */
  lemma FUpdateOnlyFiring(t: FTables, a: nat, phi: seq<real>, step: real, decay: real, b: nat, k: nat)
    requires SameShape(t.q, t.e) && a < |t.q| && |t.q[a]| == |phi|
    requires b < |t.q| && k < |t.q[b]| && (b != a || phi[k] == 0.0)
    ensures FUpdate(t, a, phi, step, decay, false).q[b][k] == t.q[b][k]
  {
    FUpdateEntry(t, a, phi, step, decay, false, b, k);
  }
}
