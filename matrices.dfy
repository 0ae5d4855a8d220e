/** The numpy vectors and tables the learning algorithms update in place, their values
    as sequences, and the arg-max selection every `get_greedy_actions` performs. */
module Matrices {

  // ---------------------------------------------------------------------------------
  // Values

  /** The contents of a table, row by row. */
  function Rows(A: array2<real>): (m: seq<seq<real>>)
    reads A
    ensures |m| == A.Length0
    ensures forall i :: 0 <= i < |m| ==> |m[i]| == A.Length1
    ensures forall i, j :: 0 <= i < A.Length0 && 0 <= j < A.Length1 ==> m[i][j] == A[i, j]
  {
    seq(A.Length0, i requires 0 <= i < A.Length0 reads A =>
      seq(A.Length1, j requires 0 <= j < A.Length1 reads A => A[i, j]))
  }

  predicate IsMatrix(m: seq<seq<real>>, rows: nat, cols: nat) {
    |m| == rows && forall i :: 0 <= i < |m| ==> |m[i]| == cols
  }

  /** Two tables of the same shape. */
  predicate SameShape(m: seq<seq<real>>, e: seq<seq<real>>) {
    |m| == |e| && forall i :: 0 <= i < |m| ==> |m[i]| == |e[i]|
  }

  /** `np.full((rows, cols), v)`. */
  function Constant(rows: nat, cols: nat, v: real): (m: seq<seq<real>>)
    ensures IsMatrix(m, rows, cols)
    ensures forall i, j :: 0 <= i < rows && 0 <= j < cols ==> m[i][j] == v
  {
    seq(rows, i => seq(cols, j => v))
  }

  /** `v + k * e` elementwise. */
  function AddScaledV(v: seq<real>, k: real, e: seq<real>): (w: seq<real>)
    requires |v| == |e|
    ensures |w| == |v|
    ensures forall j :: 0 <= j < |w| ==> w[j] == v[j] + k * e[j]
  {
    seq(|v|, j requires 0 <= j < |v| => v[j] + k * e[j])
  }

  /** `k * v` elementwise. */
  function ScaledV(v: seq<real>, k: real): (w: seq<real>)
    ensures |w| == |v|
    ensures forall j :: 0 <= j < |w| ==> w[j] == k * v[j]
  {
    seq(|v|, j requires 0 <= j < |v| => k * v[j])
  }

  /** `m + k * e` on whole tables. */
  function AddScaled(m: seq<seq<real>>, k: real, e: seq<seq<real>>): (w: seq<seq<real>>)
    requires SameShape(m, e)
    ensures SameShape(w, m)
    ensures forall i, j :: 0 <= i < |m| && 0 <= j < |m[i]| ==> w[i][j] == m[i][j] + k * e[i][j]
  {
    seq(|m|, i requires 0 <= i < |m| => AddScaledV(m[i], k, e[i]))
  }

  /** `k * m` on whole tables. */
  function Scaled(m: seq<seq<real>>, k: real): (w: seq<seq<real>>)
    ensures SameShape(w, m)
    ensures forall i, j :: 0 <= i < |m| && 0 <= j < |m[i]| ==> w[i][j] == k * m[i][j]
  {
    seq(|m|, i requires 0 <= i < |m| => ScaledV(m[i], k))
  }

  /** `m[i, j] += d`. */
  function Bump(m: seq<seq<real>>, i: nat, j: nat, d: real): (w: seq<seq<real>>)
    requires i < |m| && j < |m[i]|
    ensures SameShape(w, m)
    ensures w[i][j] == m[i][j] + d
    ensures forall i', j' :: 0 <= i' < |m| && 0 <= j' < |m[i']| && (i', j') != (i, j) ==> w[i'][j'] == m[i'][j']
  {
    m[i := m[i][j := m[i][j] + d]]
  }

  /** `sum(v)`, accumulated from the left. */
  function Sum(v: seq<real>): real {
    if |v| == 0 then 0.0 else Sum(v[..|v| - 1]) + v[|v| - 1]
  }

  /** `(a * b).sum()` for vectors of one length. */
  function Dot(a: seq<real>, b: seq<real>): real
    requires |a| == |b|
  {
    if |a| == 0 then 0.0 else Dot(a[..|a| - 1], b[..|b| - 1]) + a[|a| - 1] * b[|b| - 1]
  }

  lemma {:induction false} SumZero(v: seq<real>)
    requires forall j :: 0 <= j < |v| ==> v[j] == 0.0
    ensures Sum(v) == 0.0
  {
    if |v| > 0 {
      SumZero(v[..|v| - 1]);
    }
  }

  lemma {:induction false} DotZero(a: seq<real>, b: seq<real>)
    requires |a| == |b|
    requires forall j :: 0 <= j < |a| ==> a[j] == 0.0
    ensures Dot(a, b) == 0.0
  {
    if |a| > 0 {
      DotZero(a[..|a| - 1], b[..|b| - 1]);
    }
  }

  // ---------------------------------------------------------------------------------
  // Greedy selection

  /** `v.max()`. */
  function Max(v: seq<real>): (m: real)
    requires |v| > 0
    ensures forall j :: 0 <= j < |v| ==> v[j] <= m
    ensures exists j :: 0 <= j < |v| && v[j] == m
  {
    if |v| == 1 then v[0]
    else
      var m' := Max(v[1..]);
      assert forall j :: 1 <= j < |v| ==> v[j] == v[1..][j - 1];
      if v[0] >= m' then v[0] else m'
  }

  /** The indices from `k` on whose value is `m`, ascending. */
  function Positions(v: seq<real>, m: real, k: nat): (p: seq<nat>)
    requires k <= |v|
    decreases |v| - k
  {
    if k == |v| then []
    else (if v[k] == m then [k] else []) + Positions(v, m, k + 1)
  }

  /** Every position found from `k` on is an index from `k` on holding `m`. */
  lemma {:induction false} PositionsSound(v: seq<real>, m: real, k: nat)
    requires k <= |v|
    ensures forall t :: 0 <= t < |Positions(v, m, k)| ==>
              k <= Positions(v, m, k)[t] < |v| && v[Positions(v, m, k)[t]] == m
    decreases |v| - k
  {
    if k < |v| {
      PositionsSound(v, m, k + 1);
      var rest := Positions(v, m, k + 1);
      var head: seq<nat> := if v[k] == m then [k] else [];
      var p := Positions(v, m, k);
      assert p == head + rest;
      forall t | 0 <= t < |p| ensures k <= p[t] < |v| && v[p[t]] == m {
        if t >= |head| {
          assert p[t] == rest[t - |head|];
        }
      }
    }
  }

  /** Every index from `k` on holding `m` is found. */
  lemma {:induction false} PositionsComplete(v: seq<real>, m: real, k: nat)
    requires k <= |v|
    ensures forall j :: k <= j < |v| && v[j] == m ==> j in Positions(v, m, k)
    decreases |v| - k
  {
    if k < |v| {
      PositionsComplete(v, m, k + 1);
      var rest := Positions(v, m, k + 1);
      var head: seq<nat> := if v[k] == m then [k] else [];
      assert Positions(v, m, k) == head + rest;
      forall j | k <= j < |v| && v[j] == m ensures j in head + rest {
        if j == k {
          assert j in head;
        } else {
          assert j in rest;
        }
      }
    }
  }

  /** The positions are found in ascending order. */
  lemma {:induction false} PositionsAscending(v: seq<real>, m: real, k: nat)
    requires k <= |v|
    ensures forall t, u :: 0 <= t < u < |Positions(v, m, k)| ==> Positions(v, m, k)[t] < Positions(v, m, k)[u]
    decreases |v| - k
  {
    if k < |v| {
      PositionsAscending(v, m, k + 1);
      PositionsSound(v, m, k + 1);
      var rest := Positions(v, m, k + 1);
      var head: seq<nat> := if v[k] == m then [k] else [];
      var p := Positions(v, m, k);
      assert p == head + rest;
      forall t, u | 0 <= t < u < |p| ensures p[t] < p[u] {
        assert p[u] == rest[u - |head|];
        if t >= |head| {
          assert p[t] == rest[t - |head|];
        }
      }
    }
  }

  /** `np.where(v == v.max())[0]`: the indices of the maximal entries, ascending. */
  function ArgMax(v: seq<real>): (g: seq<nat>)
    requires |v| > 0
  {
    Positions(v, Max(v), 0)
  }

  /** The arg-max set is non-empty, ascending, and contains exactly the indices whose
      value is at least every other value. */
  lemma ArgMaxIsGreedySet(v: seq<real>)
    requires |v| > 0
    ensures |ArgMax(v)| > 0
    ensures forall t, u :: 0 <= t < u < |ArgMax(v)| ==> ArgMax(v)[t] < ArgMax(v)[u]
    ensures forall j :: j in ArgMax(v) <==> 0 <= j < |v| && forall k :: 0 <= k < |v| ==> v[k] <= v[j]
  {
    PositionsSound(v, Max(v), 0);
    PositionsComplete(v, Max(v), 0);
    PositionsAscending(v, Max(v), 0);
    var j :| 0 <= j < |v| && v[j] == Max(v);
    assert j in ArgMax(v);
  }

  /** With all values equal (a fresh table) every index is greedy, in order. */
  lemma ArgMaxOfConstant(v: seq<real>, c: real)
    requires |v| > 0 && forall j :: 0 <= j < |v| ==> v[j] == c
    ensures |ArgMax(v)| == |v|
    ensures forall t :: 0 <= t < |v| ==> ArgMax(v)[t] == t
  {
    assert Max(v) == c;
    PositionsOfConstant(v, c, 0);
  }

  lemma {:induction false} PositionsOfConstant(v: seq<real>, c: real, k: nat)
    requires k <= |v| && forall j :: 0 <= j < |v| ==> v[j] == c
    ensures |Positions(v, c, k)| == |v| - k
    ensures forall t :: 0 <= t < |v| - k ==> Positions(v, c, k)[t] == k + t
    decreases |v| - k
  {
    if k < |v| {
      PositionsOfConstant(v, c, k + 1);
      var rest := Positions(v, c, k + 1);
      assert v[k] == c;
      assert Positions(v, c, k) == [k] + rest;
      forall t | 0 <= t < |v| - k ensures ([k] + rest)[t] == k + t {
        if t > 0 {
          assert ([k] + rest)[t] == rest[t - 1];
        }
      }
    }
  }

  /** A value strictly above all others is the only greedy index. */
  lemma ArgMaxOfUnique(v: seq<real>, j: nat)
    requires j < |v| && forall i :: 0 <= i < |v| && i != j ==> v[i] < v[j]
    ensures ArgMax(v) == [j]
  {
    assert Max(v) == v[j];
    PositionsOfUnique(v, v[j], 0, j);
  }

  lemma {:induction false} PositionsOfUnique(v: seq<real>, m: real, k: nat, j: nat)
    requires k <= |v| && j < |v| && v[j] == m
    requires forall i :: 0 <= i < |v| && i != j ==> v[i] != m
    ensures Positions(v, m, k) == if k <= j then [j] else []
    decreases |v| - k
  {
    if k < |v| {
      PositionsOfUnique(v, m, k + 1, j);
    }
  }

  // ---------------------------------------------------------------------------------
  // In-place updates

  /** A table equals a value when they agree entry by entry. */
  lemma RowsEqual(A: array2<real>, m: seq<seq<real>>)
    requires IsMatrix(m, A.Length0, A.Length1)
    requires forall i, j :: 0 <= i < A.Length0 && 0 <= j < A.Length1 ==> A[i, j] == m[i][j]
    ensures Rows(A) == m
  {
    forall i | 0 <= i < A.Length0 ensures Rows(A)[i] == m[i] {
    }
  }

  /** `np.full((rows, cols), v)` as a fresh table. */
  method NewTable(rows: nat, cols: nat, v: real) returns (A: array2<real>)
    ensures fresh(A) && A.Length0 == rows && A.Length1 == cols
    ensures Rows(A) == Constant(rows, cols, v)
  {
    A := new real[rows, cols]((i, j) => v);
    RowsEqual(A, Constant(rows, cols, v));
  }

  /** `A[i, j] += d`. */
  method BumpInPlace(A: array2<real>, i: nat, j: nat, d: real)
    requires i < A.Length0 && j < A.Length1
    modifies A
    ensures Rows(A) == Bump(old(Rows(A)), i, j, d)
  {
    ghost var before := Rows(A);
    A[i, j] := A[i, j] + d;
    RowsEqual(A, Bump(before, i, j, d));
  }

  /** `A += k * E` over the whole table. */
  method AddScaledInPlace(A: array2<real>, k: real, E: array2<real>)
    requires A != E && A.Length0 == E.Length0 && A.Length1 == E.Length1
    modifies A
    ensures Rows(A) == AddScaled(old(Rows(A)), k, Rows(E))
  {
    ghost var before := Rows(A);
    for i := 0 to A.Length0
      invariant forall i', j' :: 0 <= i' < A.Length0 && 0 <= j' < A.Length1 ==>
                  A[i', j'] == if i' < i then before[i'][j'] + k * E[i', j'] else before[i'][j']
    {
      for j := 0 to A.Length1
        invariant forall i', j' :: 0 <= i' < A.Length0 && 0 <= j' < A.Length1 ==>
                    A[i', j'] == if i' < i || (i' == i && j' < j) then before[i'][j'] + k * E[i', j'] else before[i'][j']
      {
        A[i, j] := A[i, j] + k * E[i, j];
      }
    }
    RowsEqual(A, AddScaled(before, k, Rows(E)));
  }

  /** `A *= k` over the whole table. */
  method ScaleInPlace(A: array2<real>, k: real)
    modifies A
    ensures Rows(A) == Scaled(old(Rows(A)), k)
  {
    ghost var before := Rows(A);
    for i := 0 to A.Length0
      invariant forall i', j' :: 0 <= i' < A.Length0 && 0 <= j' < A.Length1 ==>
                  A[i', j'] == if i' < i then k * before[i'][j'] else before[i'][j']
    {
      for j := 0 to A.Length1
        invariant forall i', j' :: 0 <= i' < A.Length0 && 0 <= j' < A.Length1 ==>
                    A[i', j'] == if i' < i || (i' == i && j' < j) then k * before[i'][j'] else before[i'][j']
      {
        A[i, j] := k * A[i, j];
      }
    }
    RowsEqual(A, Scaled(before, k));
  }

  /** `A[i, :] += k * E[i, :]`: one row only. */
  method AddScaledRowInPlace(A: array2<real>, i: nat, k: real, E: array2<real>)
    requires A != E && A.Length0 == E.Length0 && A.Length1 == E.Length1 && i < A.Length0
    modifies A
    ensures Rows(A) == old(Rows(A))[i := AddScaledV(old(Rows(A))[i], k, Rows(E)[i])]
  {
    ghost var before := Rows(A);
    for j := 0 to A.Length1
      invariant forall i', j' :: 0 <= i' < A.Length0 && 0 <= j' < A.Length1 ==>
                  A[i', j'] == if i' == i && j' < j then before[i'][j'] + k * E[i', j'] else before[i'][j']
    {
      A[i, j] := A[i, j] + k * E[i, j];
    }
    RowsEqual(A, before[i := AddScaledV(before[i], k, Rows(E)[i])]);
  }

  /** `A[i, :] *= k`: one row only. */
  method ScaleRowInPlace(A: array2<real>, i: nat, k: real)
    requires i < A.Length0
    modifies A
    ensures Rows(A) == old(Rows(A))[i := ScaledV(old(Rows(A))[i], k)]
  {
    ghost var before := Rows(A);
    for j := 0 to A.Length1
      invariant forall i', j' :: 0 <= i' < A.Length0 && 0 <= j' < A.Length1 ==>
                  A[i', j'] == if i' == i && j' < j then k * before[i'][j'] else before[i'][j']
    {
      A[i, j] := k * A[i, j];
    }
    RowsEqual(A, before[i := ScaledV(before[i], k)]);
  }

  /** `A[i, :] += k * v`: one row only. */
  method AddRowInPlace(A: array2<real>, i: nat, k: real, v: seq<real>)
    requires i < A.Length0 && |v| == A.Length1
    modifies A
    ensures Rows(A) == old(Rows(A))[i := AddScaledV(old(Rows(A))[i], k, v)]
  {
    ghost var before := Rows(A);
    for j := 0 to A.Length1
      invariant forall i', j' :: 0 <= i' < A.Length0 && 0 <= j' < A.Length1 ==>
                  A[i', j'] == if i' == i && j' < j then before[i'][j'] + k * v[j'] else before[i'][j']
    {
      A[i, j] := A[i, j] + k * v[j];
    }
    RowsEqual(A, before[i := AddScaledV(before[i], k, v)]);
  }

  /** `V += k * E` on vectors. */
  method AddScaledVInPlace(V: array<real>, k: real, E: array<real>)
    requires V != E && V.Length == E.Length
    modifies V
    ensures V[..] == AddScaledV(old(V[..]), k, E[..])
  {
    ghost var before := V[..];
    for j := 0 to V.Length
      invariant forall j' :: 0 <= j' < V.Length ==> V[j'] == if j' < j then before[j'] + k * E[j'] else before[j']
    {
      V[j] := V[j] + k * E[j];
    }
    assert forall j' :: 0 <= j' < V.Length ==> V[..][j'] == AddScaledV(before, k, E[..])[j'];
    assert V[..] == AddScaledV(before, k, E[..]);
  }

  /** `V *= k` on vectors. */
  method ScaleVInPlace(V: array<real>, k: real)
    modifies V
    ensures V[..] == ScaledV(old(V[..]), k)
  {
    ghost var before := V[..];
    for j := 0 to V.Length
      invariant forall j' :: 0 <= j' < V.Length ==> V[j'] == if j' < j then k * before[j'] else before[j']
    {
      V[j] := k * V[j];
    }
    assert forall j' :: 0 <= j' < V.Length ==> V[..][j'] == ScaledV(before, k)[j'];
    assert V[..] == ScaledV(before, k);
  }

  /** The row of a table, read into a value. */
  method RowOf(A: array2<real>, i: nat) returns (v: seq<real>)
    requires i < A.Length0
    ensures v == Rows(A)[i]
  {
    v := [];
    for j := 0 to A.Length1
      invariant v == Rows(A)[i][..j]
    {
      v := v + [A[i, j]];
    }
  }
}
