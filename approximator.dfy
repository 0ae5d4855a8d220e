/** The state approximators of approximator.py together with the validation the
    `Approximator` base class of abstract.py performs: a table approximator counts
    crossed cut-points and encodes them in mixed radix, a CMAC approximator stacks
    offset tilings, and a fuzzy approximator maps each observation to membership
    grades. */
module Approximators {
  import opened Wrappers
  import opened ExtReals
  import opened Fuzzy
  import Misc

  // ---------------------------------------------------------------------------------
  // Validation of the `Approximator` base class

  /** The `n_state_variables` and `state_variables_ranges` setters in the order the
      constructor runs them: at least one variable, and one list of cut-points per
      variable. */
  function ValidateRanges(n: int, ranges: seq<Typed<seq<real>>>): (r: Result<seq<seq<real>>>)
    ensures r.Ok? <==> n > 0 && |ranges| == n && forall i :: 0 <= i < |ranges| ==> ranges[i].Instance?
    ensures r.Err? ==> r.error == ValueError
    ensures r.Ok? ==> |r.value| == n
    ensures r.Ok? ==> forall i :: 0 <= i < n ==> r.value[i] == ranges[i].value
  {
    if n <= 0 then Err(ValueError)
    else if |ranges| != n || exists i :: 0 <= i < |ranges| && ranges[i].OtherType? then Err(ValueError)
    else Ok(seq(|ranges|, i requires 0 <= i < |ranges| => ranges[i].value))
  }

  /** Lifts plain lists or tuples to arguments that pass every `isinstance` check. */
  function Lists<T>(ranges: seq<T>): (r: seq<Typed<T>>)
    ensures |r| == |ranges|
    ensures forall i :: 0 <= i < |r| ==> r[i] == Instance(ranges[i])
  {
    seq(|ranges|, i requires 0 <= i < |ranges| => Instance(ranges[i]))
  }

  // ---------------------------------------------------------------------------------
  // Bucket counting

  predicate Sorted(s: seq<real>) {
    forall i, j :: 0 <= i < j < |s| ==> s[i] <= s[j]
  }

  /** `approximate_state_variable`: the number of cut-points the value has reached. */
  function ApproximateStateVariable(value: real, ranges: seq<real>): (k: nat)
    ensures k <= |ranges|
  {
    if |ranges| == 0 then 0
    else (if value >= ranges[0] then 1 else 0) + ApproximateStateVariable(value, ranges[1..])
  }

  /** On sorted cut-points the count is the bucket of the value: every cut-point before
      it has been reached and none from it on. */
  lemma {:induction false} ApproximateStateVariableIsBucket(value: real, ranges: seq<real>)
    requires Sorted(ranges)
    ensures var k := ApproximateStateVariable(value, ranges);
            && (forall i :: 0 <= i < k ==> ranges[i] <= value)
            && (forall i :: k <= i < |ranges| ==> value < ranges[i])
  {
    if |ranges| > 0 {
      var rest := ranges[1..];
      assert Sorted(rest);
      ApproximateStateVariableIsBucket(value, rest);
      var k' := ApproximateStateVariable(value, rest);
      if value >= ranges[0] {
        forall i | 1 <= i < 1 + k' ensures ranges[i] <= value {
          assert ranges[i] == rest[i - 1];
        }
        forall i | 1 + k' <= i < |ranges| ensures value < ranges[i] {
          assert ranges[i] == rest[i - 1];
        }
      } else {
        forall i | 0 <= i < |ranges| ensures value < ranges[i] {
          assert ranges[0] <= ranges[i];
        }
      }
    }
  }

  /** A larger value never falls into a lower bucket. */
  lemma {:induction false} ApproximateStateVariableMonotone(v: real, w: real, ranges: seq<real>)
    requires v <= w
    ensures ApproximateStateVariable(v, ranges) <= ApproximateStateVariable(w, ranges)
  {
    if |ranges| > 0 {
      ApproximateStateVariableMonotone(v, w, ranges[1..]);
    }
  }

  lemma ApproximateStateVariableExamples()
    ensures ApproximateStateVariable(2.0, []) == 0
    ensures ApproximateStateVariable(2.0, [2.5]) == 0
    ensures ApproximateStateVariable(2.0, [1.5]) == 1
    ensures ApproximateStateVariable(2.0, [1.0, 2.0]) == 2
  {
  }

  // ---------------------------------------------------------------------------------
  // Mixed-radix encoding

  /** Product of the shape; the empty product is 1, as in `state_shape[i+1::] or [1]`. */
  function Product(shape: seq<nat>): nat {
    if |shape| == 0 then 1 else shape[0] * Product(shape[1..])
  }

  predicate Positive(shape: seq<nat>) {
    forall i :: 0 <= i < |shape| ==> shape[i] > 0
  }

  lemma {:induction false} ProductPositive(shape: seq<nat>)
    requires Positive(shape)
    ensures Product(shape) > 0
  {
    if |shape| > 0 {
      ProductPositive(shape[1..]);
    }
  }

  /** Each index is below its bound. */
  predicate InShape(idx: seq<int>, shape: seq<nat>) {
    |idx| == |shape| && forall i :: 0 <= i < |idx| ==> 0 <= idx[i] < shape[i]
  }

  /** Row-major position: the sum of `idx[i] * product(shape[i+1:])`. */
  function Flatten(idx: seq<int>, shape: seq<nat>): int
    requires |idx| == |shape|
  {
    if |idx| == 0 then 0 else idx[0] * Product(shape[1..]) + Flatten(idx[1..], shape[1..])
  }

  /** The inverse of `Flatten`: mixed-radix digits of a code. */
  function Unflatten(code: nat, shape: seq<nat>): (idx: seq<int>)
    requires Positive(shape)
    ensures |idx| == |shape|
  {
    if |shape| == 0 then []
    else
      ProductPositive(shape[1..]);
      var p := Product(shape[1..]);
      [code / p] + Unflatten(code % p, shape[1..])
  }

  lemma MulLeMul(a: int, b: int, m: nat)
    requires a <= b
    ensures a * m <= b * m
  {
  }

  /** Quotient and remainder of `q * d + r` for `0 <= r < d` are `q` and `r`. */
  lemma DivModOf(q: int, d: int, r: int)
    requires d > 0 && 0 <= r < d
    ensures (q * d + r) / d == q && (q * d + r) % d == r
  {
    var x := q * d + r;
    var q', r' := x / d, x % d;
    assert x == q' * d + r';
    assert (q - q') * d == r' - r;
    if q' < q {
      MulLeMul(1, q - q', d);
    } else if q' > q {
      MulLeMul(1, q' - q, d);
    }
  }

  /** An in-shape index encodes into `[0, product(shape))`. */
  lemma {:induction false} FlattenBounds(idx: seq<int>, shape: seq<nat>)
    requires InShape(idx, shape)
    ensures 0 <= Flatten(idx, shape) < Product(shape)
  {
    if |idx| > 0 {
      assert forall i :: 0 <= i < |idx| - 1 ==> idx[1..][i] == idx[i + 1] && shape[1..][i] == shape[i + 1];
      assert InShape(idx[1..], shape[1..]);
      FlattenBounds(idx[1..], shape[1..]);
      var p := Product(shape[1..]);
      var rest := Flatten(idx[1..], shape[1..]);
      assert Flatten(idx, shape) == idx[0] * p + rest;
      assert Product(shape) == shape[0] * p;
      MulLeMul(0, idx[0], p);
      MulLeMul(idx[0], shape[0] - 1, p);
      assert (shape[0] - 1) * p + p == shape[0] * p;
    }
  }

  /** Decoding an encoded in-shape index gives the index back. */
  lemma {:induction false} UnflattenFlatten(idx: seq<int>, shape: seq<nat>)
    requires InShape(idx, shape) && Positive(shape)
    ensures Flatten(idx, shape) >= 0 && Unflatten(Flatten(idx, shape), shape) == idx
  {
    FlattenBounds(idx, shape);
    if |idx| > 0 {
      var p := Product(shape[1..]);
      var rest := Flatten(idx[1..], shape[1..]);
      FlattenBounds(idx[1..], shape[1..]);
      DivModOf(idx[0], p, rest);
      UnflattenFlatten(idx[1..], shape[1..]);
      assert Flatten(idx, shape) == idx[0] * p + rest;
    }
  }

  /** A code below `s * p` has a quotient by `p` below `s`. */
  lemma QuotientBelow(code: nat, p: nat, s: nat)
    requires p > 0 && code < s * p
    ensures code / p < s
  {
    if code / p >= s {
      MulLeMul(s, code / p, p);
    }
  }

  /** The digits of a code below the product are in shape. */
  lemma {:induction false} UnflattenInShape(code: nat, shape: seq<nat>)
    requires Positive(shape) && code < Product(shape)
    ensures InShape(Unflatten(code, shape), shape)
  {
    if |shape| > 0 {
      ProductPositive(shape[1..]);
      var p := Product(shape[1..]);
      assert Product(shape) == shape[0] * p;
      QuotientBelow(code, p, shape[0]);
      var r := code % p;
      UnflattenInShape(r, shape[1..]);
      var tail := Unflatten(r, shape[1..]);
      var idx := Unflatten(code, shape);
      assert idx == [code / p] + tail;
      assert forall i :: 1 <= i < |idx| ==> idx[i] == tail[i - 1];
    }
  }

  /** Re-encoding the digits of a code below the product gives the code back. */
  lemma {:induction false} FlattenOfUnflatten(code: nat, shape: seq<nat>)
    requires Positive(shape) && code < Product(shape)
    ensures Flatten(Unflatten(code, shape), shape) == code
  {
    if |shape| > 0 {
      ProductPositive(shape[1..]);
      var p := Product(shape[1..]);
      var q, r := code / p, code % p;
      FlattenOfUnflatten(r, shape[1..]);
      var tail := Unflatten(r, shape[1..]);
      var idx := Unflatten(code, shape);
      assert idx == [q] + tail;
      assert idx[0] == q && idx[1..] == tail;
      assert Flatten(idx, shape) == q * p + r;
    }
  }

  /** Every code below the product is the encoding of exactly one in-shape index. */
  lemma FlattenUnflatten(code: nat, shape: seq<nat>)
    requires Positive(shape) && code < Product(shape)
    ensures InShape(Unflatten(code, shape), shape)
    ensures Flatten(Unflatten(code, shape), shape) == code
  {
    UnflattenInShape(code, shape);
    FlattenOfUnflatten(code, shape);
  }

  /** `encode_state`: both the length check and the bound check raise ValueError;
      indices are not checked from below. The code is the row-major position, so an
      in-shape index is a code in `range(product(shape))` that decodes back to it. */
  function EncodeState(idx: seq<int>, shape: seq<nat>): (r: Result<int>)
    ensures r.Ok? <==> |idx| == |shape| && forall i :: 0 <= i < |idx| ==> idx[i] < shape[i]
    ensures r.Err? ==> r.error == ValueError
    ensures r.Ok? ==> r.value == Flatten(idx, shape)
    ensures InShape(idx, shape) ==> r.Ok? && 0 <= r.value < Product(shape)
    ensures InShape(idx, shape) ==> Positive(shape) && r.Ok? && r.value >= 0 && Unflatten(r.value, shape) == idx
  {
    if |idx| != |shape| then Err(ValueError)
    else if exists i :: 0 <= i < |shape| && idx[i] >= shape[i] then Err(ValueError)
    else
      if InShape(idx, shape) then
        assert Positive(shape) by {
          forall i | 0 <= i < |shape| ensures shape[i] > 0 { assert 0 <= idx[i] < shape[i]; }
        }
        FlattenBounds(idx, shape);
        UnflattenFlatten(idx, shape);
        Ok(Flatten(idx, shape))
      else Ok(Flatten(idx, shape))
  }

  lemma EncodeStateExamples()
    ensures EncodeState([2, 3], [3, 4]) == Ok(11)
    ensures EncodeState([1, 2], [4, 5]) == Ok(7)
    ensures EncodeState([1, 3, 5], [2, 5, 10]) == Ok(85)
    ensures EncodeState([1], [2, 4]) == Err(ValueError)
    ensures EncodeState([2, 4], [10]) == Err(ValueError)
    ensures EncodeState([1], [1]) == Err(ValueError)
    ensures EncodeState([2, 4], [4, 3]) == Err(ValueError)
  {
  }

  // ---------------------------------------------------------------------------------
  // TableApproximator

  datatype TableApproximator = TableApproximator(nStateVariables: nat, stateVariablesRanges: seq<seq<real>>)
  {
    /** What the base-class setters guarantee. */
    predicate Valid() {
      nStateVariables > 0 && |stateVariablesRanges| == nStateVariables
    }
  }

  /** `TableApproximator(n, ranges)`: only the base-class validation can fail. */
  function NewTable(n: int, ranges: seq<Typed<seq<real>>>): (r: Result<TableApproximator>)
    ensures r.Ok? <==> ValidateRanges(n, ranges).Ok?
    ensures r.Err? ==> r.error == ValueError
    ensures r.Ok? ==> r.value.Valid() && r.value.nStateVariables == n &&
                      r.value.stateVariablesRanges == ValidateRanges(n, ranges).value
  {
    var rs :- ValidateRanges(n, ranges);
    Ok(TableApproximator(n, rs))
  }

  /** `state_shape`: one more bucket than cut-points per variable. */
  function StateShape(ranges: seq<seq<real>>): (shape: seq<nat>)
    ensures |shape| == |ranges|
    ensures forall i :: 0 <= i < |ranges| ==> shape[i] == |ranges[i]| + 1
    ensures Positive(shape)
  {
    seq(|ranges|, i requires 0 <= i < |ranges| => |ranges[i]| + 1)
  }

  /** `possible_states`: the codes `0 .. product(state_shape) - 1`. */
  function TablePossibleStates(t: TableApproximator): (states: seq<nat>)
    ensures |states| == Product(StateShape(t.stateVariablesRanges))
    ensures forall i :: 0 <= i < |states| ==> states[i] == i
  {
    seq(Product(StateShape(t.stateVariablesRanges)), i => i)
  }

  lemma TableExamples()
    ensures StateShape([[], []]) == [1, 1]
    ensures StateShape([[1.0, 2.0, 3.0], [4.0, 5.0], [6.0], []]) == [4, 3, 2, 1]
    ensures TablePossibleStates(TableApproximator(2, [[0.0], [0.0, 1.0]])) == [0, 1, 2, 3, 4, 5]
    ensures NewTable(0, []) == Err(ValueError)
    ensures NewTable(2, []) == Err(ValueError)
    ensures NewTable(2, Lists([[], [], []])) == Err(ValueError)
    ensures NewTable(2, [Instance([1.0, 2.0, 3.0]), OtherType]) == Err(ValueError)
  {
    assert StateShape([[], []]) == [1, 1];
    assert StateShape([[0.0], [0.0, 1.0]]) == [2, 3];
    assert Lists<seq<real>>([[], [], []])[2] == Instance([]);
    assert [Instance([1.0, 2.0, 3.0]), OtherType][1].OtherType?;
  }

  /** The bucket index of each variable, pairing observations with ranges like `zip`
      (the shorter one decides how many there are). */
  function BucketIndices(ranges: seq<seq<real>>, obs: seq<real>): (idx: seq<int>)
    ensures |idx| == if |obs| < |ranges| then |obs| else |ranges|
    ensures forall i :: 0 <= i < |idx| ==> 0 <= idx[i] < |ranges[i]| + 1
  {
    var m := if |obs| < |ranges| then |obs| else |ranges|;
    seq(m, i requires 0 <= i < m => ApproximateStateVariable(obs[i], ranges[i]))
  }

  /** `TableApproximator.approximate_state`. */
  function TableApproximateState(t: TableApproximator, obs: seq<real>): Result<int>
    requires t.Valid()
  {
    EncodeState(BucketIndices(t.stateVariablesRanges, obs), StateShape(t.stateVariablesRanges))
  }

  /** The bound check of `encode_state` never fires here: the state fails only when the
      observation has fewer components than there are variables, and otherwise it is
      one of `possible_states`. */
  lemma TableApproximateStateInRange(t: TableApproximator, obs: seq<real>)
    requires t.Valid()
    ensures TableApproximateState(t, obs).Ok? <==> |obs| >= t.nStateVariables
    ensures TableApproximateState(t, obs).Err? ==> TableApproximateState(t, obs).error == ValueError
    ensures TableApproximateState(t, obs).Ok? ==>
              0 <= TableApproximateState(t, obs).value < |TablePossibleStates(t)|
    ensures TableApproximateState(t, obs).Ok? ==>
              TableApproximateState(t, obs).value ==
              Flatten(BucketIndices(t.stateVariablesRanges, obs), StateShape(t.stateVariablesRanges))
  {
    var idx := BucketIndices(t.stateVariablesRanges, obs);
    var shape := StateShape(t.stateVariablesRanges);
    if |obs| >= t.nStateVariables {
      assert InShape(idx, shape);
    }
  }

  lemma TableApproximateStateExample()
    ensures TableApproximateState(TableApproximator(2, [[-1.0, 0.0, 1.0], [-1.0, -0.9, -0.5]]),
                                  [0.5, -0.99]) == Ok(9)
  {
    var ranges := [[-1.0, 0.0, 1.0], [-1.0, -0.9, -0.5]];
    var idx := BucketIndices(ranges, [0.5, -0.99]);
    assert idx[0] == ApproximateStateVariable(0.5, ranges[0]) == 2;
    assert idx[1] == ApproximateStateVariable(-0.99, ranges[1]) == 1;
    assert idx == [2, 1];
    var shape := StateShape(ranges);
    assert shape[0] == 4 && shape[1] == 4;
    assert shape == [4, 4];
    assert EncodeState([2, 1], [4, 4]) == Ok(9);
  }

  // ---------------------------------------------------------------------------------
  // CMACApproximator: tilings

  /** The gaps between consecutive cut-points are all equal. */
  predicate EqualGaps(r: seq<real>)
    requires |r| >= 2
  {
    forall j :: 0 <= j < |r| - 1 ==> r[j + 1] - r[j] == r[1] - r[0]
  }

  /** The shift of tiling `k` of `n`: `k` n-ths of the gap between the first two
      cut-points. */
  function Shift(r: seq<real>, n: nat, k: nat): real
    requires |r| >= 2 && n >= 1
  {
    (k as real) * ((r[1] - r[0]) / n as real)
  }

  /** Tiling `k` of `n`: one cut-point more than the input, with the same gap, starting
      one gap before the first cut-point and shifted by `k` n-ths of a gap. */
  function OffsetLayer(r: seq<real>, n: nat, k: nat): (layer: seq<real>)
    requires |r| >= 2 && n >= 1
    ensures |layer| == |r| + 1
  {
    var d := r[1] - r[0];
    seq(|r| + 1, j requires 0 <= j < |r| + 1 => r[0] - d + Shift(r, n, k) + (j as real) * d)
  }

  /** `divide_variable_range_by_layers` as a value: the input is tiling 0, and the
      other tilings are offset copies. */
  function DividedRange(r: seq<real>, n: int): (res: Result<seq<seq<real>>>)
    ensures res.Ok? <==> n >= 2 && (|r| < 2 || EqualGaps(r))
    ensures res.Err? ==> res.error == ValueError
    ensures res.Ok? ==> |res.value| == n && res.value[0] == r
    ensures res.Ok? && |r| < 2 ==> forall k :: 0 <= k < n ==> res.value[k] == r
    ensures res.Ok? && |r| >= 2 ==> forall k :: 1 <= k < n ==> res.value[k] == OffsetLayer(r, n, k)
  {
    if n < 2 then Err(ValueError)
    else if |r| < 2 then Ok(seq(n, _ => r))
    else if !EqualGaps(r) then Err(ValueError)
    else Ok([r] + seq(n - 1, k requires 0 <= k < n - 1 => OffsetLayer(r, n, k + 1)))
  }

  /** Equal gaps make the cut-points an arithmetic progression. */
  lemma {:induction false} EqualGapsProgression(r: seq<real>, j: nat)
    requires |r| >= 2 && EqualGaps(r) && j < |r|
    ensures r[j] == r[0] + (j as real) * (r[1] - r[0])
  {
    if j > 0 {
      EqualGapsProgression(r, j - 1);
    }
  }

  /** A proper fraction of a positive gap is positive and smaller than the gap. */
  lemma ShiftWithinGap(r: seq<real>, n: nat, k: nat)
    requires |r| >= 2 && r[0] < r[1] && 0 < k < n
    ensures 0.0 < Shift(r, n, k) < r[1] - r[0]
  {
    var d := r[1] - r[0];
    var q := d / n as real;
    assert q * (n as real) == d;
    assert (k as real) * q < (n as real) * q;
  }

  /** Cut-point `j` of an offset tiling sits one shift after input cut-point `j - 1`
      (one gap before the first input cut-point for `j == 0`). */
  lemma OffsetLayerAt(r: seq<real>, n: nat, k: nat, j: nat)
    requires |r| >= 2 && EqualGaps(r) && n >= 1 && j <= |r|
    ensures j == 0 ==> OffsetLayer(r, n, k)[j] == r[0] - (r[1] - r[0]) + Shift(r, n, k)
    ensures 1 <= j ==> OffsetLayer(r, n, k)[j] == r[j - 1] + Shift(r, n, k)
  {
    if 1 <= j {
      var d := r[1] - r[0];
      EqualGapsProgression(r, j - 1);
      assert (j as real) * d == ((j - 1) as real) * d + d;
    }
  }

  /** An offset tiling with increasing cut-points places one cut-point strictly inside
      every bucket of the input, plus one below and one above all of them, with the
      input's gap between neighbours; so each tiling refines the buckets differently. */
  lemma OffsetLayerInterleaves(r: seq<real>, n: nat, k: nat, j: nat)
    requires |r| >= 2 && EqualGaps(r) && r[0] < r[1] && 0 < k < n && j < |r|
    ensures var layer := OffsetLayer(r, n, k);
            && layer[0] < r[0]
            && r[j] < layer[j + 1]
            && (1 <= j ==> layer[j] < r[j])
            && layer[j + 1] - layer[j] == r[1] - r[0]
  {
    ShiftWithinGap(r, n, k);
    OffsetLayerAt(r, n, k, 0);
    OffsetLayerAt(r, n, k, j);
    OffsetLayerAt(r, n, k, j + 1);
    if 1 <= j {
      assert r[j] - r[j - 1] == r[1] - r[0];
    }
  }

  lemma DividedRangeExamples()
    ensures DividedRange([], 2) == Ok([[], []])
    ensures DividedRange([0.0], 3) == Ok([[0.0], [0.0], [0.0]])
    ensures DividedRange([1.0, 2.0, 3.0], 2) == Ok([[1.0, 2.0, 3.0], [0.5, 1.5, 2.5, 3.5]])
    ensures DividedRange([-0.9, 0.0, 0.9], 3) ==
            Ok([[-0.9, 0.0, 0.9], [-1.5, -0.6, 0.3, 1.2], [-1.2, -0.3, 0.6, 1.5]])
    ensures DividedRange([0.0, 1.0, 3.0], 2) == Err(ValueError)
    ensures DividedRange([1.0, 2.0], 1) == Err(ValueError)
  {
    var d0 := DividedRange([], 2).value;
    assert d0[0] == [] && d0[1] == [];
    assert d0 == [[], []];
    var d1 := DividedRange([0.0], 3).value;
    assert d1[0] == [0.0] && d1[1] == [0.0] && d1[2] == [0.0];
    assert d1 == [[0.0], [0.0], [0.0]];
    assert EqualGaps([1.0, 2.0, 3.0]);
    var d2 := DividedRange([1.0, 2.0, 3.0], 2).value;
    assert Shift([1.0, 2.0, 3.0], 2, 1) == 0.5;
    assert d2[1] == OffsetLayer([1.0, 2.0, 3.0], 2, 1) == [0.5, 1.5, 2.5, 3.5];
    assert d2 == [d2[0], d2[1]];
    assert EqualGaps([-0.9, 0.0, 0.9]);
    var d3 := DividedRange([-0.9, 0.0, 0.9], 3).value;
    assert Shift([-0.9, 0.0, 0.9], 3, 1) == 0.3;
    assert Shift([-0.9, 0.0, 0.9], 3, 2) == 0.6;
    assert d3[1] == OffsetLayer([-0.9, 0.0, 0.9], 3, 1) == [-1.5, -0.6, 0.3, 1.2];
    assert d3[2] == OffsetLayer([-0.9, 0.0, 0.9], 3, 2) == [-1.2, -0.3, 0.6, 1.5];
    assert d3 == [d3[0], d3[1], d3[2]];
    assert !EqualGaps([0.0, 1.0, 3.0]) by {
      assert [0.0, 1.0, 3.0][2] - [0.0, 1.0, 3.0][1] != [0.0, 1.0, 3.0][1] - [0.0, 1.0, 3.0][0];
    }
  }

  /** `divide_variable_range_by_layers`: the checks, then one appended tiling per
      layer after the first. */
  method DivideVariableRangeByLayers(r: seq<real>, n: int) returns (res: Result<seq<seq<real>>>)
    ensures res == DividedRange(r, n)
  {
    if n < 2 {
      return Err(ValueError);
    }
    if |r| < 2 {
      return Ok(seq(n, _ => r));
    }
    var distances := seq(|r| - 1, j requires 0 <= j < |r| - 1 => r[j + 1] - r[j]);
    if exists j :: 0 <= j < |distances| && distances[j] != distances[0] {
      return Err(ValueError);
    }
    assert EqualGaps(r) by {
      forall j | 0 <= j < |r| - 1 ensures r[j + 1] - r[j] == r[1] - r[0] {
        assert distances[j] == distances[0];
      }
    }
    var distance := distances[0];
    var leftBorder := r[0] - distance;
    var rangeStep := distance / n as real;
    var layersRanges := [r];
    for i := 1 to n
      invariant |layersRanges| == i
      invariant layersRanges[0] == r
      invariant forall k :: 1 <= k < i ==> layersRanges[k] == OffsetLayer(r, n, k)
    {
      var layer := seq(|r| + 1, j requires 0 <= j < |r| + 1 =>
        leftBorder + (i as real) * rangeStep + (j as real) * distance);
      assert distance == r[1] - r[0];
      assert (i as real) * rangeStep == Shift(r, n, i);
      forall j | 0 <= j < |r| + 1 ensures layer[j] == OffsetLayer(r, n, i)[j] {
      }
      layersRanges := layersRanges + [layer];
    }
    assert layersRanges == [r] + seq(n - 1, k requires 0 <= k < n - 1 => OffsetLayer(r, n, k + 1));
    return Ok(layersRanges);
  }

  /** Every variable's cut-points divided into tilings; the first failure raises. */
  function DivideAll(ranges: seq<seq<real>>, n: int): (res: Result<seq<seq<seq<real>>>>)
    ensures res.Ok? <==> forall v :: 0 <= v < |ranges| ==> DividedRange(ranges[v], n).Ok?
    ensures res.Err? ==> res.error == ValueError
    ensures res.Ok? ==> |res.value| == |ranges|
    ensures res.Ok? ==> forall v :: 0 <= v < |ranges| ==> res.value[v] == DividedRange(ranges[v], n).value
  {
    if |ranges| == 0 then Ok([])
    else
      var first :- DividedRange(ranges[0], n);
      var rest :- DivideAll(ranges[1..], n);
      assert forall v :: 1 <= v < |ranges| ==> ranges[v] == ranges[1..][v - 1];
      Ok([first] + rest)
  }

  /** `generate_layers_ranges`: the divided ranges transposed, so that layer `i` holds
      tiling `i` of every variable.  The layer count is the validated `n_layers`. */
  function GenerateLayersRanges(ranges: seq<seq<real>>, n: nat): (res: Result<seq<seq<seq<real>>>>)
    requires n >= 2
    ensures res.Ok? <==> forall v :: 0 <= v < |ranges| ==> |ranges[v]| < 2 || EqualGaps(ranges[v])
    ensures res.Err? ==> res.error == ValueError
    ensures res.Ok? ==> |res.value| == n
    ensures res.Ok? ==> forall i :: 0 <= i < n ==> |res.value[i]| == |ranges|
    ensures res.Ok? ==> forall i, v :: 0 <= i < n && 0 <= v < |ranges| ==>
                          res.value[i][v] == DividedRange(ranges[v], n).value[i]
  {
    var divided :- DivideAll(ranges, n);
    Ok(seq(n, i requires 0 <= i < n => seq(|ranges|, v requires 0 <= v < |ranges| => divided[v][i])))
  }

  datatype CmacApproximator = CmacApproximator(
    nStateVariables: nat,
    stateVariablesRanges: seq<seq<real>>,
    nLayers: nat,
    layersRanges: seq<seq<seq<real>>>)
  {
    predicate Valid() {
      && nStateVariables > 0 && |stateVariablesRanges| == nStateVariables
      && nLayers >= 2 && |layersRanges| == nLayers
      && forall l :: 0 <= l < nLayers ==> |layersRanges[l]| == nStateVariables
    }

    /** `layers`: one table approximator per tiling. */
    function Layer(l: nat): (t: TableApproximator)
      requires Valid() && l < nLayers
      ensures t.Valid()
    {
      TableApproximator(nStateVariables, layersRanges[l])
    }
  }

  /** `CMACApproximator(n, ranges, n_layers)`: base-class validation, then the
      `n_layers` setter, then the tilings. */
  function NewCmac(n: int, ranges: seq<Typed<seq<real>>>, nLayers: int): (r: Result<CmacApproximator>)
    ensures ValidateRanges(n, ranges).Err? ==> r == Err(ValueError)
    ensures ValidateRanges(n, ranges).Ok? && nLayers < 2 ==> r == Err(ValueError)
    ensures r.Err? ==> r.error == ValueError
    ensures r.Ok? ==> r.value.Valid() && r.value.nLayers == nLayers && r.value.nStateVariables == n
    ensures ValidateRanges(n, ranges).Ok? && nLayers >= 2 ==>
              (r.Ok? <==> forall v :: 0 <= v < n ==>
                            var rv := ValidateRanges(n, ranges).value[v]; |rv| < 2 || EqualGaps(rv))
    ensures r.Ok? ==> r.value.stateVariablesRanges == ValidateRanges(n, ranges).value
    ensures r.Ok? ==> forall v :: 0 <= v < n ==> DividedRange(r.value.stateVariablesRanges[v], nLayers).Ok?
    ensures r.Ok? ==> forall i, v :: 0 <= i < nLayers && 0 <= v < n ==>
                        r.value.layersRanges[i][v] == DividedRange(r.value.stateVariablesRanges[v], nLayers).value[i]
  {
    var rs :- ValidateRanges(n, ranges);
    if nLayers < 2 then Err(ValueError)
    else
      var layers :- GenerateLayersRanges(rs, nLayers);
      Ok(CmacApproximator(n, rs, nLayers, layers))
  }

  /** `possible_states`: one tuple of codes per layer. */
  function CmacPossibleStates(c: CmacApproximator): (states: seq<seq<nat>>)
    requires c.Valid()
    ensures |states| == c.nLayers
    ensures forall l :: 0 <= l < c.nLayers ==> states[l] == TablePossibleStates(c.Layer(l))
  {
    seq(c.nLayers, l requires 0 <= l < c.nLayers => TablePossibleStates(c.Layer(l)))
  }

  /** `CMACApproximator.approximate_state`: one table state per layer. */
  function CmacApproximateState(c: CmacApproximator, obs: seq<real>): (r: Result<seq<int>>)
    requires c.Valid()
    ensures r.Ok? <==> |obs| >= c.nStateVariables
    ensures r.Err? ==> r.error == ValueError
    ensures r.Ok? ==> |r.value| == c.nLayers
    ensures r.Ok? ==> forall l :: 0 <= l < c.nLayers ==>
                        r.value[l] == TableApproximateState(c.Layer(l), obs).value &&
                        0 <= r.value[l] < |CmacPossibleStates(c)[l]|
  {
    if |obs| < c.nStateVariables then
      TableApproximateStateInRange(c.Layer(0), obs);
      Err(ValueError)
    else
      var states := seq(c.nLayers, l requires 0 <= l < c.nLayers =>
        TableApproximateStateInRange(c.Layer(l), obs);
        TableApproximateState(c.Layer(l), obs).value);
      Ok(states)
  }

  lemma CmacExamples()
    ensures NewCmac(2, Lists([[], []]), 1) == Err(ValueError)
    ensures NewCmac(0, [], 2) == Err(ValueError)
    ensures NewCmac(1, Lists([[1.0, 2.0, 3.0]]), 2) ==
            Ok(CmacApproximator(1, [[1.0, 2.0, 3.0]], 2, [[[1.0, 2.0, 3.0]], [[0.5, 1.5, 2.5, 3.5]]]))
  {
    var l := Lists([[1.0, 2.0, 3.0]]);
    assert l[0] == Instance([1.0, 2.0, 3.0]);
    var v := ValidateRanges(1, l);
    assert v.Ok? && v.value[0] == [1.0, 2.0, 3.0];
    assert v.value == [[1.0, 2.0, 3.0]];
    DividedRangeExamples();
    var c := NewCmac(1, Lists([[1.0, 2.0, 3.0]]), 2).value;
    assert c.layersRanges[0][0] == [1.0, 2.0, 3.0];
    assert c.layersRanges[1][0] == [0.5, 1.5, 2.5, 3.5];
    assert c.layersRanges[0] == [[1.0, 2.0, 3.0]];
    assert c.layersRanges[1] == [[0.5, 1.5, 2.5, 3.5]];
    assert c.layersRanges == [c.layersRanges[0], c.layersRanges[1]];
  }

  // ---------------------------------------------------------------------------------
  // FuzzyApproximator

  /** Half the gap of cut-point pair `i`. */
  function Delta(svr: seq<real>, i: nat): real
    requires i + 1 < |svr|
  {
    (svr[i + 1] - svr[i]) / 2.0
  }

  /** The open-ended trapezoid before the first pair. */
  function Leading(svr: seq<real>): seq<ExtReal>
    requires |svr| >= 2
  {
    [NegInf, NegInf, Finite(svr[0] - Delta(svr, 0)), Finite(svr[1] - Delta(svr, 0))]
  }

  /** The triangle of cut-point pair `i`. */
  function Triangle(svr: seq<real>, i: nat): seq<ExtReal>
    requires i + 1 < |svr|
  {
    [Finite(svr[i] - Delta(svr, i)), Finite(svr[i] + Delta(svr, i)), Finite(svr[i + 1] + Delta(svr, i))]
  }

  /** The open-ended trapezoid after the last pair. */
  function Trailing(svr: seq<real>): seq<ExtReal>
    requires |svr| >= 2
  {
    var i := |svr| - 2;
    [Finite(svr[i] + Delta(svr, i)), Finite(svr[i + 1] + Delta(svr, i)), PosInf, PosInf]
  }

  /** What `svr2mfr` returns: nothing for no cut-points, two half-open trapezoids around
      a single cut-point, and otherwise a trapezoid from -inf, one triangle per
      consecutive pair and a trapezoid to +inf. */
  function MembershipFunctionsRanges(svr: seq<real>): (m: seq<seq<ExtReal>>)
    ensures |svr| == 0 ==> m == []
    ensures |svr| >= 1 ==> |m| == |svr| + 1
    ensures |svr| >= 1 ==> |m[0]| == 4 && m[0][0] == NegInf && m[0][1] == NegInf && m[0][2].Finite?
    ensures |svr| >= 1 ==> |m[|svr|]| == 4 && m[|svr|][1].Finite? && m[|svr|][2] == PosInf && m[|svr|][3] == PosInf
    ensures forall i :: 0 < i < |svr| ==> |m[i]| == 3 && m[i][0].Finite? && m[i][1].Finite? && m[i][2].Finite?
  {
    if |svr| == 0 then []
    else if |svr| == 1 then [[NegInf, NegInf, Finite(svr[0]), Finite(svr[0])], [Finite(svr[0]), Finite(svr[0]), PosInf, PosInf]]
    else [Leading(svr)] + seq(|svr| - 1, k requires 0 <= k < |svr| - 1 => Triangle(svr, k)) + [Trailing(svr)]
  }

  lemma MembershipFunctionsRangesExamples()
    ensures MembershipFunctionsRanges([1.0]) ==
            [[NegInf, NegInf, Finite(1.0), Finite(1.0)], [Finite(1.0), Finite(1.0), PosInf, PosInf]]
    ensures MembershipFunctionsRanges([-0.2, 0.2]) ==
            [[NegInf, NegInf, Finite(-0.4), Finite(0.0)],
             [Finite(-0.4), Finite(0.0), Finite(0.4)],
             [Finite(0.0), Finite(0.4), PosInf, PosInf]]
    ensures MembershipFunctionsRanges([0.0, 2.0, 5.0]) ==
            [[NegInf, NegInf, Finite(-1.0), Finite(1.0)],
             [Finite(-1.0), Finite(1.0), Finite(3.0)],
             [Finite(0.5), Finite(3.5), Finite(6.5)],
             [Finite(3.5), Finite(6.5), PosInf, PosInf]]
  {
    assert seq(1, k requires 0 <= k < 1 => Triangle([-0.2, 0.2], k)) == [Triangle([-0.2, 0.2], 0)];
    assert seq(2, k requires 0 <= k < 2 => Triangle([0.0, 2.0, 5.0], k)) ==
           [Triangle([0.0, 2.0, 5.0], 0), Triangle([0.0, 2.0, 5.0], 1)];
  }

  /** The functions `svr2mfr` has appended after `i` pairs, before the trailing one:
      the leading trapezoid (once a pair was seen) and one triangle per pair. */
  function MfrPrefix(svr: seq<real>, i: nat): (m: seq<seq<ExtReal>>)
    requires |svr| >= 2 && i <= |svr| - 1
    ensures |m| == if i == 0 then 0 else i + 1
  {
    (if i == 0 then [] else [Leading(svr)]) + seq(i, k requires 0 <= k < i => Triangle(svr, k))
  }

  /** One more pair appends its triangle (after the leading trapezoid for the first). */
  lemma MfrPrefixStep(svr: seq<real>, i: nat)
    requires |svr| >= 2 && i < |svr| - 1
    ensures MfrPrefix(svr, i + 1) ==
            MfrPrefix(svr, i) + (if i == 0 then [Leading(svr)] else []) + [Triangle(svr, i)]
  {
    var tri := seq(i, k requires 0 <= k < i => Triangle(svr, k));
    var tri' := seq(i + 1, k requires 0 <= k < i + 1 => Triangle(svr, k));
    assert tri' == tri + [Triangle(svr, i)];
  }

  /** After the last pair the prefix and the trailing trapezoid are the whole result. */
  lemma MfrPrefixComplete(svr: seq<real>)
    requires |svr| >= 2
    ensures MfrPrefix(svr, |svr| - 1) + [Trailing(svr)] == MembershipFunctionsRanges(svr)
  {
  }

  /** `svr2mfr`: a loop over the consecutive pairs of the window generator, appending
      the leading trapezoid before the first triangle and the trailing one after the
      last. */
  method Svr2Mfr(svr: seq<real>) returns (mfr: seq<seq<ExtReal>>)
    ensures mfr == MembershipFunctionsRanges(svr)
  {
    mfr := [];
    if |svr| == 0 {
    } else if |svr| == 1 {
      mfr := [[NegInf, NegInf, Finite(svr[0]), Finite(svr[0])], [Finite(svr[0]), Finite(svr[0]), PosInf, PosInf]];
    } else {
      var pairs := Misc.Window(svr, 2);
      for i := 0 to |pairs|
        invariant mfr == MfrPrefix(svr, i) + (if i == |svr| - 1 then [Trailing(svr)] else [])
      {
        Misc.WindowsAt(svr, 2, i);
        var pair := pairs[i];
        assert pair[0] == svr[i] && pair[1] == svr[i + 1];
        var delta := (pair[1] - pair[0]) / 2.0;
        MfrPrefixStep(svr, i);
        if i == 0 {
          mfr := mfr + [[NegInf, NegInf, Finite(pair[0] - delta), Finite(pair[1] - delta)]];
          assert mfr == MfrPrefix(svr, 0) + [Leading(svr)];
        }
        mfr := mfr + [[Finite(pair[0] - delta), Finite(pair[0] + delta), Finite(pair[1] + delta)]];
        assert mfr == MfrPrefix(svr, i + 1);
        if i == |svr| - 2 {
          mfr := mfr + [[Finite(pair[0] + delta), Finite(pair[1] + delta), PosInf, PosInf]];
          assert mfr == MfrPrefix(svr, i + 1) + [Trailing(svr)];
        }
      }
      MfrPrefixComplete(svr);
    }
  }

  predicate NonDecreasing(s: seq<real>) {
    forall i :: 0 <= i < |s| - 1 ==> s[i] <= s[i + 1]
  }

  /** The fuzzy set generated from cut-points, as the default `fuzzy_sets` builds it. */
  function DefaultFuzzySet(svr: seq<real>): (r: Result<FuzzySet>)
    ensures r.Err? ==> r.error == ValueError
  {
    FromMembershipFunctionsRanges(Lists(MembershipFunctionsRanges(svr)))
  }

  /** The generated tuples are accepted by the factory exactly when the cut-points
      never decrease; a decreasing pair makes its triangle's first corner pass its
      peak. */
  lemma DefaultFuzzySetAccepted(svr: seq<real>)
    ensures DefaultFuzzySet(svr).Ok? <==> NonDecreasing(svr)
  {
    var m := MembershipFunctionsRanges(svr);
    var t := Lists(m);
    if NonDecreasing(svr) {
      forall i | 0 <= i < |t| ensures CreateMembershipFunction(t[i]).Ok? {
        CreateMembershipFunctionAccepts(m[i]);
        if |svr| >= 2 && 0 < i < |svr| {
          assert m[i] == Triangle(svr, i - 1);
          assert svr[i - 1] <= svr[i];
        }
        if |svr| >= 2 && i == |svr| {
          assert m[i] == Trailing(svr);
          assert svr[|svr| - 2] <= svr[|svr| - 1];
        }
        if |svr| >= 2 && i == 0 {
          assert svr[0] <= svr[1];
        }
      }
    } else {
      var i :| 0 <= i < |svr| - 1 && svr[i] > svr[i + 1];
      assert m[i + 1] == Triangle(svr, i);
      CreateMembershipFunctionAccepts(m[i + 1]);
      assert !CreateMembershipFunction(t[i + 1]).Ok?;
    }
  }

  /** A generated fuzzy set over non-decreasing cut-points has `|svr| + 1` functions
      (none for no cut-points), all of which compute numbers. */
  lemma DefaultFuzzySetShape(svr: seq<real>)
    requires NonDecreasing(svr)
    ensures DefaultFuzzySet(svr).Ok?
    ensures |DefaultFuzzySet(svr).value.membershipFunctions| == if |svr| == 0 then 0 else |svr| + 1
    ensures NaNFreeSet(DefaultFuzzySet(svr).value)
  {
    DefaultFuzzySetAccepted(svr);
    var m := MembershipFunctionsRanges(svr);
    var fs := DefaultFuzzySet(svr).value;
    forall i | 0 <= i < |fs.membershipFunctions| ensures NaNFree(fs.membershipFunctions[i]) {
      assert fs.membershipFunctions[i] == CreateMembershipFunction(Instance(m[i])).value;
    }
  }

  /** A triangle grades every point strictly inside its base positively. */
  lemma TrianglePositive(a: real, b: real, c: real, x: real)
    requires a <= b <= c && a < x < c
    ensures Grade(Triangular(Finite(a), Finite(b), Finite(c)), x) > 0.0
  {
    TriangularGradeValues(a, b, c, x);
  }

  /** The trapezoid open to -inf grades 1 up to its plateau's end. */
  lemma LeadingPlateau(c: real, d: real, x: real)
    requires c <= d && x <= c
    ensures Grade(Trapezoidal(NegInf, NegInf, Finite(c), Finite(d)), x) == 1.0
  {
  }

  /** A non-negative factor of a positive product with a positive cofactor is positive. */
  lemma PositiveFactor(g: real, d: real, p: real)
    requires g >= 0.0 && d > 0.0 && p > 0.0 && g * d == p
    ensures g > 0.0
  {
  }

  /** The trapezoid open to +inf grades positively everything past its first corner. */
  lemma TrailingPositive(a: real, b: real, x: real)
    requires a <= b && a < x
    ensures Grade(Trapezoidal(Finite(a), Finite(b), PosInf, PosInf), x) > 0.0
  {
    if x <= b {
      var g := Rise(Finite(a), x, Finite(b));
      assert Grade(Trapezoidal(Finite(a), Finite(b), PosInf, PosInf), x) == g;
      assert g * (b - a) == x - a;
      PositiveFactor(g, b - a, x - a);
    }
  }

  /** The function at position i of a generated set is built from the i-th tuple. */
  lemma DefaultFunctionAt(svr: seq<real>, i: nat)
    requires |svr| > 0 && NonDecreasing(svr) && i <= |svr|
    ensures DefaultFuzzySet(svr).Ok? && |DefaultFuzzySet(svr).value.membershipFunctions| == |svr| + 1
    ensures NaNFreeSet(DefaultFuzzySet(svr).value)
    ensures var t := MembershipFunctionsRanges(svr)[i];
            DefaultFuzzySet(svr).value.membershipFunctions[i] ==
              if |t| == 3 then Triangular(t[0], t[1], t[2]) else Trapezoidal(t[0], t[1], t[2], t[3])
  {
    DefaultFuzzySetShape(svr);
    var m := MembershipFunctionsRanges(svr);
    assert Lists(m)[i] == Instance(m[i]);
  }

  /** Between the first triangle's left corner and the last peak, some triangle's
      open base holds x: the search from pair k on. */
  lemma {:induction false} SomeTriangleHolds(svr: seq<real>, x: real, k: nat) returns (t: nat)
    requires |svr| >= 2 && NonDecreasing(svr) && k <= |svr| - 2
    requires x > if k == 0 then svr[0] - Delta(svr, 0) else svr[k - 1] + Delta(svr, k - 1)
    requires x <= svr[|svr| - 2] + Delta(svr, |svr| - 2)
    ensures t < |svr| - 1 && svr[t] - Delta(svr, t) < x < svr[t + 1] + Delta(svr, t)
    decreases |svr| - k
  {
    assert svr[k] <= svr[k + 1];
    if x <= svr[k] + Delta(svr, k) {
      if k == 0 {
        t := 0;
      } else {
        assert svr[k - 1] <= svr[k];
        t := if x < svr[k] + Delta(svr, k - 1) then k - 1 else k;
      }
    } else {
      t := SomeTriangleHolds(svr, x, k + 1);
    }
  }

  /** The generated function at position j grades x positively. */
  ghost predicate CoversAt(svr: seq<real>, x: real, j: nat) {
    && DefaultFuzzySet(svr).Ok? && NaNFreeSet(DefaultFuzzySet(svr).value)
    && j < |DefaultFuzzySet(svr).value.membershipFunctions|
    && Grade(DefaultFuzzySet(svr).value.membershipFunctions[j], x) > 0.0
  }

  /** A single cut-point c: the first trapezoid covers x <= c and the second the rest. */
  lemma CoversSingle(svr: seq<real>, x: real) returns (j: nat)
    requires |svr| == 1
    ensures CoversAt(svr, x, j)
  {
    var m := MembershipFunctionsRanges(svr);
    if x <= svr[0] {
      j := 0;
      DefaultFunctionAt(svr, j);
      assert m[0] == [NegInf, NegInf, Finite(svr[0]), Finite(svr[0])];
      LeadingPlateau(svr[0], svr[0], x);
    } else {
      j := 1;
      DefaultFunctionAt(svr, j);
      assert m[1] == [Finite(svr[0]), Finite(svr[0]), PosInf, PosInf];
      TrailingPositive(svr[0], svr[0], x);
    }
  }

  /** Up to the first triangle's left corner, the leading trapezoid grades 1. */
  lemma CoversLeft(svr: seq<real>, x: real)
    requires |svr| >= 2 && NonDecreasing(svr) && x <= svr[0] - Delta(svr, 0)
    ensures CoversAt(svr, x, 0)
  {
    assert svr[0] <= svr[1];
    DefaultFunctionAt(svr, 0);
    assert MembershipFunctionsRanges(svr)[0] == Leading(svr);
    LeadingPlateau(svr[0] - Delta(svr, 0), svr[1] - Delta(svr, 0), x);
  }

  /** Past the last triangle's peak, the trailing trapezoid grades positively. */
  lemma CoversRight(svr: seq<real>, x: real)
    requires |svr| >= 2 && NonDecreasing(svr) && x > svr[|svr| - 2] + Delta(svr, |svr| - 2)
    ensures CoversAt(svr, x, |svr|)
  {
    var n := |svr|;
    assert svr[n - 2] <= svr[n - 1];
    var a, b := svr[n - 2] + Delta(svr, n - 2), svr[n - 1] + Delta(svr, n - 2);
    var m := MembershipFunctionsRanges(svr);
    var inner := seq(n - 1, k requires 0 <= k < n - 1 => Triangle(svr, k));
    assert m == [Leading(svr)] + inner + [Trailing(svr)];
    assert m[n] == Trailing(svr) == [Finite(a), Finite(b), PosInf, PosInf];
    DefaultFunctionAt(svr, n);
    TrailingPositive(a, b, x);
  }

  /** Inside the base of triangle t, that triangle grades positively. */
  lemma CoversTriangle(svr: seq<real>, x: real, t: nat)
    requires |svr| >= 2 && NonDecreasing(svr) && t < |svr| - 1
    requires svr[t] - Delta(svr, t) < x < svr[t + 1] + Delta(svr, t)
    ensures CoversAt(svr, x, t + 1)
  {
    assert svr[t] <= svr[t + 1];
    DefaultFunctionAt(svr, t + 1);
    assert MembershipFunctionsRanges(svr)[t + 1] == Triangle(svr, t);
    TrianglePositive(svr[t] - Delta(svr, t), svr[t] + Delta(svr, t), svr[t + 1] + Delta(svr, t), x);
  }

  /** The position of a generated function that grades x positively. */
  lemma CoveringFunction(svr: seq<real>, x: real) returns (j: nat)
    requires |svr| > 0 && NonDecreasing(svr)
    ensures CoversAt(svr, x, j)
  {
    var n := |svr|;
    if n == 1 {
      j := CoversSingle(svr, x);
    } else if x <= svr[0] - Delta(svr, 0) {
      CoversLeft(svr, x);
      j := 0;
    } else if x > svr[n - 2] + Delta(svr, n - 2) {
      CoversRight(svr, x);
      j := n;
    } else {
      var t := SomeTriangleHolds(svr, x, 0);
      CoversTriangle(svr, x, t);
      j := t + 1;
    }
  }

  /** The generated sets of every variable; the first failure raises. */
  function DefaultFuzzySets(ranges: seq<seq<real>>): (r: Result<seq<FuzzySet>>)
    ensures r.Ok? <==> forall v :: 0 <= v < |ranges| ==> DefaultFuzzySet(ranges[v]).Ok?
    ensures r.Err? ==> r.error == ValueError
    ensures r.Ok? ==> |r.value| == |ranges|
    ensures r.Ok? ==> forall v :: 0 <= v < |ranges| ==> r.value[v] == DefaultFuzzySet(ranges[v]).value
  {
    if exists v :: 0 <= v < |ranges| && DefaultFuzzySet(ranges[v]).Err? then Err(ValueError)
    else Ok(seq(|ranges|, v requires 0 <= v < |ranges| => DefaultFuzzySet(ranges[v]).value))
  }

  /** The `fuzzy_sets` setter: a list of exactly one fuzzy set per variable. */
  function SetFuzzySets(n: nat, value: Typed<seq<Typed<FuzzySet>>>): (r: Result<seq<FuzzySet>>)
    ensures value.OtherType? ==> r == Err(TypeError)
    ensures value.Instance? && |value.value| != n ==> r == Err(ValueError)
    ensures r.Ok? <==> value.Instance? && |value.value| == n &&
                       forall i :: 0 <= i < n ==> value.value[i].Instance?
    ensures r.Ok? ==> |r.value| == n && forall i :: 0 <= i < n ==> r.value[i] == value.value[i].value
  {
    match value
    case OtherType => Err(TypeError)
    case Instance(sets) =>
      if |sets| != n then Err(ValueError)
      else if exists i :: 0 <= i < |sets| && sets[i].OtherType? then Err(TypeError)
      else Ok(seq(|sets|, i requires 0 <= i < |sets| => sets[i].value))
  }

  datatype FuzzyApproximator = FuzzyApproximator(
    nStateVariables: nat,
    stateVariablesRanges: seq<seq<real>>,
    fuzzySets: seq<FuzzySet>)
  {
    predicate Valid() {
      nStateVariables > 0 && |stateVariablesRanges| == nStateVariables && |fuzzySets| == nStateVariables
    }

    /** `state_shape`: the number of membership functions of each set. */
    function StateShape(): (shape: seq<nat>)
      ensures |shape| == |fuzzySets|
      ensures forall i :: 0 <= i < |fuzzySets| ==> shape[i] == |fuzzySets[i].membershipFunctions|
    {
      seq(|fuzzySets|, i requires 0 <= i < |fuzzySets| => |fuzzySets[i].membershipFunctions|)
    }
  }

  /** `FuzzyApproximator(n, ranges, fuzzy_sets)`: base-class validation, then either the
      given sets through the setter or sets generated from the cut-points. */
  function NewFuzzy(n: int, ranges: seq<Typed<seq<real>>>, fuzzySets: Option<Typed<seq<Typed<FuzzySet>>>>)
    : (r: Result<FuzzyApproximator>)
    ensures ValidateRanges(n, ranges).Err? ==> r == Err(ValueError)
    ensures r.Ok? ==> r.value.Valid() && r.value.nStateVariables == n
    ensures r.Ok? ==> r.value.stateVariablesRanges == ValidateRanges(n, ranges).value
    ensures ValidateRanges(n, ranges).Ok? && fuzzySets.Some? ==>
              r == (var s := SetFuzzySets(n, fuzzySets.value);
                    if s.Ok? then Ok(FuzzyApproximator(n, ValidateRanges(n, ranges).value, s.value)) else Err(s.error))
    ensures ValidateRanges(n, ranges).Ok? && fuzzySets.None? ==>
              r == (var s := DefaultFuzzySets(ValidateRanges(n, ranges).value);
                    if s.Ok? then Ok(FuzzyApproximator(n, ValidateRanges(n, ranges).value, s.value)) else Err(ValueError))
  {
    var rs :- ValidateRanges(n, ranges);
    match fuzzySets
    case Some(given) =>
      var sets :- SetFuzzySets(n, given);
      Ok(FuzzyApproximator(n, rs, sets))
    case None =>
      var sets :- DefaultFuzzySets(rs);
      Ok(FuzzyApproximator(n, rs, sets))
  }

  /** Generated from non-decreasing cut-points, the approximator exists, its shape counts
      `|cut-points| + 1` functions per non-empty variable, and all its grades are numbers. */
  lemma NewFuzzyFromRanges(ranges: seq<seq<real>>)
    requires |ranges| > 0
    requires forall v :: 0 <= v < |ranges| ==> NonDecreasing(ranges[v])
    ensures var r := NewFuzzy(|ranges|, Lists(ranges), None);
            && r.Ok?
            && (forall v :: 0 <= v < |ranges| ==>
                  r.value.StateShape()[v] == if |ranges[v]| == 0 then 0 else |ranges[v]| + 1)
            && (forall v :: 0 <= v < |ranges| ==> NaNFreeSet(r.value.fuzzySets[v]))
  {
    assert ValidateRanges(|ranges|, Lists(ranges)).value == ranges;
    forall v | 0 <= v < |ranges|
      ensures DefaultFuzzySet(ranges[v]).Ok?
      ensures |DefaultFuzzySet(ranges[v]).value.membershipFunctions| == if |ranges[v]| == 0 then 0 else |ranges[v]| + 1
      ensures NaNFreeSet(DefaultFuzzySet(ranges[v]).value)
    {
      DefaultFuzzySetShape(ranges[v]);
    }
  }

  /** `FuzzyApproximator.approximate_state`: the grades of each observation component
      under its variable's set; an observation longer than the sets raises IndexError. */
  function FuzzyApproximateState(f: FuzzyApproximator, obs: seq<real>): (r: Result<seq<seq<real>>>)
    requires forall i :: 0 <= i < |f.fuzzySets| ==> NaNFreeSet(f.fuzzySets[i])
    ensures r.Ok? <==> |obs| <= |f.fuzzySets|
    ensures r.Err? ==> r.error == IndexError
    ensures r.Ok? ==> |r.value| == |obs|
    ensures r.Ok? ==> forall i :: 0 <= i < |obs| ==> r.value[i] == MembershipGrades(f.fuzzySets[i], obs[i])
  {
    if |obs| > |f.fuzzySets| then Err(IndexError)
    else Ok(seq(|obs|, i requires 0 <= i < |obs| => MembershipGrades(f.fuzzySets[i], obs[i])))
  }
}
