/** Membership functions and fuzzy sets of fuzzy.py.  Parameters are extended reals
    because the open-ended functions generated from cut-points carry `-inf`/`inf`;
    the argument of a membership grade is always a finite observation. */
module Fuzzy {
  import opened Wrappers
  import opened ExtReals

  datatype MembershipFunction =
    | Triangular(a: ExtReal, b: ExtReal, c: ExtReal)
    | Trapezoidal(a: ExtReal, b: ExtReal, c: ExtReal, d: ExtReal)

  /** What the two constructors check: `a <= b <= c` (and `c <= d`). */
  predicate Ordered(mf: MembershipFunction) {
    match mf
    case Triangular(a, b, c) => Le(a, b) && Le(b, c)
    case Trapezoidal(a, b, c, d) => Le(a, b) && Le(b, c) && Le(c, d)
  }

  function NewTriangular(a: ExtReal, b: ExtReal, c: ExtReal): (r: Result<MembershipFunction>)
    ensures r.Ok? <==> Le(a, b) && Le(b, c)
    ensures r.Err? ==> r.error == ValueError
    ensures r.Ok? ==> r.value.Triangular? && r.value.a == a && r.value.b == b && r.value.c == c
    ensures r.Ok? ==> Ordered(r.value)
  {
    if !(Le(a, b) && Le(b, c)) then Err(ValueError) else Ok(Triangular(a, b, c))
  }

  function NewTrapezoidal(a: ExtReal, b: ExtReal, c: ExtReal, d: ExtReal): (r: Result<MembershipFunction>)
    ensures r.Ok? <==> Le(a, b) && Le(b, c) && Le(c, d)
    ensures r.Err? ==> r.error == ValueError
    ensures r.Ok? ==> r.value == Trapezoidal(a, b, c, d) && Ordered(r.value)
  {
    if !(Le(a, b) && Le(b, c) && Le(c, d)) then Err(ValueError) else Ok(Trapezoidal(a, b, c, d))
  }

  /** `lo <= x <= hi`, the chained comparison guarding each segment. */
  predicate InSegment(lo: ExtReal, x: real, hi: ExtReal) {
    Le(lo, Finite(x)) && Le(Finite(x), hi)
  }

  /** A rising segment `(x - lo) / (hi - lo)` computes a number: it is degenerate
      (the division raises ZeroDivisionError and yields 0) or its left end is finite.
      With `lo == -inf` and `hi != lo` the quotient is `inf / inf`, an IEEE NaN. */
  predicate RiseDefined(lo: ExtReal, hi: ExtReal) {
    lo == hi || lo.Finite?
  }

  /** A falling segment `(hi - x) / (hi - lo)` computes a number: it is degenerate or
      its right end is finite. */
  predicate FallDefined(lo: ExtReal, hi: ExtReal) {
    lo == hi || hi.Finite?
  }

  /** The membership function never produces NaN for a finite argument. */
  predicate NaNFree(mf: MembershipFunction) {
    match mf
    case Triangular(a, b, c) => RiseDefined(a, b) && FallDefined(b, c)
    case Trapezoidal(a, b, c, d) => RiseDefined(a, b) && FallDefined(c, d)
  }

  /** A quotient of a part by a positive whole lies in [0, 1]. */
  lemma RatioBounds(num: real, den: real)
    requires 0.0 <= num <= den && den > 0.0
    ensures 0.0 <= num / den <= 1.0
    ensures (num / den) * den == num
    ensures num == den ==> num / den == 1.0
  {
    var q := num / den;
    assert q * den == num;
    assert (1.0 - q) * den == den - num;
    if num == den {
      assert (q - 1.0) * den == 0.0;
    }
  }

  /** `(x - lo) / (hi - lo)`; a zero divisor yields 0 and a finite numerator over an
      infinite divisor is 0. */
  function Rise(lo: ExtReal, x: real, hi: ExtReal): (g: real)
    requires InSegment(lo, x, hi) && RiseDefined(lo, hi)
    ensures 0.0 <= g <= 1.0
    ensures lo.Finite? && hi.Finite? && lo != hi ==> g * (hi.r - lo.r) == x - lo.r
    ensures lo.Finite? && hi == Finite(x) && lo != hi ==> g == 1.0
  {
    if lo == hi then 0.0
    else if hi.PosInf? then 0.0
    else RatioBounds(x - lo.r, hi.r - lo.r); (x - lo.r) / (hi.r - lo.r)
  }

  /** `(hi - x) / (hi - lo)` with the same conventions. */
  function Fall(lo: ExtReal, x: real, hi: ExtReal): (g: real)
    requires InSegment(lo, x, hi) && FallDefined(lo, hi)
    ensures 0.0 <= g <= 1.0
    ensures lo.Finite? && hi.Finite? && lo != hi ==> g * (hi.r - lo.r) == hi.r - x
  {
    if lo == hi then 0.0
    else if lo.NegInf? then 0.0
    else RatioBounds(hi.r - x, hi.r - lo.r); (hi.r - x) / (hi.r - lo.r)
  }

  /** `membership_grade(x)`: the first segment containing x decides, in the order
      rise, (plateau,) fall; outside all segments the grade is 0. */
  function Grade(mf: MembershipFunction, x: real): (g: real)
    requires NaNFree(mf)
    ensures 0.0 <= g <= 1.0
  {
    match mf
    case Triangular(a, b, c) =>
      if InSegment(a, x, b) then Rise(a, x, b)
      else if InSegment(b, x, c) then Fall(b, x, c)
      else 0.0
    case Trapezoidal(a, b, c, d) =>
      if InSegment(a, x, b) then Rise(a, x, b)
      else if InSegment(b, x, c) then 1.0
      else if InSegment(c, x, d) then Fall(c, x, d)
      else 0.0
  }

  /** Zero over a nonzero width is zero. */
  lemma ZeroOver(d: real)
    requires d != 0.0
    ensures 0.0 / d == 0.0
  {
    assert (0.0 / d) * d == 0.0;
  }

  /** A triangle with finite corners is the textbook piecewise-linear hat. */
  lemma TriangularGradeValues(a: real, b: real, c: real, x: real)
    requires a <= b <= c
    ensures var g := Grade(Triangular(Finite(a), Finite(b), Finite(c)), x);
            && (a < x <= b ==> g * (b - a) == x - a)
            && (b < x < c ==> g * (c - b) == c - x)
            && (x <= a || c < x || (b < c && x == c) ==> g == 0.0)
            && (a < b && x == b ==> g == 1.0)
            && (a == b && x == a ==> g == 0.0)
  {
    var lo, mid, hi := Finite(a), Finite(b), Finite(c);
    var g := Grade(Triangular(lo, mid, hi), x);
    if a <= x <= b {
      assert g == Rise(lo, x, mid);
      if x == a && a < b {
        assert x - lo.r == 0.0 && g == 0.0 / (mid.r - lo.r);
        ZeroOver(mid.r - lo.r);
      }
    } else if b < x <= c {
      assert g == Fall(mid, x, hi);
      if x == c {
        assert hi.r - x == 0.0 && g == 0.0 / (hi.r - mid.r);
        ZeroOver(hi.r - mid.r);
      }
    } else {
      assert g == 0.0;
    }
  }

  /** A trapezoid with finite corners ramps up on [a, b], is 1 on (b, c], ramps down
      on (c, d] and is 0 elsewhere; a zero-width ramp contributes 0. */
  lemma TrapezoidalGradeValues(a: real, b: real, c: real, d: real, x: real)
    requires a <= b <= c <= d
    ensures var g := Grade(Trapezoidal(Finite(a), Finite(b), Finite(c), Finite(d)), x);
            && (a < x <= b ==> g * (b - a) == x - a)
            && (b < x <= c ==> g == 1.0)
            && (c < x < d ==> g * (d - c) == d - x)
            && (x < a || (d <= x && c < d) ==> g == 0.0)
            && (a == b && x == a ==> g == 0.0)
  {
    var p, q, r, u := Finite(a), Finite(b), Finite(c), Finite(d);
    var g := Grade(Trapezoidal(p, q, r, u), x);
    if a <= x <= b {
      assert g == Rise(p, x, q);
      if x == a && a < b {
        assert x - p.r == 0.0 && g == 0.0 / (q.r - p.r);
        ZeroOver(q.r - p.r);
      }
    } else if b < x <= c {
      assert g == 1.0;
    } else if c < x <= d {
      assert g == Fall(r, x, u);
      if x == d {
        assert u.r - x == 0.0 && g == 0.0 / (u.r - r.r);
        ZeroOver(u.r - r.r);
      }
    } else {
      assert g == 0.0;
    }
  }

  /** `create_membership_function_from_range_tuple`. */
  function CreateMembershipFunction(rangeTuple: Typed<seq<ExtReal>>): (r: Result<MembershipFunction>)
    ensures rangeTuple.OtherType? ==> r == Err(TypeError)
    ensures rangeTuple.Instance? && |rangeTuple.value| != 3 && |rangeTuple.value| != 4 ==> r == Err(ValueError)
    ensures r.Ok? ==> Ordered(r.value)
    ensures r.Ok? && r.value.Triangular? ==>
              rangeTuple.Instance? && rangeTuple.value == [r.value.a, r.value.b, r.value.c]
    ensures r.Ok? && r.value.Trapezoidal? ==>
              rangeTuple.Instance? && rangeTuple.value == [r.value.a, r.value.b, r.value.c, r.value.d]
  {
    match rangeTuple
    case OtherType => Err(TypeError)
    case Instance(t) =>
      if |t| == 3 then NewTriangular(t[0], t[1], t[2])
      else if |t| == 4 then NewTrapezoidal(t[0], t[1], t[2], t[3])
      else Err(ValueError)
  }

  /** The factory accepts exactly the ordered 3- and 4-tuples. */
  lemma CreateMembershipFunctionAccepts(t: seq<ExtReal>)
    ensures CreateMembershipFunction(Instance(t)).Ok? <==>
              (|t| == 3 && Le(t[0], t[1]) && Le(t[1], t[2])) ||
              (|t| == 4 && Le(t[0], t[1]) && Le(t[1], t[2]) && Le(t[2], t[3]))
  {
  }

  datatype FuzzySet = FuzzySet(membershipFunctions: seq<MembershipFunction>)

  /** The `FuzzySet` constructor: every element must be a membership function. */
  function NewFuzzySet(elements: seq<Typed<MembershipFunction>>): (r: Result<FuzzySet>)
    ensures r.Ok? <==> forall i :: 0 <= i < |elements| ==> elements[i].Instance?
    ensures r.Err? ==> r.error == TypeError
    ensures r.Ok? ==> |r.value.membershipFunctions| == |elements|
    ensures r.Ok? ==> forall i :: 0 <= i < |elements| ==> r.value.membershipFunctions[i] == elements[i].value
  {
    if exists i :: 0 <= i < |elements| && elements[i].OtherType? then Err(TypeError)
    else Ok(FuzzySet(seq(|elements|, i requires 0 <= i < |elements| => elements[i].value)))
  }

  /** `FuzzySet.from_membership_functions_ranges`: the factory applied to each range in
      order; the first failing range raises. */
  function FromMembershipFunctionsRanges(ranges: seq<Typed<seq<ExtReal>>>): (r: Result<FuzzySet>)
    ensures r.Ok? <==> forall i :: 0 <= i < |ranges| ==> CreateMembershipFunction(ranges[i]).Ok?
    ensures r.Err? ==> exists i :: 0 <= i < |ranges| && CreateMembershipFunction(ranges[i]) == Err(r.error)
                                  && forall j :: 0 <= j < i ==> CreateMembershipFunction(ranges[j]).Ok?
    ensures r.Ok? ==> |r.value.membershipFunctions| == |ranges|
    ensures r.Ok? ==> forall i :: 0 <= i < |ranges| ==>
                        r.value.membershipFunctions[i] == CreateMembershipFunction(ranges[i]).value
  {
    if |ranges| == 0 then Ok(FuzzySet([]))
    else
      var first :- CreateMembershipFunction(ranges[0]);
      var rest :- FromMembershipFunctionsRanges(ranges[1..]);
      Ok(FuzzySet([first] + rest.membershipFunctions))
  }

  predicate NaNFreeSet(fs: FuzzySet) {
    forall i :: 0 <= i < |fs.membershipFunctions| ==> NaNFree(fs.membershipFunctions[i])
  }

  /** `membership_grades(x)`: one grade per function, in order. */
  function MembershipGrades(fs: FuzzySet, x: real): (g: seq<real>)
    requires NaNFreeSet(fs)
    ensures |g| == |fs.membershipFunctions|
    ensures forall i :: 0 <= i < |g| ==> 0.0 <= g[i] <= 1.0
  {
    seq(|fs.membershipFunctions|, i requires 0 <= i < |fs.membershipFunctions| =>
      Grade(fs.membershipFunctions[i], x))
  }
}
