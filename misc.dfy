/** The sliding-window generator of misc.py. */
module Misc {

  /** Every window the generator yields, in order.  For a positive width these are
      the contiguous slices of that width; for width 0 the generator first yields
      the empty tuple and then, because `()[1:]` is `()`, one 1-tuple per element. */
  function Windows<T>(s: seq<T>, n: nat): (w: seq<seq<T>>)
    ensures |w| == if n == 0 then |s| + 1 else if |s| < n then 0 else |s| - n + 1
  {
    if n == 0 then [[]] + seq(|s|, i requires 0 <= i < |s| => [s[i]])
    else if |s| < n then []
    else [s[..n]] + Windows(s[1..], n)
  }

  /** The k-th window of a positive width is the slice starting at k. */
  lemma {:induction false} WindowsAt<T>(s: seq<T>, n: nat, k: nat)
    requires 1 <= n <= |s| && k <= |s| - n
    ensures |Windows(s, n)| == |s| - n + 1
    ensures |Windows(s, n)[k]| == n && Windows(s, n)[k] == s[k..k + n]
  {
    if k > 0 {
      WindowsAt(s[1..], n, k - 1);
      assert s[1..][k - 1..k - 1 + n] == s[k..k + n];
    }
  }

  /** Appending an element adds exactly the window that ends with it. */
  lemma {:induction false} WindowsSnoc<T>(s: seq<T>, n: nat, x: T)
    requires n >= 1
    ensures Windows(s + [x], n) ==
            Windows(s, n) + (if |s| + 1 >= n then [(s + [x])[|s| + 1 - n..]] else [])
  {
    if |s| + 1 > n {
      WindowsSnoc(s[1..], n, x);
      assert (s + [x])[1..] == s[1..] + [x];
      assert (s + [x])[..n] == s[..n];
      assert (s[1..] + [x])[|s[1..]| + 1 - n..] == (s + [x])[|s| + 1 - n..];
    } else if |s| + 1 == n {
      assert |(s + [x])[1..]| < n;
      assert (s + [x])[..n] == s + [x] == (s + [x])[|s| + 1 - n..];
    }
  }

  /** For width 0, appending an element adds its 1-tuple. */
  lemma WindowsZeroSnoc<T>(s: seq<T>, x: T)
    ensures Windows(s + [x], 0) == Windows(s, 0) + [[x]]
  {
    var l := Windows(s + [x], 0);
    var r := Windows(s, 0) + [[x]];
    assert |l| == |r|;
    forall k | 0 <= k < |l| ensures l[k] == r[k] {
      if k == 0 {
      } else if k <= |s| {
        assert l[k] == [(s + [x])[k - 1]];
      } else {
        assert l[k] == [x];
      }
    }
  }

  /** Drops the head of a tuple, `t[1:]`, which is `()` for the empty tuple. */
  function Tail<T>(t: seq<T>): (r: seq<T>)
    ensures |r| == if |t| == 0 then 0 else |t| - 1
  {
    if |t| == 0 then [] else t[1..]
  }

  /** One turn of the generator's loop: shifting the next element into the window
      gives the window that ends there, which is the one its prefix adds. */
  lemma WindowAdvance<T>(s: seq<T>, n: nat, it: nat, result: seq<T>)
    requires n <= it < |s|
    requires n == 0 ==> result == (if it == 0 then [] else [s[it - 1]])
    requires n >= 1 ==> result == s[it - n..it]
    ensures var r := Tail(result) + [s[it]];
            && (n == 0 ==> r == [s[it]])
            && (n >= 1 ==> r == s[it + 1 - n..it + 1])
            && Windows(s[..it + 1], n) == Windows(s[..it], n) + [r]
  {
    var r := Tail(result) + [s[it]];
    assert s[..it + 1] == s[..it] + [s[it]];
    if n >= 1 {
      WindowsSnoc(s[..it], n, s[it]);
      assert r == s[it + 1 - n..it + 1];
      assert (s[..it] + [s[it]])[it + 1 - n..] == s[it + 1 - n..it + 1];
    } else {
      WindowsZeroSnoc(s[..it], s[it]);
    }
  }

  /** The generator run to exhaustion: the first n elements are taken with `islice`
      and yielded when there were n of them; then each further element is shifted
      into the window and the window is yielded again. */
  method Window<T>(s: seq<T>, n: nat) returns (w: seq<seq<T>>)
    ensures w == Windows(s, n)
  {
    var taken := if n <= |s| then n else |s|;
    var result := s[..taken];
    var it := taken;
    w := [];
    if |result| == n {
      w := w + [result];
    }
    if n == 0 {
      assert w == Windows(s[..0], 0);
    } else if n <= |s| {
      assert s[..n] == s[..n] + [];
      assert w == Windows(s[..n], n);
    } else {
      assert s[..|s|] == s;
      return;
    }
    while it < |s|
      invariant n <= it <= |s|
      invariant n == 0 ==> result == (if it == 0 then [] else [s[it - 1]])
      invariant n >= 1 ==> result == s[it - n..it]
      invariant w == Windows(s[..it], n)
    {
      WindowAdvance(s, n, it, result);
      result := Tail(result) + [s[it]];
      it := it + 1;
      w := w + [result];
    }
    assert s[..it] == s;
  }
}
