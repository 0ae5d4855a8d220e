/** The learning-control part of the `Algorithm` base class (abstract.py) shared by every
    algorithm: its name, the epsilon-greedy action choice and the "learned" test the
    episode driver stops on. */
module Learning {
  import opened ExtReals
  import opened Matrices

  /** `name`: the class name with the suffix telling whether traces are used. */
  function Name(className: string, lambd: real): (n: string)
    ensures lambd > 0.0 ==> n == className + "(lambda)"
    ensures lambd <= 0.0 ==> n == className + "(0)"
  {
    if lambd > 0.0 then className + "(lambda)" else className + "(0)"
  }

  function EndsWith(s: string, suffix: string): bool {
    |suffix| <= |s| && s[|s| - |suffix|..] == suffix
  }

  /** The name ends in "(lambda)" exactly for a positive trace-decay parameter. */
  lemma NameSuffix(className: string, lambd: real)
    ensures EndsWith(Name(className, lambd), "(lambda)") <==> lambd > 0.0
    ensures EndsWith(Name(className, lambd), "(0)") <==> lambd <= 0.0
  {
    var n := Name(className, lambd);
    if lambd > 0.0 {
      assert n[|n| - 8..] == "(lambda)";
      assert n[|n| - 3..] == "da)";
    } else {
      assert n[|n| - 3..] == "(0)";
      if |n| >= 8 {
        assert n[|n| - 8..][5..] == "(0)";
      }
    }
  }

  /** The outcome of the random draws one action choice makes: the number `random()`
      returned and the element `choice` picked, as an index into its argument. */
  datatype Draw = Draw(u: real, pick: nat)

  /** `get_action`: with probability epsilon (when allowed) any action, otherwise one
      of the greedy actions.  Actions are indices `0 .. nActions - 1`. */
  function GetAction(epsilonGreedy: bool, epsilon: real, nActions: nat, greedy: seq<nat>, d: Draw): (a: nat)
    requires nActions > 0 && |greedy| > 0
    requires forall t :: 0 <= t < |greedy| ==> greedy[t] < nActions
    ensures a < nActions
    ensures !(epsilonGreedy && d.u < epsilon) ==> a in greedy
    ensures epsilonGreedy && d.u < epsilon ==> a == d.pick % nActions
  {
    if epsilonGreedy && d.u < epsilon then d.pick % nActions
    else greedy[d.pick % |greedy|]
  }

  /** The action `get_action` picks from a row of action values: any action when
      exploring, else one of the row's greedy actions. */
  function Choose(row: seq<real>, epsilonGreedy: bool, epsilon: real, d: Draw): (a: nat)
    requires |row| > 0
    ensures a < |row|
    ensures !(epsilonGreedy && d.u < epsilon) ==> a in ArgMax(row)
  {
    ArgMaxIsGreedySet(row);
    var g := ArgMax(row);
    assert forall t :: 0 <= t < |g| ==> g[t] in g;
    GetAction(epsilonGreedy, epsilon, |row|, g, d)
  }

  /** The learning rates, discount and trace-decay parameter of an algorithm. */
  datatype Params = Params(alpha: real, beta: real, gamma: real, lambd: real)

  /** The factor `gamma * lambda` by which traces decay after a step. */
  function Decay(p: Params): real {
    p.gamma * p.lambd
  }

  /** Without exploration every greedy action can be chosen, and with it every action. */
  lemma GetActionCovers(epsilon: real, nActions: nat, greedy: seq<nat>, a: nat)
    requires nActions > 0 && |greedy| > 0
    requires forall t :: 0 <= t < |greedy| ==> greedy[t] < nActions
    ensures a in greedy ==> exists p: nat :: GetAction(false, epsilon, nActions, greedy, Draw(0.0, p)) == a
    ensures a < nActions && epsilon > 0.0 ==> exists p: nat :: GetAction(true, epsilon, nActions, greedy, Draw(0.0, p)) == a
  {
    if a in greedy {
      var t :| 0 <= t < |greedy| && greedy[t] == a;
      assert t % |greedy| == t;
      assert GetAction(false, epsilon, nActions, greedy, Draw(0.0, t)) == a;
    }
    if a < nActions && epsilon > 0.0 {
      assert a % nActions == a;
      assert GetAction(true, epsilon, nActions, greedy, Draw(0.0, a)) == a;
    }
  }

  /** `steps_per_episode[-window_size:]`: Python's slice from index `-w`. */
  function LastWindow(spe: seq<nat>, w: int): (tail: seq<nat>)
    ensures w > 0 && |spe| >= w ==> tail == spe[|spe| - w..]
    ensures w == 0 ==> tail == spe
    ensures w < 0 ==> tail == if -w <= |spe| then spe[-w..] else []
  {
    var start := if w > 0 then (if |spe| >= w then |spe| - w else 0)
                 else if -w <= |spe| then -w else |spe|;
    spe[start..]
  }

  /** `is_learned`: enough episodes are recorded and every one in the window was at
      least `gte` or at most `lte` steps long. */
  predicate IsLearned(spe: seq<nat>, lte: ExtReal, gte: ExtReal, w: int) {
    |spe| >= w &&
    var tail := LastWindow(spe, w);
    forall t :: 0 <= t < |tail| ==> Le(gte, Finite(tail[t] as real)) || Le(Finite(tail[t] as real), lte)
  }

  /** For a positive window: learned iff the last `w` episodes all satisfy the length
      test; never with fewer than `w` episodes recorded. */
  lemma IsLearnedWindow(spe: seq<nat>, lte: ExtReal, gte: ExtReal, w: int)
    requires w > 0
    ensures |spe| < w ==> !IsLearned(spe, lte, gte, w)
    ensures |spe| >= w ==>
              (IsLearned(spe, lte, gte, w) <==>
               forall k :: |spe| - w <= k < |spe| ==> Le(gte, Finite(spe[k] as real)) || Le(Finite(spe[k] as real), lte))
  {
    if |spe| >= w {
      var tail := LastWindow(spe, w);
      assert forall k :: |spe| - w <= k < |spe| ==> spe[k] == tail[k - (|spe| - w)];
    }
  }

  /** The recorded cases of the `is_learned` test on a short record. */
  lemma IsLearnedExamplesShort()
    ensures !IsLearned([0, 1, 2, 3, 4, 4, 4], Finite(0.0), Finite(3.0), 5)
    ensures IsLearned([0, 1, 2, 3, 4, 4, 4], Finite(0.0), Finite(3.0), 4)
    ensures !IsLearned([0, 1, 2, 3, 4, 4, 4], Finite(0.0), Finite(5.0), 20)
    ensures !IsLearned([40, 40, 40], Finite(50.0), Finite(10000.0), 5)
  {
    var a: seq<nat> := [0, 1, 2, 3, 4, 4, 4];
    assert LastWindow(a, 5) == [2, 3, 4, 4, 4];
    assert LastWindow(a, 5)[0] == 2;
    assert LastWindow(a, 4) == [3, 4, 4, 4];
  }

  /** A record that fails on a window of five but passes on a window of four. */
  lemma IsLearnedExamplesLong()
    ensures !IsLearned([40, 35, 30, 33, 25, 20, 19, 20, 18, 17, 19, 20], Finite(19.0), Finite(10000.0), 5)
    ensures IsLearned([40, 35, 30, 33, 25, 20, 19, 20, 18, 17, 19, 20], Finite(20.0), Finite(10000.0), 4)
  {
    var b: seq<nat> := [40, 35, 30, 33, 25, 20, 19, 20, 18, 17, 19, 20];
    assert LastWindow(b, 5) == [20, 18, 17, 19, 20];
    assert LastWindow(b, 5)[0] == 20;
    assert LastWindow(b, 4) == [18, 17, 19, 20];
  }

  /** A record whose last three lengths are all at most 19. */
  lemma IsLearnedExamplesTight()
    ensures IsLearned([40, 35, 30, 33, 25, 20, 19, 20, 18, 17, 19], Finite(19.0), Finite(10000.0), 3)
  {
    var c: seq<nat> := [40, 35, 30, 33, 25, 20, 19, 20, 18, 17, 19];
    assert LastWindow(c, 3) == [18, 17, 19];
  }

  /** The outcome `learn(n_episodes, stop_when_learned, ...)` promises of the episode
      lengths it appends to `before`: one per episode, `n` of them unless stopped at
      the first episode after which the record counts as learned. */
  predicate LearnOutcome(before: seq<nat>, after: seq<nat>, nEpisodes: int, stop: bool,
                         lte: ExtReal, gte: ExtReal, w: int)
  {
    var n := if nEpisodes > 0 then nEpisodes else 0;
    && |before| <= |after| <= |before| + n
    && after[..|before|] == before
    && (!stop ==> |after| == |before| + n)
    && (stop ==> forall k :: |before| < k < |after| ==> !IsLearned(after[..k], lte, gte, w))
    && (stop && |after| < |before| + n ==> IsLearned(after, lte, gte, w))
    && (n > 0 ==> |after| > |before|)
  }

  /** The record after the first i episodes of `learn`: one length per episode and,
      with `stop`, not learned after any of them. */
  predicate LearnProgress(before: seq<nat>, spe: seq<nat>, i: nat, stop: bool, lte: ExtReal, gte: ExtReal, w: int) {
    && |spe| == |before| + i
    && spe[..|before|] == before
    && (stop ==> forall k :: |before| < k <= |spe| ==> !IsLearned(spe[..k], lte, gte, w))
  }

  /** Recording one more episode that does not stop learning keeps the progress. */
  lemma LearnProgressStep(before: seq<nat>, spe: seq<nat>, i: nat, stop: bool,
                          lte: ExtReal, gte: ExtReal, w: int)
    requires |spe| > 0 && LearnProgress(before, spe[..|spe| - 1], i, stop, lte, gte, w)
    requires !(stop && IsLearned(spe, lte, gte, w))
    ensures LearnProgress(before, spe, i + 1, stop, lte, gte, w)
  {
    var prev := spe[..|spe| - 1];
    assert spe[..|before|] == prev[..|before|];
    if stop {
      forall k | |before| < k <= |spe| ensures !IsLearned(spe[..k], lte, gte, w) {
        if k < |spe| {
          assert spe[..k] == prev[..k];
        } else {
          assert spe[..k] == spe;
        }
      }
    }
  }

  /** `learn` that ran all its episodes fulfils `LearnOutcome`. */
  lemma LearnProgressOutcome(before: seq<nat>, spe: seq<nat>, i: nat, nEpisodes: int, stop: bool,
                             lte: ExtReal, gte: ExtReal, w: int)
    requires LearnProgress(before, spe, i, stop, lte, gte, w)
    requires i == if nEpisodes > 0 then nEpisodes else 0
    ensures LearnOutcome(before, spe, nEpisodes, stop, lte, gte, w)
  {
  }

  /** The progress of the last episode when it stops: the record up to it was not
      learned, so it is a progress of `i - 1` episodes extended by a learned record. */
  lemma LearnStopped(before: seq<nat>, spe: seq<nat>, i: nat, nEpisodes: int, stop: bool,
                     lte: ExtReal, gte: ExtReal, w: int)
    requires |spe| > 0 && LearnProgress(before, spe[..|spe| - 1], i, stop, lte, gte, w)
    requires stop && IsLearned(spe, lte, gte, w) && i + 1 <= nEpisodes
    ensures LearnOutcome(before, spe, nEpisodes, stop, lte, gte, w)
  {
    var prev := spe[..|spe| - 1];
    assert spe[..|before|] == prev[..|before|];
    forall k | |before| < k < |spe| ensures !IsLearned(spe[..k], lte, gte, w) {
      assert spe[..k] == prev[..k];
    }
  }

  /** With early stopping on a window of size w that every length passes, learning stops
      after exactly w episodes from an empty record. */
  lemma LearnOutcomeStopsAtWindow(after: seq<nat>, w: nat, nEpisodes: int)
    requires 0 < w <= nEpisodes
    requires LearnOutcome([], after, nEpisodes, true, Finite(0.0), Finite(0.0), w)
    ensures |after| == w
  {
    AllLengthsPass(w);
    if |after| > 1 {
      // the record one episode earlier was not yet learned, so it was shorter than w
      var k := |after| - 1;
      assert !IsLearned(after[..k], Finite(0.0), Finite(0.0), w);
    }
    if |after| < nEpisodes {
      // stopping early means the record was learned
      assert IsLearned(after, Finite(0.0), Finite(0.0), w);
    }
  }

  /** Every length passes the test `0 <= n`, so only the record's size matters. */
  lemma AllLengthsPass(w: nat)
    ensures forall s: seq<nat> :: IsLearned(s, Finite(0.0), Finite(0.0), w) <==> |s| >= w
  {
  }
}
