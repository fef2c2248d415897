/** Multiple-choice option building for integer answers: a set seeded with the
    correct answer grows by plausible wrong answers until it holds `count`
    values, and is then shuffled. Each `Math.random()` draw of the source is a
    caller-supplied integer: the offsets tried, in order, and the swaps that
    realise the shuffle. */
module QuizOptions {
  import opened Wrappers

  /** No value occurs twice. */
  predicate Distinct(s: seq<int>) {
    forall i, j :: 0 <= i < j < |s| ==> s[i] != s[j]
  }

  /** What the integer branch accepts as a wrong answer: positive, different
      from the correct answer and at most 10 away from it. */
  predicate PlausibleWrong(v: int, correct: int) {
    v > 0 && v != correct && -10 <= v - correct <= 10
  }

  /** The values `getRandomNumber(-10, 10)` can return. */
  predicate ValidDeltas(deltas: seq<int>) {
    forall k :: 0 <= k < |deltas| ==> -10 <= deltas[k] <= 10
  }

  /** Number of options the loop stops at: a set already holding the correct
      answer never shrinks below one element. */
  function Target(count: int): nat {
    if count < 1 then 1 else count
  }

  /** The values of a list in any order. */
  function Values(s: seq<int>): set<int> {
    set i | 0 <= i < |s| :: s[i]
  }

  /** The distinct wrong answers the offsets can produce for `correct`. */
  function Reachable(correct: int, deltas: seq<int>): set<int> {
    set d | d in deltas && PlausibleWrong(correct + d, correct) :: correct + d
  }

  /** The option set in insertion order. The loop stops once `count` values are
      held; None means the offsets ran out first, where the source would keep
      drawing. That happens exactly when the offsets cannot supply count - 1
      distinct plausible wrong answers. */
  method CollectOptions(correct: int, count: int, deltas: seq<int>) returns (r: Option<seq<int>>)
    requires ValidDeltas(deltas)
    ensures r.Some? <==> count <= 1 || |Reachable(correct, deltas)| >= count - 1
    ensures r.Some? ==> |r.value| == Target(count)
    ensures r.Some? ==> Distinct(r.value) && r.value[0] == correct
    ensures r.Some? ==> forall i :: 1 <= i < |r.value| ==> PlausibleWrong(r.value[i], correct)
    ensures r.Some? ==> forall i :: 1 <= i < |r.value| ==> r.value[i] - correct in deltas
    ensures r.None? ==> count >= 2
    ensures correct <= -10 && count >= 2 ==> r.None?
  {
    var acc := [correct];
    var k := 0;
    while |acc| < count && k < |deltas|
      invariant 0 <= k <= |deltas|
      invariant 1 <= |acc| <= Target(count)
      invariant Distinct(acc) && acc[0] == correct
      invariant Values(acc[1..]) == Reachable(correct, deltas[..k])
      decreases |deltas| - k
    {
      var v := correct + deltas[k];
      CollectStep(correct, deltas, acc, k);
      if PlausibleWrong(v, correct) && v !in acc {
        acc := acc + [v];
      }
      k := k + 1;
    }
    CollectedSoFar(correct, deltas, acc, k);
    NothingReachableBelow(correct, deltas);
    if |acc| >= count {
      r := Some(acc);
    } else {
      assert deltas[..k] == deltas;
      r := None;
    }
  }

  /** One turn of the loop keeps its invariant: a new plausible value is
      appended, and anything else leaves the list as it was. */
  lemma CollectStep(correct: int, deltas: seq<int>, acc: seq<int>, k: nat)
    requires k < |deltas| && |acc| >= 1 && Distinct(acc) && acc[0] == correct
    requires Values(acc[1..]) == Reachable(correct, deltas[..k])
    ensures var v := correct + deltas[k];
      if PlausibleWrong(v, correct) && v !in acc then
        && Distinct(acc + [v]) && (acc + [v])[0] == correct
        && Values((acc + [v])[1..]) == Reachable(correct, deltas[..k + 1])
      else
        Values(acc[1..]) == Reachable(correct, deltas[..k + 1])
  {
    var v := correct + deltas[k];
    ReachableStep(correct, deltas, k);
    if PlausibleWrong(v, correct) && v !in acc {
      assert (acc + [v])[1..] == acc[1..] + [v];
      ValuesAppend(acc[1..], v);
    } else if PlausibleWrong(v, correct) {
      var i :| 0 <= i < |acc| && acc[i] == v;
      assert acc[1..][i - 1] == v;
    }
  }

  /** An answer of -10 or less has no positive value within 10 of it. */
  lemma NothingReachableBelow(correct: int, deltas: seq<int>)
    requires ValidDeltas(deltas)
    ensures correct <= -10 ==> Reachable(correct, deltas) == {}
  {
  }

  /** What the loop's invariant gives once it stops after `k` offsets: every
      wrong value is plausible and drawn, and there are as many of them as the
      consumed offsets reach, which is no more than all offsets reach. */
  lemma CollectedSoFar(correct: int, deltas: seq<int>, acc: seq<int>, k: nat)
    requires k <= |deltas| && |acc| >= 1 && Distinct(acc) && acc[0] == correct
    requires Values(acc[1..]) == Reachable(correct, deltas[..k])
    ensures forall i :: 1 <= i < |acc| ==> PlausibleWrong(acc[i], correct) && acc[i] - correct in deltas
    ensures |Reachable(correct, deltas[..k])| == |acc| - 1
    ensures |Reachable(correct, deltas[..k])| <= |Reachable(correct, deltas)|
  {
    assert deltas[..k] <= deltas;
    forall i | 1 <= i < |acc|
      ensures PlausibleWrong(acc[i], correct) && acc[i] - correct in deltas
    {
      assert acc[1..][i - 1] == acc[i];
      assert acc[i] in Reachable(correct, deltas[..k]);
    }
    DistinctTailSize(acc);
    ReachableGrows(correct, deltas[..k], deltas);
  }

  /** One more offset adds at most its own value to the reachable set. */
  lemma ReachableStep(correct: int, deltas: seq<int>, k: nat)
    requires k < |deltas|
    ensures Reachable(correct, deltas[..k + 1]) ==
              Reachable(correct, deltas[..k])
              + (if PlausibleWrong(correct + deltas[k], correct) then {correct + deltas[k]} else {})
  {
    var before := deltas[..k];
    var after := deltas[..k + 1];
    assert after == before + [deltas[k]];
    forall x | x in Reachable(correct, after)
      ensures x in Reachable(correct, before) || (x == correct + deltas[k] && PlausibleWrong(x, correct))
    {
      var d :| d in after && PlausibleWrong(correct + d, correct) && x == correct + d;
      if d in before {
        assert x in Reachable(correct, before);
      }
    }
    forall x | x in Reachable(correct, before)
      ensures x in Reachable(correct, after)
    {
      var d :| d in before && PlausibleWrong(correct + d, correct) && x == correct + d;
      assert d in after;
    }
    if PlausibleWrong(correct + deltas[k], correct) {
      assert deltas[k] in after;
    }
  }

  lemma ValuesAppend(s: seq<int>, v: int)
    ensures Values(s + [v]) == Values(s) + {v}
  {
    var t := s + [v];
    assert t[|s|] == v;
    forall x | x in Values(t)
      ensures x in Values(s) + {v}
    {
      var i :| 0 <= i < |t| && t[i] == x;
      if i < |s| {
        assert s[i] == x;
      }
    }
    forall x | x in Values(s)
      ensures x in Values(t)
    {
      var i :| 0 <= i < |s| && s[i] == x;
      assert t[i] == x;
    }
  }

  /** More offsets reach at least as many values. */
  lemma ReachableGrows(correct: int, few: seq<int>, many: seq<int>)
    requires forall d :: d in few ==> d in many
    ensures |Reachable(correct, few)| <= |Reachable(correct, many)|
  {
    var a := Reachable(correct, few);
    var b := Reachable(correct, many);
    assert a <= b;
    assert b == a + (b - a);
    assert a * (b - a) == {};
  }

  /** A distinct list past its head has one value per position. */
  lemma DistinctTailSize(s: seq<int>)
    requires Distinct(s) && |s| >= 1
    ensures |Values(s[1..])| == |s| - 1
  {
    DistinctSetSize(s[1..]);
  }

  /** Exchange two positions. */
  function Swap(s: seq<int>, i: nat, j: nat): (r: seq<int>)
    requires i < |s| && j < |s|
    ensures |r| == |s| && multiset(r) == multiset(s)
    ensures Distinct(s) ==> Distinct(r)
  {
    var r := s[i := s[j]][j := s[i]];
    assert forall p :: 0 <= p < |s| ==> r[p] == s[if p == i then j else if p == j then i else p];
    r
  }

  /** A shuffle: the swaps, each index taken modulo the length, applied in
      order. Every result is a permutation of the input. */
  function Shuffle(s: seq<int>, swaps: seq<(nat, nat)>): (r: seq<int>)
    ensures |r| == |s| && multiset(r) == multiset(s)
    ensures Distinct(s) ==> Distinct(r)
    decreases |swaps|
  {
    if |swaps| == 0 || |s| == 0 then s
    else Shuffle(Swap(s, swaps[0].0 % |s|, swaps[0].1 % |s|), swaps[1..])
  }

  /** `generateOptions` for an integer answer: the collected options, shuffled. */
  method GenerateOptions(correct: int, count: int, deltas: seq<int>, swaps: seq<(nat, nat)>)
    returns (r: Option<seq<int>>)
    requires ValidDeltas(deltas)
    ensures r.Some? <==> count <= 1 || |Reachable(correct, deltas)| >= count - 1
    ensures r.Some? ==> |r.value| == Target(count) && Distinct(r.value)
    ensures r.Some? ==> correct in r.value
    ensures r.Some? ==> forall v :: v in r.value && v != correct ==> PlausibleWrong(v, correct)
    ensures r.Some? ==> forall v :: v in r.value && v != correct ==> v - correct in deltas
    ensures r.Some? ==> Target(count) <= 21
    ensures r.None? ==> count >= 2
    ensures correct <= -10 && count >= 2 ==> r.None?
  {
    var collected := CollectOptions(correct, count, deltas);
    match collected {
      case None =>
        r := None;
      case Some(acc) =>
        var shuffled := Shuffle(acc, swaps);
        assert correct in multiset(shuffled) by { assert acc[0] in multiset(acc); }
        forall v | v in shuffled && v != correct
          ensures PlausibleWrong(v, correct) && v - correct in deltas
        {
          assert v in multiset(acc);
          var i :| 0 <= i < |acc| && acc[i] == v;
        }
        OptionCountAtMostTwentyOne(correct, shuffled);
        r := Some(shuffled);
    }
  }

  /** The integers lo..hi. */
  function Range(lo: int, hi: int): (r: set<int>)
    ensures forall v :: v in r <==> lo <= v <= hi
    decreases hi - lo
  {
    if lo > hi then {} else {lo} + Range(lo + 1, hi)
  }

  lemma {:induction false} RangeSize(lo: int, hi: int)
    requires lo <= hi + 1
    ensures |Range(lo, hi)| == hi - lo + 1
    decreases hi - lo
  {
    if lo <= hi {
      RangeSize(lo + 1, hi);
      assert Range(lo, hi) == {lo} + Range(lo + 1, hi);
      assert lo !in Range(lo + 1, hi);
    }
  }

  lemma {:induction false} DistinctSetSize(s: seq<int>)
    requires Distinct(s)
    ensures |Values(s)| == |s|
  {
    if |s| > 0 {
      var init := s[..|s| - 1];
      var last := s[|s| - 1];
      assert Distinct(init) by {
        forall i, j | 0 <= i < j < |init| ensures init[i] != init[j] {
          assert init[i] == s[i] && init[j] == s[j];
        }
      }
      DistinctSetSize(init);
      assert s == init + [last];
      ValuesAppend(init, last);
      assert last !in Values(init) by {
        forall i | 0 <= i < |init| ensures init[i] != last {
          assert init[i] == s[i];
        }
      }
    }
  }

  /** Pairwise distinct values drawn from lo..hi number at most hi - lo + 1. */
  lemma DistinctInRangeBound(s: seq<int>, lo: int, hi: int)
    requires Distinct(s) && lo <= hi
    requires forall i :: 0 <= i < |s| ==> lo <= s[i] <= hi
    ensures |s| <= hi - lo + 1
  {
    DistinctSetSize(s);
    RangeSize(lo, hi);
    var values := Values(s);
    var all := Range(lo, hi);
    assert values <= all;
    assert all == values + (all - values);
    assert values * (all - values) == {};
  }

  /** Every option lies within 10 of the correct answer, so at most 21 distinct
      options exist: for a larger count the loop of the source never ends,
      whatever is drawn. */
  lemma OptionCountAtMostTwentyOne(correct: int, options: seq<int>)
    requires Distinct(options) && correct in options
    requires forall v :: v in options && v != correct ==> PlausibleWrong(v, correct)
    ensures |options| <= 21
  {
    forall i | 0 <= i < |options|
      ensures correct - 10 <= options[i] <= correct + 10
    {
      assert options[i] in options;
    }
    DistinctInRangeBound(options, correct - 10, correct + 10);
  }
}
