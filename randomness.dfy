/** Python's random.shuffle, with the random draws supplied by the caller. */
module Randomness {

  /** Draws that random() can produce for a list of length n: the draw for position i lies in [0, i]. */
  predicate ShuffleDraws(draws: seq<nat>, n: nat) {
    |draws| == n && forall i :: 0 <= i < n ==> draws[i] <= i
  }

  function Swap<T>(s: seq<T>, i: nat, j: nat): (r: seq<T>)
    requires i < |s| && j < |s|
    ensures |r| == |s|
    ensures r[i] == s[j] && r[j] == s[i]
    ensures forall k :: 0 <= k < |s| && k != i && k != j ==> r[k] == s[k]
  {
    s[i := s[j]][j := s[i]]
  }

  /** A swap only moves entries around. */
  lemma SwapPermutes<T>(s: seq<T>, i: nat, j: nat)
    requires i < |s| && j < |s|
    ensures multiset(Swap(s, i, j)) == multiset(s)
  {
    var t := s[i := s[j]];
    assert multiset(t) == multiset(s) - multiset{s[i]} + multiset{s[j]};
    assert multiset(t[j := s[i]]) == multiset(t) - multiset{t[j]} + multiset{s[i]};
  }

  /** Swapping an entry with itself changes nothing. */
  lemma SwapSelf<T>(s: seq<T>, i: nat)
    requires i < |s|
    ensures Swap(s, i, i) == s
  {
    assert s[i := s[i]] == s;
  }

  /** The swaps of positions i, i-1, ..., 1 with their drawn partners, applied in that order. */
  function ShuffleDown<T>(s: seq<T>, draws: seq<nat>, i: nat): (r: seq<T>)
    requires ShuffleDraws(draws, |s|) && (i < |s| || i == 0)
    ensures |r| == |s|
    decreases i
  {
    if i == 0 then s else ShuffleDown(Swap(s, i, draws[i]), draws, i - 1)
  }

  lemma {:induction false} ShuffleDownPermutes<T>(s: seq<T>, draws: seq<nat>, i: nat)
    requires ShuffleDraws(draws, |s|) && (i < |s| || i == 0)
    ensures multiset(ShuffleDown(s, draws, i)) == multiset(s)
    decreases i
  {
    if i > 0 {
      SwapPermutes(s, i, draws[i]);
      ShuffleDownPermutes(Swap(s, i, draws[i]), draws, i - 1);
    }
  }

  /** The Fisher-Yates shuffle random.shuffle performs under the given draws. */
  function Shuffled<T>(s: seq<T>, draws: seq<nat>): (r: seq<T>)
    requires ShuffleDraws(draws, |s|)
    ensures |r| == |s|
  {
    if |s| == 0 then s else ShuffleDown(s, draws, |s| - 1)
  }

  /** A shuffle is a permutation: every card of the deck stays in it, as often as before. */
  lemma ShuffledPermutes<T>(s: seq<T>, draws: seq<nat>)
    requires ShuffleDraws(draws, |s|)
    ensures multiset(Shuffled(s, draws)) == multiset(s)
  {
    if |s| > 0 {
      ShuffleDownPermutes(s, draws, |s| - 1);
    }
  }

  /** Drawing j = i at every step swaps nothing. */
  lemma {:induction false} NoSwapDraws<T>(s: seq<T>, draws: seq<nat>, i: nat)
    requires ShuffleDraws(draws, |s|) && (i < |s| || i == 0)
    requires forall k :: 0 <= k < |s| ==> draws[k] == k
    ensures ShuffleDown(s, draws, i) == s
    decreases i
  {
    if i > 0 {
      SwapSelf(s, i);
      NoSwapDraws(s, draws, i - 1);
    }
  }

  /**
   * random.shuffle: for i from the last position down to 1, swap position i with the
   * drawn position j in [0, i].
   */
  method Shuffle<T>(s: seq<T>, draws: seq<nat>) returns (r: seq<T>)
    requires ShuffleDraws(draws, |s|)
    ensures r == Shuffled(s, draws)
    ensures |r| == |s| && multiset(r) == multiset(s)
  {
    r := s;
    if |s| == 0 {
      return;
    }
    var i := |s| - 1;
    while i > 0
      invariant 0 <= i < |s| && |r| == |s|
      invariant ShuffleDown(r, draws, i) == Shuffled(s, draws)
    {
      r := Swap(r, i, draws[i]);
      i := i - 1;
    }
    ShuffledPermutes(s, draws);
  }
}
