/**
 * The Monte-Carlo helpers of the call estimator (probab.py). The randomness is supplied by
 * the caller: random_gen as an oracle, random.shuffle as its draws, and the outcome of every
 * trial get_prob runs as a function of its batch and trial number.
 */
module Probab {
  import opened Errors
  import Randomness
  import opened Arith

  // ---------------------------------------------------------------------------
  // Sums and the min/max folds

  function Sum(s: seq<int>): int {
    if s == [] then 0 else s[0] + Sum(s[1..])
  }

  lemma {:induction false} SumConcat(a: seq<int>, b: seq<int>)
    ensures Sum(a + b) == Sum(a) + Sum(b)
  {
    if a == [] {
      assert a + b == b;
    } else {
      assert (a + b)[1..] == a[1..] + b;
      SumConcat(a[1..], b);
    }
  }

  /** A list whose every entry is at least m sums to at least m per entry. */
  lemma {:induction false} SumAtLeast(s: seq<int>, m: int)
    requires forall x :: x in s ==> x >= m
    ensures Sum(s) >= m * |s|
  {
    if s != [] {
      assert s[0] in s;
      assert forall x :: x in s[1..] ==> x in s;
      SumAtLeast(s[1..], m);
      MulSucc(|s| - 1, m);
      assert m * |s| == m * (|s| - 1) + m;
    }
  }

  /** Every entry is a 0 or a 1, as in the token list. */
  predicate Bits(s: seq<int>) {
    forall i :: 0 <= i < |s| ==> s[i] == 0 || s[i] == 1
  }

  /** The sum of a 0/1 list counts its ones, so it only depends on the multiset. */
  lemma {:induction false} SumBits(s: seq<int>)
    requires Bits(s)
    ensures Sum(s) == multiset(s)[1] && 0 <= Sum(s) <= |s|
  {
    if s != [] {
      assert s == [s[0]] + s[1..];
      assert multiset(s) == multiset{s[0]} + multiset(s[1..]);
      SumBits(s[1..]);
    }
  }

  /** Python's min() of a list of integers (ties are equal values, so the fold order is immaterial). */
  function MinOf(s: seq<int>): (m: int)
    requires s != []
    ensures m in s && forall x :: x in s ==> m <= x
  {
    if |s| == 1 then s[0]
    else
      var m := MinOf(s[1..]);
      assert s == [s[0]] + s[1..];
      if s[0] < m then s[0] else m
  }

  /** Python's max() of a list of integers. */
  function MaxOf(s: seq<int>): (m: int)
    requires s != []
    ensures m in s && forall x :: x in s ==> x <= m
  {
    if |s| == 1 then s[0]
    else
      var m := MaxOf(s[1..]);
      assert s == [s[0]] + s[1..];
      if s[0] > m then s[0] else m
  }

  /** contains_min: every player holds at least `count`; min() of an empty list raises. */
  function ContainsMin(dist: seq<int>, count: int): (r: Result<bool>)
    ensures r.Err? <==> dist == []
    ensures r.Err? ==> r.error == EmptySequence
    ensures r.Ok? ==> (r.value <==> forall x :: x in dist ==> x >= count)
  {
    if dist == [] then Err(EmptySequence) else Ok(MinOf(dist) >= count)
  }

  /** contains_max: some player holds at least `count`; max() of an empty list raises. */
  function ContainsMax(dist: seq<int>, count: int): (r: Result<bool>)
    ensures r.Err? <==> dist == []
    ensures r.Err? ==> r.error == EmptySequence
    ensures r.Ok? ==> (r.value <==> exists x :: x in dist && x >= count)
  {
    if dist == [] then Err(EmptySequence) else Ok(MaxOf(dist) >= count)
  }

  // ---------------------------------------------------------------------------
  // get_prob

  /** The passing trials among trials 0 .. n-1 of batch j (True counts 1 in sum()). */
  function Passes(trial: (nat, nat) -> bool, j: nat, n: nat): (r: nat)
    ensures r <= n
  {
    if n == 0 then 0 else Passes(trial, j, n - 1) + if trial(j, n - 1) then 1 else 0
  }

  /** The fraction of batch j's trials that pass. */
  function Ratio(trial: (nat, nat) -> bool, j: nat, repeat: nat): (r: real)
    requires repeat > 0
    ensures 0.0 <= r <= 1.0
  {
    Passes(trial, j, repeat) as real / repeat as real
  }

  /** Batch j's score as get_prob writes it: passes / repeat * 100. */
  function Score(trial: (nat, nat) -> bool, j: nat, repeat: nat): (r: real)
    requires repeat > 0
    ensures r / 100.0 == Ratio(trial, j, repeat)
  {
    Ratio(trial, j, repeat) * 100.0
  }

  /** min() over the scores of batches 0 .. count-1, folded left on strict <. */
  function MinScore(trial: (nat, nat) -> bool, repeat: nat, count: nat): (m: real)
    requires repeat > 0 && count > 0
    ensures exists j :: 0 <= j < count && m == Score(trial, j, repeat)
    ensures forall j :: 0 <= j < count ==> m <= Score(trial, j, repeat)
  {
    if count == 1 then Score(trial, 0, repeat)
    else
      var m := MinScore(trial, repeat, count - 1);
      var s := Score(trial, count - 1, repeat);
      if s < m then s else m
  }

  /**
   * get_prob: the smallest, over `count` batches of `repeat` trials, of the fraction of
   * passing trials. No batch is an empty min() and raises; zero trials divide by zero; a
   * negative `repeat` runs no trial and scores 0.
   */
  function GetProb(trial: (nat, nat) -> bool, repeat: int, count: int): (r: Result<real>)
    ensures count <= 0 ==> r == Err(EmptySequence)
    ensures count > 0 && repeat == 0 ==> r == Err(ZeroDivision)
    ensures count > 0 && repeat < 0 ==> r == Ok(0.0)
    ensures count > 0 && repeat > 0 ==> r.Ok?
  {
    if count <= 0 then Err(EmptySequence)
    else if repeat == 0 then Err(ZeroDivision)
    else if repeat < 0 then Ok(0.0)
    else Ok(MinScore(trial, repeat, count) / 100.0)
  }

  /**
   * With trials to run, get_prob is the ratio of the worst batch: it is some batch's ratio,
   * no batch's ratio is lower, and so it lies in [0, 1].
   */
  lemma GetProbIsWorstBatch(trial: (nat, nat) -> bool, repeat: nat, count: nat)
    requires repeat > 0 && count > 0
    ensures exists j :: 0 <= j < count && GetProb(trial, repeat, count) == Ok(Ratio(trial, j, repeat))
    ensures forall j :: 0 <= j < count ==> GetProb(trial, repeat, count).value <= Ratio(trial, j, repeat)
    ensures 0.0 <= GetProb(trial, repeat, count).value <= 1.0
  {
    var m := MinScore(trial, repeat, count);
    var j :| 0 <= j < count && m == Score(trial, j, repeat);
    assert GetProb(trial, repeat, count) == Ok(Ratio(trial, j, repeat));
    forall i | 0 <= i < count ensures m / 100.0 <= Ratio(trial, i, repeat) {
      assert m <= Score(trial, i, repeat);
    }
  }

  /** No trial of batch j among the first n passes. */
  predicate AllFail(trial: (nat, nat) -> bool, j: nat, n: nat) {
    forall i :: 0 <= i < n ==> !trial(j, i)
  }

  /** A batch in which no trial passes makes the probability 0. */
  lemma GetProbNone(trial: (nat, nat) -> bool, repeat: nat, count: nat, j: nat)
    requires repeat > 0 && j < count && AllFail(trial, j, repeat)
    ensures GetProb(trial, repeat, count) == Ok(0.0)
  {
    GetProbIsWorstBatch(trial, repeat, count);
    NoPasses(trial, j, repeat);
    assert Ratio(trial, j, repeat) == 0.0;
  }

  /** Every trial of every batch passing makes the probability 1. */
  lemma GetProbAll(trial: (nat, nat) -> bool, repeat: nat, count: nat)
    requires repeat > 0 && count > 0
    requires forall j, i :: 0 <= j < count && 0 <= i < repeat ==> trial(j, i)
    ensures GetProb(trial, repeat, count) == Ok(1.0)
  {
    GetProbIsWorstBatch(trial, repeat, count);
    var j :| 0 <= j < count && GetProb(trial, repeat, count) == Ok(Ratio(trial, j, repeat));
    AllPass(trial, j, repeat);
    DivSelf(repeat as real);
  }

  lemma DivSelf(x: real)
    requires x > 0.0
    ensures x / x == 1.0
  {
  }

  lemma {:induction false} NoPasses(trial: (nat, nat) -> bool, j: nat, n: nat)
    requires AllFail(trial, j, n)
    ensures Passes(trial, j, n) == 0
  {
    if n > 0 {
      NoPasses(trial, j, n - 1);
    }
  }

  lemma {:induction false} AllPass(trial: (nat, nat) -> bool, j: nat, n: nat)
    requires forall i :: 0 <= i < n ==> trial(j, i)
    ensures Passes(trial, j, n) == n
  {
    if n > 0 {
      AllPass(trial, j, n - 1);
    }
  }

  // ---------------------------------------------------------------------------
  // get_heart_distribution

  /** [v] * n as Python builds it: empty when n is not positive. */
  function Repeat(v: int, n: int): (r: seq<int>)
    ensures |r| == if n <= 0 then 0 else n
    ensures forall i :: 0 <= i < |r| ==> r[i] == v
  {
    if n <= 0 then [] else [v] + Repeat(v, n - 1)
  }

  /** The token list: a 1 for each card of the suit still out, then a 0 for each other card. */
  function Tokens(cardsCount: int, playersCount: int): seq<int> {
    Repeat(1, cardsCount) + Repeat(0, cardsCount * (playersCount - 1))
  }

  /** The token list has cardsCount * playersCount entries, exactly cardsCount of them ones. */
  lemma TokensShape(cardsCount: nat, playersCount: nat)
    requires playersCount >= 1
    ensures |Tokens(cardsCount, playersCount)| == cardsCount * playersCount
    ensures Bits(Tokens(cardsCount, playersCount))
    ensures multiset(Tokens(cardsCount, playersCount))[1] == cardsCount
  {
    var z := cardsCount * (playersCount - 1);
    assert z >= 0 && z + cardsCount == cardsCount * playersCount by {
      MulMono(0, playersCount - 1, cardsCount);
      assert cardsCount * (playersCount - 1) == (playersCount - 1) * cardsCount;
      MulSucc(playersCount - 1, cardsCount);
    }
    var ones, zeros := Repeat(1, cardsCount), Repeat(0, z);
    assert Tokens(cardsCount, playersCount) == ones + zeros;
    assert multiset(ones + zeros) == multiset(ones) + multiset(zeros);
    assert multiset(ones)[1] == cardsCount by { SumBits(ones); OnesSum(cardsCount); }
    assert multiset(zeros)[1] == 0 by { SumBits(zeros); ZerosSum(z); }
  }

  lemma {:induction false} OnesSum(n: nat)
    ensures Sum(Repeat(1, n)) == n
  {
    if n > 0 {
      assert Repeat(1, n)[1..] == Repeat(1, n - 1);
      OnesSum(n - 1);
    }
  }

  lemma {:induction false} ZerosSum(n: int)
    ensures Sum(Repeat(0, n)) == 0
  {
    if n > 0 {
      assert Repeat(0, n)[1..] == Repeat(0, n - 1);
      ZerosSum(n - 1);
    }
  }

  /** A Python slice s[a:b]: negative indices count from the end, and both ends are clamped. */
  function Slice(s: seq<int>, a: int, b: int): (r: seq<int>)
    ensures 0 <= a <= b <= |s| ==> r == s[a..b]
  {
    var lo := if a < 0 then (if a + |s| < 0 then 0 else a + |s|) else (if a > |s| then |s| else a);
    var hi := if b < 0 then (if b + |s| < 0 then 0 else b + |s|) else (if b > |s| then |s| else b);
    if lo < hi then s[lo..hi] else []
  }

  /** Player i's share: the sum of the slice from i * cardsCount to (i + 1) * cardsCount. */
  function Share(cards: seq<int>, cardsCount: int, i: int): int {
    Sum(Slice(cards, i * cardsCount, (i + 1) * cardsCount))
  }

  /** The per-player sums, one per player. */
  function Shares(cards: seq<int>, cardsCount: int, playersCount: int): (r: seq<int>)
    ensures |r| == if playersCount <= 0 then 0 else playersCount
    ensures forall i :: 0 <= i < |r| ==> r[i] == Share(cards, cardsCount, i)
  {
    var n := if playersCount <= 0 then 0 else playersCount;
    seq(n, i requires 0 <= i < n => Share(cards, cardsCount, i))
  }

  /** With c * p cards, player i < p gets the c cards from i * c on. */
  lemma ShareAt(cards: seq<int>, c: nat, p: nat, i: nat)
    requires |cards| == c * p && i < p
    ensures 0 <= i * c && i * c + c <= |cards| && Share(cards, c, i) == Sum(cards[i * c..i * c + c])
  {
    MulSucc(i, c);
    MulMono(i + 1, p, c);
    MulComm(p, c);
  }

  /** get_heart_distribution under the given shuffle draws. */
  function HeartDistribution(cardsCount: int, playersCount: int, draws: seq<nat>): seq<int>
    requires Randomness.ShuffleDraws(draws, |Tokens(cardsCount, playersCount)|)
  {
    Shares(Randomness.Shuffled(Tokens(cardsCount, playersCount), draws), cardsCount, playersCount)
  }

  /**
   * get_heart_distribution: the tokens are shuffled in place, cut into one slice of
   * cardsCount tokens per player, and each slice summed.
   */
  method GetHeartDistribution(cardsCount: int, playersCount: int, draws: seq<nat>) returns (dist: seq<int>)
    requires Randomness.ShuffleDraws(draws, |Tokens(cardsCount, playersCount)|)
    ensures dist == HeartDistribution(cardsCount, playersCount, draws)
    ensures |dist| == if playersCount <= 0 then 0 else playersCount
  {
    var cards := Tokens(cardsCount, playersCount);
    cards := Randomness.Shuffle(cards, draws);
    dist := Shares(cards, cardsCount, playersCount);
  }

  /** Summing a prefix in two parts. */
  lemma SumSplit(s: seq<int>, a: nat, b: nat)
    requires a <= b <= |s|
    ensures Sum(s[..b]) == Sum(s[..a]) + Sum(s[a..b])
  {
    assert s[..b] == s[..a] + s[a..b];
    SumConcat(s[..a], s[a..b]);
  }

  /** The slices of the first k players cover the first k * c cards. */
  lemma {:induction false} SharesPrefix(cards: seq<int>, c: nat, p: nat, k: nat)
    requires p >= 1 && |cards| == c * p && k <= p
    ensures k * c <= |cards| && Sum(Shares(cards, c, p)[..k]) == Sum(cards[..k * c])
  {
    MulMono(k, p, c);
    MulComm(p, c);
    if k > 0 {
      SharesPrefix(cards, c, p, k - 1);
      ShareAt(cards, c, p, k - 1);
      MulSucc(k - 1, c);
      SumStep(Shares(cards, c, p), cards, k, (k - 1) * c, c);
    }
  }

  /** One more share adds its slice of the cards to the sum. */
  lemma SumStep(r: seq<int>, cards: seq<int>, k: nat, a: nat, c: nat)
    requires 0 < k <= |r| && a + c <= |cards|
    requires r[k - 1] == Sum(cards[a..a + c]) && Sum(r[..k - 1]) == Sum(cards[..a])
    ensures Sum(r[..k]) == Sum(cards[..a + c])
  {
    SumSplit(r, k - 1, k);
    assert r[k - 1..k] == [r[k - 1]];
    SumSplit(cards, a, a + c);
  }

  /**
   * For any arrangement of the token list, every player gets between 0 and cardsCount of
   * the suit's cards, and together they get all of them.
   */
  lemma SharesOfTokens(cards: seq<int>, cardsCount: nat, playersCount: nat)
    requires playersCount >= 1 && multiset(cards) == multiset(Tokens(cardsCount, playersCount))
    ensures |Shares(cards, cardsCount, playersCount)| == playersCount
    ensures forall i :: 0 <= i < playersCount ==> 0 <= Shares(cards, cardsCount, playersCount)[i] <= cardsCount
    ensures Sum(Shares(cards, cardsCount, playersCount)) == cardsCount
  {
    TokensPermuted(cards, cardsCount, playersCount);
    var r := Shares(cards, cardsCount, playersCount);
    forall i | 0 <= i < playersCount ensures 0 <= r[i] <= cardsCount {
      ShareBounds(cards, cardsCount, playersCount, i);
    }
    SharesSum(cards, cardsCount, playersCount);
    SumBits(cards);
  }

  /** An arrangement of the token list has its length, its 0/1 entries and its ones. */
  lemma TokensPermuted(cards: seq<int>, cardsCount: nat, playersCount: nat)
    requires playersCount >= 1 && multiset(cards) == multiset(Tokens(cardsCount, playersCount))
    ensures |cards| == cardsCount * playersCount && Bits(cards) && multiset(cards)[1] == cardsCount
  {
    var t := Tokens(cardsCount, playersCount);
    TokensShape(cardsCount, playersCount);
    assert |multiset(cards)| == |multiset(t)|;
    BitsPermuted(cards, t);
  }

  /** The shares of c * p cards add up to all of them. */
  lemma SharesSum(cards: seq<int>, c: nat, p: nat)
    requires p >= 1 && |cards| == c * p
    ensures Sum(Shares(cards, c, p)) == Sum(cards)
  {
    SharesPrefix(cards, c, p, p);
    assert Shares(cards, c, p)[..p] == Shares(cards, c, p);
    assert p * c == |cards|;
    assert cards[..p * c] == cards;
  }

  /** A rearrangement of a 0/1 list is a 0/1 list. */
  lemma BitsPermuted(a: seq<int>, b: seq<int>)
    requires Bits(b) && multiset(a) == multiset(b)
    ensures Bits(a)
  {
    forall i | 0 <= i < |a| ensures a[i] == 0 || a[i] == 1 {
      assert a[i] in multiset(b);
      var k :| 0 <= k < |b| && b[k] == a[i];
    }
  }

  /** A share of a 0/1 list of c * p cards lies between 0 and c. */
  lemma ShareBounds(cards: seq<int>, c: nat, p: nat, i: nat)
    requires Bits(cards) && |cards| == c * p && i < p
    ensures 0 <= Share(cards, c, i) <= c
  {
    ShareAt(cards, c, p, i);
    var piece := cards[i * c..i * c + c];
    assert Bits(piece) by {
      forall m | 0 <= m < |piece| ensures piece[m] == 0 || piece[m] == 1 {
        assert piece[m] == cards[i * c + m];
      }
    }
    SumBits(piece);
  }

  /** get_heart_distribution hands out exactly the cards still out, 0 to cardsCount each. */
  lemma HeartDistributionShape(cardsCount: nat, playersCount: nat, draws: seq<nat>)
    requires playersCount >= 1 && Randomness.ShuffleDraws(draws, |Tokens(cardsCount, playersCount)|)
    ensures |HeartDistribution(cardsCount, playersCount, draws)| == playersCount
    ensures forall i :: 0 <= i < playersCount ==> 0 <= HeartDistribution(cardsCount, playersCount, draws)[i] <= cardsCount
    ensures Sum(HeartDistribution(cardsCount, playersCount, draws)) == cardsCount
  {
    var t := Tokens(cardsCount, playersCount);
    Randomness.ShuffledPermutes(t, draws);
    SharesOfTokens(Randomness.Shuffled(t, draws), cardsCount, playersCount);
  }

  /** With no card of the suit out, every player gets none. */
  lemma HeartDistributionNone(playersCount: int, draws: seq<nat>)
    requires Randomness.ShuffleDraws(draws, |Tokens(0, playersCount)|)
    ensures forall i :: 0 <= i < |HeartDistribution(0, playersCount, draws)| ==> HeartDistribution(0, playersCount, draws)[i] == 0
  {
    assert Tokens(0, playersCount) == [];
    var cards := Randomness.Shuffled(Tokens(0, playersCount), draws);
    assert cards == [];
    forall i | 0 <= i < |Shares(cards, 0, playersCount)| ensures Shares(cards, 0, playersCount)[i] == 0 {
      assert Slice(cards, i * 0, (i + 1) * 0) == [];
    }
  }

  // ---------------------------------------------------------------------------
  // get_spade_distribution

  /** Python 2's round(), then int(): to the nearest integer, halves away from zero. */
  function Normalize(f: real): int {
    if f >= 0.0 then (f + 0.5).Floor else -((0.5 - f).Floor)
  }

  /** Rounding moves a draw by at most a half, and a half always away from zero. */
  lemma NormalizeNearest(f: real)
    ensures -0.5 <= f - Normalize(f) as real <= 0.5
    ensures f - Normalize(f) as real == 0.5 ==> f < 0.0
    ensures f - Normalize(f) as real == -0.5 ==> f > 0.0
  {
  }

  /** A whole number is its own rounding. */
  lemma NormalizeWhole(n: int)
    ensures Normalize(n as real) == n
  {
  }

  /** A draw between two whole numbers rounds to a whole number between them. */
  lemma NormalizeBetween(f: real, lo: int, hi: int)
    requires lo as real <= f <= hi as real
    ensures lo <= Normalize(f) <= hi
  {
    NormalizeNearest(f);
  }

  /**
   * The third argument _extra passes to random_gen, kept as an exact fraction: the cards
   * still to deal over the players still to draw.
   */
  datatype Mode = Mode(cards: int, players: int) {
    /** The value random_gen receives (true division). */
    function Value(): real
      requires players != 0
    {
      cards as real / players as real
    }
  }

  /**
   * random_gen: its k-th call, with the upper bound of the draw and, with _extra, the even
   * share of the remaining cards (the lower bound is always 0).
   */
  type Oracle = (nat, int, Option<Mode>) -> real

  /** The hint _extra adds on pass i: the remaining cards over the players still to draw. */
  function Hint(remaining: int, playersCount: int, i: nat, extra: bool): (r: Option<Mode>)
    requires i < playersCount
    ensures r.Some? <==> extra
    ensures r.Some? ==> r.value.cards == remaining && r.value.players > 0
  {
    if extra then Some(Mode(remaining, playersCount - i)) else None
  }

  /**
   * Passes i .. playersCount-2 of the loop, then the append of what remains. A pass with no
   * card remaining takes 0 (the `and` short-circuits) and does not call the oracle.
   */
  function SpadeCounts(remaining: int, playersCount: int, i: nat, calls: nat, gen: Oracle, extra: bool): seq<int>
    decreases playersCount - i
  {
    if i + 1 >= playersCount then [remaining]
    else if remaining == 0 then [0] + SpadeCounts(remaining, playersCount, i + 1, calls, gen, extra)
    else
      var c := Normalize(gen(calls, remaining, Hint(remaining, playersCount, i, extra)));
      [c] + SpadeCounts(remaining - c, playersCount, i + 1, calls + 1, gen, extra)
  }

  /** get_spade_distribution under the oracle `gen`. */
  function SpadeDistribution(cardsCount: int, playersCount: int, gen: Oracle, extra: bool): seq<int> {
    SpadeCounts(cardsCount, playersCount, 0, 0, gen, extra)
  }

  /**
   * get_spade_distribution: each player but the last takes a rounded draw between 0 and the
   * cards left (nothing when none are left), and the last player takes the rest.
   */
  method GetSpadeDistribution(cardsCount: int, playersCount: int, gen: Oracle, extra: bool) returns (counts: seq<int>)
    ensures counts == SpadeDistribution(cardsCount, playersCount, gen, extra)
  {
    counts := [];
    var remaining := cardsCount;
    var calls: nat := 0;
    var i: nat := 0;
    while i + 1 < playersCount
      invariant counts + SpadeCounts(remaining, playersCount, i, calls, gen, extra) ==
                SpadeDistribution(cardsCount, playersCount, gen, extra)
      decreases playersCount - i
    {
      var hint := Hint(remaining, playersCount, i, extra);
      var taken, next;
      if remaining == 0 {
        taken, next := 0, calls;
      } else {
        var drawn := gen(calls, remaining, hint);
        taken, next := Normalize(drawn), calls + 1;
      }
      SpadeCountsStep(remaining, playersCount, i, calls, gen, extra, counts, taken, next);
      counts := counts + [taken];
      remaining, calls, i := remaining - taken, next, i + 1;
    }
    SpadeCountsLast(remaining, playersCount, i, calls, gen, extra);
    counts := counts + [remaining];
  }

  /** After the loop the last player takes whatever remains. */
  lemma SpadeCountsLast(remaining: int, playersCount: int, i: nat, calls: nat, gen: Oracle, extra: bool)
    requires i + 1 >= playersCount
    ensures SpadeCounts(remaining, playersCount, i, calls, gen, extra) == [remaining]
  {
  }

  /** One pass of the loop: the count it takes goes on the end, and the rest follows from the next pass. */
  lemma SpadeCountsStep(remaining: int, playersCount: int, i: nat, calls: nat, gen: Oracle, extra: bool,
                        counts: seq<int>, taken: int, next: nat)
    requires i + 1 < playersCount
    requires remaining == 0 ==> taken == 0 && next == calls
    requires remaining != 0 ==> taken == Normalize(gen(calls, remaining, Hint(remaining, playersCount, i, extra))) && next == calls + 1
    ensures counts + SpadeCounts(remaining, playersCount, i, calls, gen, extra) ==
            (counts + [taken]) + SpadeCounts(remaining - taken, playersCount, i + 1, next, gen, extra)
  {
    var rest := SpadeCounts(remaining - taken, playersCount, i + 1, next, gen, extra);
    var here := SpadeCounts(remaining, playersCount, i, calls, gen, extra);
    if remaining == 0 {
      assert here == [0] + rest;
    } else {
      assert here == [taken] + rest;
    }
    assert counts + ([taken] + rest) == (counts + [taken]) + rest;
  }

  /** There is one count per player, and one even when there are no players. */
  lemma {:induction false} SpadeCountsLength(remaining: int, playersCount: int, i: nat, calls: nat, gen: Oracle, extra: bool)
    requires i < playersCount || i == 0
    ensures |SpadeCounts(remaining, playersCount, i, calls, gen, extra)| == if playersCount <= 1 then 1 else playersCount - i
    decreases playersCount - i
  {
    if i + 1 < playersCount {
      var c := if remaining == 0 then 0 else Normalize(gen(calls, remaining, Hint(remaining, playersCount, i, extra)));
      SpadeCountsLength(remaining - c, playersCount, i + 1, if remaining == 0 then calls else calls + 1, gen, extra);
    }
  }

  /** The counts always add up to the cards dealt, whatever the oracle draws. */
  lemma {:induction false} SpadeCountsSum(remaining: int, playersCount: int, i: nat, calls: nat, gen: Oracle, extra: bool)
    ensures Sum(SpadeCounts(remaining, playersCount, i, calls, gen, extra)) == remaining
    decreases playersCount - i
  {
    if i + 1 < playersCount {
      var c := if remaining == 0 then 0 else Normalize(gen(calls, remaining, Hint(remaining, playersCount, i, extra)));
      var rest := SpadeCounts(remaining - c, playersCount, i + 1, if remaining == 0 then calls else calls + 1, gen, extra);
      SpadeCountsSum(remaining - c, playersCount, i + 1, if remaining == 0 then calls else calls + 1, gen, extra);
      assert ([c] + rest)[1..] == rest;
    }
  }

  /** The oracle draws, once rounded, lie between 0 and the cards left. */
  ghost predicate DrawsInRange(gen: Oracle) {
    forall k: nat, hi: int, hint: Option<Mode> :: hi > 0 ==> 0 <= Normalize(gen(k, hi, hint)) <= hi
  }

  /** An oracle whose draws lie in [0, hi] (random.triangular(0, hi), say) meets DrawsInRange. */
  lemma DrawsInRangeFromBounds(gen: Oracle)
    requires forall k: nat, hi: int, hint: Option<Mode> :: hi > 0 ==> 0.0 <= gen(k, hi, hint) <= hi as real
    ensures DrawsInRange(gen)
  {
    forall k: nat, hi: int, hint: Option<Mode> | hi > 0 ensures 0 <= Normalize(gen(k, hi, hint)) <= hi {
      NormalizeBetween(gen(k, hi, hint), 0, hi);
    }
  }

  /** With draws in range, no count is negative or above the cards left. */
  lemma {:induction false} SpadeCountsBounds(remaining: int, playersCount: int, i: nat, calls: nat, gen: Oracle, extra: bool)
    requires remaining >= 0 && DrawsInRange(gen)
    ensures forall x :: x in SpadeCounts(remaining, playersCount, i, calls, gen, extra) ==> 0 <= x <= remaining
    decreases playersCount - i
  {
    if i + 1 < playersCount {
      var c := if remaining == 0 then 0 else Normalize(gen(calls, remaining, Hint(remaining, playersCount, i, extra)));
      SpadeCountsBounds(remaining - c, playersCount, i + 1, if remaining == 0 then calls else calls + 1, gen, extra);
    }
  }

  /** The oracle is never asked for a draw with no card left: oracles that differ only there agree. */
  lemma {:induction false} SpadeCountsIgnoreEmpty(remaining: int, playersCount: int, i: nat, calls: nat,
                                                  gen: Oracle, gen': Oracle, extra: bool)
    requires forall k: nat, hi: int, hint: Option<Mode> :: hi != 0 ==> gen(k, hi, hint) == gen'(k, hi, hint)
    ensures SpadeCounts(remaining, playersCount, i, calls, gen, extra) == SpadeCounts(remaining, playersCount, i, calls, gen', extra)
    decreases playersCount - i
  {
    if i + 1 < playersCount {
      var c := if remaining == 0 then 0 else Normalize(gen(calls, remaining, Hint(remaining, playersCount, i, extra)));
      SpadeCountsIgnoreEmpty(remaining - c, playersCount, i + 1, if remaining == 0 then calls else calls + 1, gen, gen', extra);
    }
  }

  /** Once no card is left, every later player gets 0. */
  lemma {:induction false} SpadeCountsNone(playersCount: int, i: nat, calls: nat, gen: Oracle, extra: bool)
    ensures forall x :: x in SpadeCounts(0, playersCount, i, calls, gen, extra) ==> x == 0
    decreases playersCount - i
  {
    if i + 1 < playersCount {
      SpadeCountsNone(playersCount, i + 1, calls, gen, extra);
    }
  }

  /**
   * get_spade_distribution hands out every card, one count per player (one even with no
   * players); with draws in range every count lies in [0, cardsCount].
   */
  lemma SpadeDistributionShape(cardsCount: int, playersCount: int, gen: Oracle, extra: bool)
    ensures |SpadeDistribution(cardsCount, playersCount, gen, extra)| == if playersCount <= 1 then 1 else playersCount
    ensures Sum(SpadeDistribution(cardsCount, playersCount, gen, extra)) == cardsCount
    ensures cardsCount >= 0 && DrawsInRange(gen) ==>
      forall x :: x in SpadeDistribution(cardsCount, playersCount, gen, extra) ==> 0 <= x <= cardsCount
  {
    SpadeCountsLength(cardsCount, playersCount, 0, 0, gen, extra);
    SpadeCountsSum(cardsCount, playersCount, 0, 0, gen, extra);
    if cardsCount >= 0 && DrawsInRange(gen) {
      SpadeCountsBounds(cardsCount, playersCount, 0, 0, gen, extra);
    }
  }
}
