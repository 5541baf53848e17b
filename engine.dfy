/**
 * The card engine of callbreak_card.py: cards and their ordering, a player's hand and
 * the legal-move rule, the bot policy and one trick (GameTurn).
 */
module Engine {
  import opened Errors
  import opened Cards
  import opened Arith

  // ===========================================================================
  // Cards

  /** A card object; `owner` and `index` are the annotations written when it is dealt. */
  class Card {
    const face: Face
    const suit: Suit
    var owner: Player?
    var index: Option<nat>

    constructor (face: Face, suit: Suit)
      ensures this.face == face && this.suit == suit
      ensures owner == null && index == None
    {
      this.face := face;
      this.suit := suit;
      owner := null;
      index := None;
    }
  }

  predicate IsSpade(c: Card) {
    c.suit == Spade
  }

  /** Card.__lt__: by face within a suit, by suit rank across suits. */
  predicate Less(a: Card, b: Card) {
    if a.suit.name == b.suit.name then a.face.value < b.face.value
    else a.suit.value < b.suit.value
  }

  /** The four rules the ordering gives on dealt cards. */
  lemma CardOrder(a: Card, b: Card)
    ensures a.suit == b.suit ==> (Less(a, b) <==> a.face.value < b.face.value)
    ensures a.suit != b.suit ==> (Less(a, b) <==> a.suit.value < b.suit.value)
    ensures IsSpade(b) && !IsSpade(a) ==> Less(a, b) && !Less(b, a)
    ensures !IsSpade(a) && !IsSpade(b) && a.suit != b.suit ==> !Less(a, b) && !Less(b, a)
  {
    SuitsTable();
    SuitIdentity(a.suit, b.suit);
  }

  /** On dealt cards the ordering is a strict partial order (not a total one). */
  lemma LessStrictOrder(a: Card, b: Card, c: Card)
    ensures !Less(a, a)
    ensures Less(a, b) ==> !Less(b, a)
    ensures Less(a, b) && Less(b, c) ==> Less(a, c)
  {
    SuitsTable();
    SuitIdentity(a.suit, b.suit);
    SuitIdentity(b.suit, c.suit);
    SuitIdentity(a.suit, c.suit);
  }

  /** Python's max(): a left fold that moves to a later card only when it is strictly greater. */
  function MaxCard(s: seq<Card>): (m: Card)
    requires |s| > 0
    ensures m in s
  {
    if |s| == 1 then s[0]
    else
      var m := MaxCard(s[..|s| - 1]);
      if Less(m, s[|s| - 1]) then s[|s| - 1] else m
  }

  /** Python's min(): a left fold that moves to a later card only when it is strictly smaller. */
  function MinCard(s: seq<Card>): (m: Card)
    requires |s| > 0
    ensures m in s
  {
    if |s| == 1 then s[0]
    else
      var m := MinCard(s[..|s| - 1]);
      if Less(s[|s| - 1], m) then s[|s| - 1] else m
  }

  /** Playing one more card: max() moves to it exactly when it is strictly greater. */
  lemma MaxCardSnoc(p: seq<Card>, x: Card)
    requires |p| > 0
    ensures MaxCard(p + [x]) == if Less(MaxCard(p), x) then x else MaxCard(p)
  {
    assert (p + [x])[..|p|] == p;
  }

  /** No card of the sequence is greater than the fold's result. */
  lemma {:induction false} MaxCardMaximal(s: seq<Card>)
    requires |s| > 0
    ensures forall x :: x in s ==> !Less(MaxCard(s), x)
  {
    if |s| > 1 {
      var p := s[..|s| - 1];
      var last := s[|s| - 1];
      assert forall x :: x in s ==> x in p || x == last;
      MaxCardMaximal(p);
      var m := MaxCard(p);
      forall x | x in s ensures !Less(MaxCard(s), x) {
        LessStrictOrder(m, last, x);
        LessStrictOrder(x, x, x);
        if x in p { LessStrictOrder(last, x, x); }
      }
    }
  }

  /** No card of the sequence is smaller than the fold's result. */
  lemma {:induction false} MinCardMinimal(s: seq<Card>)
    requires |s| > 0
    ensures forall x :: x in s ==> !Less(x, MinCard(s))
  {
    if |s| > 1 {
      var p := s[..|s| - 1];
      var last := s[|s| - 1];
      assert forall x :: x in s ==> x in p || x == last;
      MinCardMinimal(p);
      var m := MinCard(p);
      forall x | x in s ensures !Less(x, MinCard(s)) {
        LessStrictOrder(x, last, m);
        LessStrictOrder(x, x, x);
        if x in p { LessStrictOrder(x, x, last); }
      }
    }
  }

  predicate HasSpade(s: seq<Card>) {
    exists c :: c in s && IsSpade(c)
  }

  /**
   * What it means for m to win the trick s led by s[0]: the highest spade when a spade was
   * played, otherwise the highest card of the led suit.
   */
  predicate WinsTrick(s: seq<Card>, m: Card)
    requires |s| > 0
  {
    if HasSpade(s) then
      IsSpade(m) && forall c :: c in s && IsSpade(c) ==> c.face.value <= m.face.value
    else
      m.suit == s[0].suit && forall c :: c in s && c.suit == s[0].suit ==> c.face.value <= m.face.value
  }

  /** One step of the max() fold keeps the trick's winner. */
  lemma WinsTrickStep(p: seq<Card>, m: Card, x: Card)
    requires |p| > 0 && WinsTrick(p, m)
    ensures WinsTrick(p + [x], if Less(m, x) then x else m)
  {
    SuitsTable();
    var s := p + [x];
    assert s[0] == p[0];
    assert forall c :: c in s ==> c in p || c == x;
    assert HasSpade(s) <==> HasSpade(p) || IsSpade(x);
    CardOrder(m, x);
    if !HasSpade(p) {
      CardOrder(p[0], x);
      SuitIdentity(p[0].suit, x.suit);
    }
  }

  /** The winner of a trick whose first card fixes the led suit is what max() returns. */
  lemma {:induction false} TrickWinner(s: seq<Card>)
    requires |s| > 0
    ensures WinsTrick(s, MaxCard(s))
  {
    if |s| == 1 {
      assert forall c :: c in s ==> c == s[0];
    } else {
      var p := s[..|s| - 1];
      assert s == p + [s[|s| - 1]];
      TrickWinner(p);
      WinsTrickStep(p, MaxCard(p), s[|s| - 1]);
    }
  }

  // ===========================================================================
  // Hands: four buckets indexed by suit order (spade, heart, club, diamond)

  /** Player.all_cards: the buckets concatenated. */
  function Flatten(h: seq<seq<Card>>): seq<Card> {
    if h == [] then [] else h[0] + Flatten(h[1..])
  }

  /** A card is in the hand exactly when it is in one of its buckets. */
  lemma {:induction false} InFlatten(h: seq<seq<Card>>, c: Card)
    ensures c in Flatten(h) <==> exists b :: 0 <= b < |h| && c in h[b]
  {
    if h != [] {
      InFlatten(h[1..], c);
      assert forall b :: 1 <= b < |h| ==> h[b] == h[1..][b - 1];
    }
  }

  function TotalSize(h: seq<seq<Card>>): nat {
    if h == [] then 0 else |h[0]| + TotalSize(h[1..])
  }

  lemma {:induction false} FlattenSize(h: seq<seq<Card>>)
    ensures |Flatten(h)| == TotalSize(h)
  {
    if h != [] { FlattenSize(h[1..]); }
  }

  /** Replacing one bucket changes the concatenation by exactly that bucket's difference. */
  lemma {:induction false} FlattenUpdate(h: seq<seq<Card>>, b: nat, t: seq<Card>)
    requires b < |h|
    ensures multiset(Flatten(h[b := t])) + multiset(h[b]) == multiset(Flatten(h)) + multiset(t)
    ensures |Flatten(h[b := t])| + |h[b]| == |Flatten(h)| + |t|
  {
    var u := h[b := t];
    if b == 0 {
      assert u[1..] == h[1..];
      assert Flatten(u) == t + Flatten(h[1..]);
      assert Flatten(h) == h[0] + Flatten(h[1..]);
    } else {
      assert u[1..] == h[1..][b - 1 := t];
      assert h[b] == h[1..][b - 1];
      FlattenUpdate(h[1..], b - 1, t);
      assert u[0] == h[0];
      calc {
        multiset(Flatten(u)) + multiset(h[b]);
        multiset(h[0]) + multiset(Flatten(u[1..])) + multiset(h[1..][b - 1]);
        multiset(h[0]) + (multiset(Flatten(h[1..])) + multiset(t));
        multiset(Flatten(h)) + multiset(t);
      }
    }
  }

  /** A hand as Player.cards keeps it: four buckets, bucket b holding dealt cards of suit order b. */
  predicate WellFormed(h: seq<seq<Card>>) {
    |h| == 4 && forall b, c :: 0 <= b < 4 && c in h[b] ==> c.suit.order == b
  }

  lemma InOwnBucket(h: seq<seq<Card>>, c: Card)
    requires WellFormed(h) && c in Flatten(h)
    ensures c in h[c.suit.order]
  {
    InFlatten(h, c);
  }

  lemma BucketsInFlatten(h: seq<seq<Card>>)
    ensures forall b, c :: 0 <= b < |h| && c in h[b] ==> c in Flatten(h)
  {
    forall b, c | 0 <= b < |h| && c in h[b] ensures c in Flatten(h) {
      InFlatten(h, c);
    }
  }

  /** The position of the first occurrence of x. */
  function IndexOf(s: seq<Card>, x: Card): (i: nat)
    requires x in s
    ensures i < |s| && s[i] == x && x !in s[..i]
  {
    if s[0] == x then 0
    else
      var i := IndexOf(s[1..], x) + 1;
      assert s[..i] == [s[0]] + s[1..][..i - 1];
      i
  }

  /** list.remove: drops the first occurrence and keeps the rest in order. */
  function RemoveFirst(s: seq<Card>, x: Card): (r: seq<Card>)
    requires x in s
    ensures multiset(r) == multiset(s) - multiset{x}
    ensures |r| == |s| - 1
    ensures forall y :: y in r ==> y in s
  {
    var i := IndexOf(s, x);
    assert s == s[..i] + [s[i]] + s[i + 1..];
    s[..i] + s[i + 1..]
  }

  /** The hand after Player.play removes card c from its bucket. */
  function RemoveCard(h: seq<seq<Card>>, c: Card): seq<seq<Card>>
    requires c.suit.order < |h| && c in h[c.suit.order]
  {
    h[c.suit.order := RemoveFirst(h[c.suit.order], c)]
  }

  /** Removing a card from one bucket removes exactly that card from the hand. */
  lemma FlattenRemove(h: seq<seq<Card>>, o: nat, c: Card)
    requires o < |h| && c in h[o]
    ensures multiset(Flatten(h[o := RemoveFirst(h[o], c)])) == multiset(Flatten(h)) - multiset{c}
    ensures |Flatten(h[o := RemoveFirst(h[o], c)])| == |Flatten(h)| - 1
  {
    var t := RemoveFirst(h[o], c);
    FlattenUpdate(h, o, t);
    assert multiset(h[o]) == multiset(t) + multiset{c};
    CancelCard(multiset(Flatten(h[o := t])), multiset(Flatten(h)), multiset(t), c);
  }

  /** Multiset cancellation: a + (m + {c}) == f + m leaves a == f - {c}. */
  lemma CancelCard(a: multiset<Card>, f: multiset<Card>, m: multiset<Card>, c: Card)
    requires a + (m + multiset{c}) == f + m
    ensures a == f - multiset{c}
  {
    forall x ensures a[x] == (f - multiset{c})[x] {
      assert (a + (m + multiset{c}))[x] == (f + m)[x];
    }
  }

  /** Playing a card takes exactly that card out of the hand; every other card stays where it was. */
  lemma PlayRemovesCard(h: seq<seq<Card>>, c: Card)
    requires WellFormed(h) && c in Flatten(h)
    ensures c in h[c.suit.order]
    ensures WellFormed(RemoveCard(h, c))
    ensures multiset(Flatten(RemoveCard(h, c))) == multiset(Flatten(h)) - multiset{c}
    ensures |Flatten(RemoveCard(h, c))| == |Flatten(h)| - 1
    ensures forall b :: 0 <= b < 4 && b != c.suit.order ==> RemoveCard(h, c)[b] == h[b]
  {
    InOwnBucket(h, c);
    FlattenRemove(h, c.suit.order, c);
    assert forall x :: x in RemoveCard(h, c)[c.suit.order] ==> x in h[c.suit.order];
  }

  // ===========================================================================
  // The legal-move rule and the bot policy

  /** The cards of cs strictly above `top`, in hand order (filter with c > top). */
  function Above(top: Card, cs: seq<Card>): (r: seq<Card>)
    ensures forall c :: c in r ==> c in cs && Less(top, c)
    ensures forall c :: c in cs && Less(top, c) ==> c in r
  {
    if cs == [] then []
    else
      assert forall c :: c in cs ==> c == cs[0] || c in cs[1..];
      (if Less(top, cs[0]) then [cs[0]] else []) + Above(top, cs[1..])
  }

  /** Player.get_greater_cards: everything when nothing has been played, else the cards above the trick's max. */
  function GreaterCards(played: seq<Card>, cs: seq<Card>): (r: seq<Card>)
    ensures played == [] ==> r == cs
    ensures played != [] ==> forall c :: c in r ==> c in cs && Less(MaxCard(played), c)
    ensures played != [] ==> forall c :: c in cs && Less(MaxCard(played), c) ==> c in r
  {
    if played == [] then cs else Above(MaxCard(played), cs)
  }

  /**
   * Player.get_legal_cards: the cards the player may play, and whether they beat the trick.
   * Leading: the whole hand. Holding the led suit: the led-suit cards that beat the trick,
   * or all led-suit cards. Otherwise the spades that beat the trick, or else the whole hand.
   */
  function LegalCards(h: seq<seq<Card>>, played: seq<Card>, led: Option<Suit>): (r: (seq<Card>, bool))
    requires |h| == 4
    ensures forall c :: c in r.0 ==> c in Flatten(h)
    ensures Flatten(h) != [] ==> r.0 != []
    ensures led.None? ==> r == (Flatten(h), false)
    ensures led.Some? && h[led.value.order] != [] ==> forall c :: c in r.0 ==> c in h[led.value.order]
    ensures r.1 && played != [] ==> forall c :: c in r.0 ==> Less(MaxCard(played), c)
  {
    BucketsInFlatten(h);
    if led.Some? && h[led.value.order] != [] then
      var greater := GreaterCards(played, h[led.value.order]);
      if greater != [] then (greater, true) else (h[led.value.order], false)
    else if led.Some? && h[0] != [] && GreaterCards(played, h[0]) != [] then
      (GreaterCards(played, h[0]), true)
    else
      (Flatten(h), false)
  }

  /** A legal card that does not come with the flag does not beat the trick. */
  lemma LegalCardWithoutFlag(h: seq<seq<Card>>, played: seq<Card>, c: Card)
    requires WellFormed(h) && |played| > 0
    requires var r := LegalCards(h, played, Some(played[0].suit)); c in r.0 && !r.1
    ensures !Less(MaxCard(played), c)
  {
    var led := played[0].suit;
    if h[led.order] == [] {
      assert c in Flatten(h) && (h[0] == [] || GreaterCards(played, h[0]) == []);
      FallThroughNotAbove(h, played, c);
    }
  }

  /**
   * The fall-through of get_legal_cards: a player void in the led suit with no spade above
   * the trick plays a card that does not beat it.
   */
  lemma FallThroughNotAbove(h: seq<seq<Card>>, played: seq<Card>, c: Card)
    requires WellFormed(h) && |played| > 0 && h[played[0].suit.order] == [] && c in Flatten(h)
    requires h[0] == [] || GreaterCards(played, h[0]) == []
    ensures !Less(MaxCard(played), c)
  {
    var led := played[0].suit;
    var m := MaxCard(played);
    InOwnBucket(h, c);
    SuitsTable();
    TrickWinner(played);
    CardOrder(m, c);
    if IsSpade(c) {
      assert c in h[0];
    } else if !HasSpade(played) {
      SuitIdentity(m.suit, c.suit);
      SuitIdentity(c.suit, led);
    }
  }

  /** What one legal card does to the trick (the per-card half of LegalFlagMeansWinning). */
  lemma LegalCardEffect(h: seq<seq<Card>>, played: seq<Card>, c: Card)
    requires WellFormed(h) && |played| > 0
    requires c in LegalCards(h, played, Some(played[0].suit)).0
    ensures LegalCards(h, played, Some(played[0].suit)).1 ==> MaxCard(played + [c]) == c
    ensures !LegalCards(h, played, Some(played[0].suit)).1 ==> MaxCard(played + [c]) == MaxCard(played)
    ensures h[played[0].suit.order] != [] ==> c.suit == played[0].suit
    ensures h[played[0].suit.order] == [] && LegalCards(h, played, Some(played[0].suit)).1 ==> IsSpade(c)
  {
    var led := played[0].suit;
    var r := LegalCards(h, played, Some(led));
    assert MaxCard(played + [c]) == if Less(MaxCard(played), c) then c else MaxCard(played) by {
      MaxCardSnoc(played, c);
    }
    if !r.1 {
      LegalCardWithoutFlag(h, played, c);
    }
    if h[led.order] != [] {
      LegalSuit(h, played, c);
    }
    if h[led.order] == [] && r.1 {
      assert c in h[0];
      assert IsSpade(c) by {
        InOwnBucket(h, c);
        SuitsTable();
      }
    }
  }

  /** A player holding the led suit plays a card of it. */
  lemma LegalSuit(h: seq<seq<Card>>, played: seq<Card>, c: Card)
    requires WellFormed(h) && |played| > 0 && h[played[0].suit.order] != []
    requires c in LegalCards(h, played, Some(played[0].suit)).0
    ensures c.suit == played[0].suit
  {
    var led := played[0].suit;
    assert c in h[led.order];
    InOwnBucket(h, c);
    SuitIdentity(c.suit, led);
  }

  /**
   * In a trick led by its first card: the flag says exactly whether the legal cards take the
   * lead (each would become the trick's max, or none would); a player holding the led suit
   * must follow it, and a void player who may beat the trick beats it with spades.
   */
  lemma LegalFlagMeansWinning(h: seq<seq<Card>>, played: seq<Card>)
    requires WellFormed(h) && |played| > 0
    ensures var (legal, flag) := LegalCards(h, played, Some(played[0].suit));
      && (flag ==> forall c :: c in legal ==> MaxCard(played + [c]) == c)
      && (!flag ==> forall c :: c in legal ==> MaxCard(played + [c]) == MaxCard(played))
      && (h[played[0].suit.order] != [] ==> forall c :: c in legal ==> c.suit == played[0].suit)
      && (h[played[0].suit.order] == [] && flag ==> forall c :: c in legal ==> IsSpade(c))
  {
    SuitsTable();
    forall c | c in LegalCards(h, played, Some(played[0].suit)).0 {
      LegalCardEffect(h, played, c);
    }
  }

  /** Player.think_to_play: a bot plays its highest legal card while it can still win early, else its lowest. */
  function ThinkToPlay(isBot: bool, played: seq<Card>, legal: seq<Card>, hasGreater: bool): (r: Result<Card>)
    ensures r.Ok? <==> isBot && legal != []
    ensures !isBot ==> r == Err(IllegalOperation)
    ensures r.Ok? ==> r.value in legal
  {
    if !isBot then Err(IllegalOperation)
    else if legal == [] then Err(EmptySequence)
    else if hasGreater && |played| < 3 then Ok(MaxCard(legal))
    else Ok(MinCard(legal))
  }

  /** The bot's pick is a greatest legal card in the greedy case and a least legal card otherwise. */
  lemma ThinkToPlayExtremes(played: seq<Card>, legal: seq<Card>, hasGreater: bool)
    requires legal != []
    ensures var r := ThinkToPlay(true, played, legal, hasGreater).value;
      if hasGreater && |played| < 3 then forall c :: c in legal ==> !Less(r, c)
      else forall c :: c in legal ==> !Less(c, r)
  {
    MaxCardMaximal(legal);
    MinCardMinimal(legal);
  }

  /** The card a bot holding hand h chooses, given the trick so far. */
  function BotMove(h: seq<seq<Card>>, played: seq<Card>, led: Option<Suit>): Result<Card>
    requires |h| == 4
  {
    var (legal, hasGreater) := LegalCards(h, played, led);
    ThinkToPlay(true, played, legal, hasGreater)
  }

  /** A bot with cards always has a move, and the move is a card of its hand. */
  lemma BotMoveInHand(h: seq<seq<Card>>, played: seq<Card>, led: Option<Suit>)
    requires WellFormed(h)
    ensures BotMove(h, played, led).Ok? <==> Flatten(h) != []
    ensures BotMove(h, played, led).Ok? ==> BotMove(h, played, led).value in Flatten(h)
  {
  }

  // ===========================================================================
  // Sorting a full hand (Player.collect)

  /** The order Player.collect sorts each bucket into: descending face value. */
  predicate SortedDesc(s: seq<Card>) {
    forall i, j :: 0 <= i < j < |s| ==> s[i].face.value >= s[j].face.value
  }

  /** Inserts c after every leading card whose face value is at least c's. */
  function InsertDesc(c: Card, s: seq<Card>): (r: seq<Card>)
    ensures multiset(r) == multiset(s) + multiset{c}
  {
    if s == [] then [c]
    else if s[0].face.value >= c.face.value then
      assert s == [s[0]] + s[1..];
      [s[0]] + InsertDesc(c, s[1..])
    else
      [c] + s
  }

  /** Inserting into a sorted bucket keeps it sorted. */
  lemma {:induction false} InsertDescSorted(c: Card, s: seq<Card>)
    requires SortedDesc(s)
    ensures SortedDesc(InsertDesc(c, s))
  {
    if s == [] {
    } else if s[0].face.value >= c.face.value {
      var rest := InsertDesc(c, s[1..]);
      assert SortedDesc(s[1..]);
      InsertDescSorted(c, s[1..]);
      forall x | x in rest ensures x.face.value <= s[0].face.value {
        assert x in multiset(rest);
        if x != c {
          assert x in s[1..];
          var k :| 0 <= k < |s[1..]| && s[1..][k] == x;
          assert s[k + 1] == x;
        }
      }
      SortedCons(s[0], rest);
    } else {
      assert forall k :: 0 <= k < |s| ==> s[k].face.value <= s[0].face.value;
      SortedCons(c, s);
    }
  }

  /** A card no lower than every card of a sorted bucket can go in front of it. */
  lemma SortedCons(x: Card, s: seq<Card>)
    requires SortedDesc(s) && forall y :: y in s ==> y.face.value <= x.face.value
    ensures SortedDesc([x] + s)
  {
    var r := [x] + s;
    forall i, j | 0 <= i < j < |r| ensures r[i].face.value >= r[j].face.value {
      if i > 0 {
        assert r[i] == s[i - 1] && r[j] == s[j - 1];
      } else {
        assert r[j] in s;
      }
    }
  }

  /** list.sort(key=lambda c: -c.face.value): a permutation of the bucket in descending face order. */
  function SortDesc(s: seq<Card>): (r: seq<Card>)
    ensures multiset(r) == multiset(s)
  {
    if s == [] then []
    else
      assert s == s[..|s| - 1] + [s[|s| - 1]];
      InsertDesc(s[|s| - 1], SortDesc(s[..|s| - 1]))
  }

  /** The sorted bucket is in descending face order. */
  lemma {:induction false} SortDescSorted(s: seq<Card>)
    ensures SortedDesc(SortDesc(s))
  {
    if s != [] {
      SortDescSorted(s[..|s| - 1]);
      InsertDescSorted(s[|s| - 1], SortDesc(s[..|s| - 1]));
    }
  }

  /** Every bucket of the hand sorted. */
  function SortHand(h: seq<seq<Card>>): (r: seq<seq<Card>>)
    ensures |r| == |h|
    ensures forall b :: 0 <= b < |h| ==> r[b] == SortDesc(h[b])
  {
    seq(|h|, b requires 0 <= b < |h| => SortDesc(h[b]))
  }

  /** Buckets that are permutations of each other give hands that are permutations of each other. */
  lemma {:induction false} FlattenPermuted(h: seq<seq<Card>>, g: seq<seq<Card>>)
    requires |h| == |g| && forall b :: 0 <= b < |h| ==> multiset(h[b]) == multiset(g[b])
    ensures multiset(Flatten(h)) == multiset(Flatten(g))
  {
    if h != [] {
      FlattenPermuted(h[1..], g[1..]);
    }
  }

  /** Sorting keeps the hand's bucket layout. */
  lemma SortHandKeepsHand(h: seq<seq<Card>>)
    requires WellFormed(h)
    ensures WellFormed(SortHand(h))
  {
    var r := SortHand(h);
    forall b: int, c: Card | 0 <= b < 4 && c in r[b] ensures c.suit.order == b {
      SortDescMembers(h[b], c);
    }
  }

  /** A sorted bucket holds the bucket's cards. */
  lemma SortDescMembers(s: seq<Card>, c: Card)
    requires c in SortDesc(s)
    ensures c in s
  {
    assert c in multiset(SortDesc(s));
  }

  /** Sorting keeps the hand's cards. */
  lemma SortHandPermutes(h: seq<seq<Card>>)
    ensures multiset(Flatten(SortHand(h))) == multiset(Flatten(h))
  {
    FlattenPermuted(SortHand(h), h);
  }

  /** Sorting keeps every bucket's size, hence the hand's. */
  lemma {:induction false} SortHandSize(h: seq<seq<Card>>)
    ensures |Flatten(SortHand(h))| == |Flatten(h)|
  {
    SortHandPermutes(h);
    assert |multiset(Flatten(SortHand(h)))| == |multiset(Flatten(h))|;
  }

  /** Sequence positions of distinct cards. */
  predicate Distinct(s: seq<Card>) {
    forall i, j :: 0 <= i < j < |s| ==> s[i] != s[j]
  }

  // ===========================================================================
  // Seating

  /** A seat number one round past x, for 0 <= x < 2n. */
  function Wrap(x: nat, n: nat): nat {
    if x < n then x else x - n
  }

  /** The seat after `turn` round a table of n. */
  function NextSeat(turn: nat, n: nat): (r: nat)
    requires turn < n
    ensures r < n
  {
    if turn + 1 == n then 0 else turn + 1
  }

  /** NextSeat is the iterator's (turn + 1) % n. */
  lemma NextSeatMod(turn: nat, n: nat)
    requires turn < n
    ensures NextSeat(turn, n) == (turn + 1) % n
  {
    DivUnique(turn + 1, n, if turn + 1 == n then 1 else 0, NextSeat(turn, n));
  }

  /** The seats GameTurn.iterator yields from seat `turn` on, stopping when `start` comes round again. */
  function SeatsFrom(turn: nat, start: nat, n: nat): seq<nat>
    requires turn < n && start < n
    decreases if turn < start then start - turn else start + n - turn
  {
    var next := NextSeat(turn, n);
    [turn] + if next == start then [] else SeatsFrom(next, start, n)
  }

  /** GameTurn.iterator: the seat order of one trick, beginning at the starter's seat. */
  function Seats(start: nat, n: nat): (r: seq<nat>)
    requires start < n
    ensures |r| == n && forall k :: 0 <= k < n ==> r[k] < n
  {
    SeatsFromOffsets(start, n, 0);
    assert Wrap(start + 0, n) == start;
    assert forall k :: 0 <= k < n ==> SeatsFrom(start, start, n)[k] == Wrap(start + 0 + k, n);
    SeatsFrom(start, start, n)
  }

  lemma {:induction false} SeatsFromOffsets(start: nat, n: nat, d: nat)
    requires start < n && d < n
    ensures Wrap(start + d, n) < n
    ensures var r := SeatsFrom(Wrap(start + d, n), start, n);
      |r| == n - d && forall k :: 0 <= k < n - d ==> r[k] == Wrap(start + d + k, n)
    decreases n - d
  {
    var turn := Wrap(start + d, n);
    var next := NextSeat(turn, n);
    var r := SeatsFrom(turn, start, n);
    assert (next == start) == (d + 1 == n);
    if d + 1 < n {
      assert next == Wrap(start + (d + 1), n);
      SeatsFromOffsets(start, n, d + 1);
      var rest := SeatsFrom(next, start, n);
      assert r == [turn] + rest;
      forall k | 0 < k < n - d ensures r[k] == Wrap(start + d + k, n) {
        assert r[k] == rest[k - 1];
        assert start + (d + 1) + (k - 1) == start + d + k;
      }
    } else {
      assert r == [turn];
    }
  }

  /** The iterator yields n seats, the k-th being (start + k) % n: every seat exactly once, in turn order. */
  lemma SeatsOrder(start: nat, n: nat)
    requires start < n
    ensures |Seats(start, n)| == n
    ensures forall k :: 0 <= k < n ==> Seats(start, n)[k] == (start + k) % n
    ensures forall j, k :: 0 <= j < k < n ==> Seats(start, n)[j] != Seats(start, n)[k]
    ensures forall i :: 0 <= i < n ==> i in Seats(start, n)
    ensures Seats(start, n)[0] == start
  {
    SeatsFromOffsets(start, n, 0);
    assert Wrap(start + 0, n) == start;
    var seats := Seats(start, n);
    assert forall k :: 0 <= k < n ==> seats[k] == Wrap(start + k, n);
    forall k | 0 <= k < n ensures seats[k] == (start + k) % n {
      DivUnique(start + k, n, if start + k < n then 0 else 1, Wrap(start + k, n));
    }
    forall i | 0 <= i < n ensures i in seats {
      var k := if start <= i then i - start else i + n - start;
      assert seats[k] == i;
    }
  }

  /** The facts about the seat order a trick relies on. */
  lemma SeatsCover(start: nat, n: nat)
    requires start < n
    ensures |Seats(start, n)| == n
    ensures forall j, k :: 0 <= j < k < n ==> Seats(start, n)[j] != Seats(start, n)[k]
    ensures forall i :: 0 <= i < n ==> i in Seats(start, n)
  {
    SeatsOrder(start, n);
  }

  // ===========================================================================
  // Players

  /** Appending a dealt card to its suit's bucket adds exactly that card to the hand. */
  lemma AddToBucket(h: seq<seq<Card>>, card: Card)
    requires WellFormed(h)
    ensures var added := h[card.suit.order := h[card.suit.order] + [card]];
      WellFormed(added) && multiset(Flatten(added)) == multiset(Flatten(h)) + multiset{card} &&
      |Flatten(added)| == |Flatten(h)| + 1
  {
    SuitsTable();
    var o := card.suit.order;
    var t := h[o] + [card];
    var added := h[o := t];
    forall b: int, c: Card | 0 <= b < 4 && c in added[b] ensures c.suit.order == b {
      if b != o {
        assert c in h[b];
      } else if c != card {
        assert c in h[o];
      }
    }
    AddedMultiset(h, o, card);
  }

  lemma AddedMultiset(h: seq<seq<Card>>, o: nat, card: Card)
    requires o < |h|
    ensures multiset(Flatten(h[o := h[o] + [card]])) == multiset(Flatten(h)) + multiset{card}
    ensures |Flatten(h[o := h[o] + [card]])| == |Flatten(h)| + 1
  {
    var t := h[o] + [card];
    FlattenUpdate(h, o, t);
    assert multiset(t) == multiset(h[o]) + multiset{card};
    ghost var a := multiset(Flatten(h[o := t]));
    ghost var m := multiset(h[o]);
    assert a + m == multiset(Flatten(h)) + multiset{card} + m;
    assert a == (a + m) - m;
  }

  /**
   * The hand after Player.collect takes card c: c goes to the end of its suit's bucket, and
   * the thirteenth card sorts every bucket.
   */
  function Collected(h: seq<seq<Card>>, c: Card): (r: seq<seq<Card>>)
    requires |h| == 4
    ensures |r| == 4
  {
    var added := h[c.suit.order := h[c.suit.order] + [c]];
    if |Flatten(h)| == 12 then SortHand(added) else added
  }

  /** Collecting keeps the hand's layout and adds exactly the card; the thirteenth sorts every bucket. */
  lemma CollectedFacts(h: seq<seq<Card>>, c: Card)
    requires WellFormed(h)
    ensures WellFormed(Collected(h, c))
    ensures multiset(Flatten(Collected(h, c))) == multiset(Flatten(h)) + multiset{c}
    ensures |Flatten(Collected(h, c))| == |Flatten(h)| + 1
    ensures |Flatten(h)| == 12 ==> forall b :: 0 <= b < 4 ==> SortedDesc(Collected(h, c)[b])
    ensures |Flatten(h)| != 12 ==> forall b :: 0 <= b < 4 && b != c.suit.order ==> Collected(h, c)[b] == h[b]
  {
    AddToBucket(h, c);
    var added := h[c.suit.order := h[c.suit.order] + [c]];
    if |Flatten(h)| == 12 {
      SortHandKeepsHand(added);
      SortHandPermutes(added);
      SortHandSize(added);
      forall b | 0 <= b < 4 ensures SortedDesc(Collected(h, c)[b]) {
        SortDescSorted(added[b]);
      }
    }
  }

  class Player {
    const name: string
    const isBot: bool
    /** The seat CallBreak gives the player; None until then. */
    var turn: Option<nat>
    /** Four buckets, one per suit order. */
    var cards: seq<seq<Card>>

    constructor (name: string, isBot: bool)
      ensures this.name == name && this.isBot == isBot
      ensures turn == None && cards == [[], [], [], []]
    {
      this.name := name;
      this.isBot := isBot;
      turn := None;
      cards := [[], [], [], []];
    }

    ghost predicate Valid()
      reads this
    {
      WellFormed(cards)
    }

    /** Player.all_cards. */
    function AllCards(): seq<Card>
      reads this
    {
      Flatten(cards)
    }

    /**
     * Player.collect: the card joins its suit's bucket and records its owner; the
     * thirteenth card sorts every bucket and numbers the hand's cards in hand order.
     */
    method Collect(card: Card)
      requires Valid()
      modifies this`cards, card`owner, (set c | c in AllCards() + [card])`index
      ensures Valid()
      ensures card.owner == this
      ensures multiset(AllCards()) == old(multiset(AllCards())) + multiset{card}
      ensures cards == Collected(old(cards), card)
      ensures |old(AllCards())| == 12 && Distinct(AllCards()) ==>
        forall k :: 0 <= k < |AllCards()| ==> AllCards()[k].index == Some(k)
      ensures |old(AllCards())| != 12 ==>
        forall c :: c in old(AllCards()) + [card] && old(allocated(c)) ==> c.index == old(c.index)
    {
      card.owner := this;
      Add(card);
      if |AllCards()| == 13 {
        assert forall c :: c in AllCards() ==> c in old(AllCards()) + [card] by {
          forall c | c in AllCards() ensures c in old(AllCards()) + [card] {
            assert c in multiset(AllCards());
          }
        }
        Arrange();
      }
    }

    /** The append of Player.collect: the card goes to the end of its suit's bucket. */
    method Add(card: Card)
      requires Valid()
      modifies this`cards
      ensures cards == old(cards)[card.suit.order := old(cards)[card.suit.order] + [card]]
      ensures Valid() && multiset(AllCards()) == old(multiset(AllCards())) + multiset{card}
      ensures |AllCards()| == |old(AllCards())| + 1
    {
      AddToBucket(cards, card);
      cards := cards[card.suit.order := cards[card.suit.order] + [card]];
    }

    /** The full hand is sorted, bucket by bucket, and its cards numbered in hand order. */
    method Arrange()
      requires Valid()
      modifies this`cards, (set c | c in AllCards())`index
      ensures cards == SortHand(old(cards)) && Valid()
      ensures multiset(AllCards()) == old(multiset(AllCards()))
      ensures Distinct(AllCards()) ==> forall k :: 0 <= k < |AllCards()| ==> AllCards()[k].index == Some(k)
    {
      SortHandKeepsHand(cards);
      SortHandPermutes(cards);
      cards := SortHand(cards);
      var all := AllCards();
      assert forall c :: c in all ==> c in old(AllCards()) by {
        forall c | c in all ensures c in old(AllCards()) {
          assert c in multiset(all);
        }
      }
      Number(all);
    }

    /**
     * Player.play: find the legal cards, let the bot choose (a human player's move is not
     * implemented), and take the chosen card out of its bucket.
     */
    method Play(turn: GameTurn) returns (r: Result<Card>)
      requires Valid()
      modifies this`cards
      ensures Valid()
      ensures r == if isBot then BotMove(old(cards), turn.cards, turn.suit) else Err(NotImplemented)
      ensures r.Ok? <==> isBot && old(AllCards()) != []
      ensures r.Ok? ==> r.value in old(AllCards())
      ensures r.Ok? ==> r.value in old(cards)[r.value.suit.order]
      ensures r.Ok? ==> cards == RemoveCard(old(cards), r.value)
      ensures r.Err? ==> cards == old(cards)
    {
      var hand := cards;
      var (legal, hasGreater) := LegalCards(hand, turn.cards, turn.suit);
      if isBot {
        r := ThinkToPlay(isBot, turn.cards, legal, hasGreater);
      } else {
        r := Err(NotImplemented);
      }
      if r.Ok? {
        BotMoveInHand(hand, turn.cards, turn.suit);
        PlayRemovesCard(hand, r.value);
        cards := RemoveCard(hand, r.value);
      }
    }
  }

  /** The numbering loop of Player.collect: each card of the hand records its position. */
  method Number(all: seq<Card>)
    modifies (set c | c in all)`index
    ensures Distinct(all) ==> forall k :: 0 <= k < |all| ==> all[k].index == Some(k)
  {
    var i := 0;
    while i < |all|
      invariant 0 <= i <= |all|
      invariant Distinct(all) ==> forall k :: 0 <= k < i ==> all[k].index == Some(k)
    {
      all[i].index := Some(i);
      i := i + 1;
    }
  }

  class GameTurn {
    const starter: Player
    const players: seq<Player>
    var cards: seq<Card>
    var suit: Option<Suit>

    constructor (starter: Player, players: seq<Player>)
      ensures this.starter == starter && this.players == players
      ensures cards == [] && suit == None
    {
      this.starter := starter;
      this.players := players;
      cards := [];
      suit := None;
    }

    /**
     * GameTurn.start: every player, in seat order from the starter's seat, plays into the
     * trick; the first card played fixes the led suit; the greatest card (max) wins.
     */
    method Start() returns (r: Result<Card>, ghost trick: seq<Card>,
                            ghost olds: seq<seq<seq<Card>>>, ghost news: seq<seq<seq<Card>>>)
      requires starter.turn.Some? && starter.turn.value < |players|
      requires DistinctPlayers(players) && forall p :: p in players ==> p.Valid()
      modifies this`cards, this`suit, (set p | p in players)`cards
      ensures forall i :: 0 <= i < |players| ==> players[i].Valid()
      ensures (forall p :: p in players ==> p.isBot && old(p.AllCards()) != []) ==> r.Ok?
      ensures r.Ok? ==> |trick| == |players| && cards == old(cards) + trick
      ensures r.Ok? ==> suit == LedSuit(old(suit), trick)
      ensures r.Ok? ==> r.value == MaxCard(cards) && WinsTrick(cards, r.value)
      ensures var seats := Seats(old(starter.turn.value), |players|);
        |olds| == |players| && forall k :: 0 <= k < |players| ==> olds[k] == old(players[seats[k]].cards)
      ensures var seats := Seats(old(starter.turn.value), |players|);
        r.Ok? ==> |news| == |players| && forall k :: 0 <= k < |players| ==>
        news[k] == players[seats[k]].cards && players[seats[k]].isBot
      ensures r.Ok? ==> TrickLog(olds, news, old(cards), trick, old(suit))
      ensures r.Ok? ==> forall k :: 0 <= k < |players| ==> SeatLost(olds, news, trick, k)
      ensures r.Ok? && old(cards) == [] ==> exists k :: 0 <= k < |players| && r.value in Flatten(olds[k])
    {
      var n := |players|;
      var seats := Seats(starter.turn.value, n);
      SeatsCover(starter.turn.value, n);
      SeatedDistinct(players, seats);
      var failure;
      failure, trick, olds, news := PlaySeats(seats);
      if failure.Some? {
        r := Err(failure.value);
        return;
      }
      TrickWinner(cards);
      r := Ok(MaxCard(cards));
      assert forall k :: 0 <= k < n ==> SeatLost(olds, news, trick, k) by {
        TrickLogHands(olds, news, old(cards), trick, old(suit));
      }
      if old(cards) == [] {
        var j :| 0 <= j < n && cards[j] == r.value;
        assert trick[j] == r.value && SeatLost(olds, news, trick, j);
      }
    }

    /** GameTurn.start's loop: the seats play in the given order until one of them cannot. */
    method PlaySeats(seats: seq<nat>) returns (failure: Option<Error>, ghost trick: seq<Card>,
                                               ghost olds: seq<seq<seq<Card>>>, ghost news: seq<seq<seq<Card>>>)
      requires |seats| == |players| && forall k :: 0 <= k < |seats| ==> seats[k] < |players|
      requires forall j, k :: 0 <= j < |seats| && 0 <= k < |seats| && j != k ==> players[seats[j]] != players[seats[k]]
      requires forall p :: p in players ==> p.Valid()
      modifies this`cards, this`suit, (set p | p in players)`cards
      ensures forall i :: 0 <= i < |players| ==> players[i].Valid()
      ensures (forall p :: p in players ==> p.isBot && old(p.AllCards()) != []) ==> failure.None?
      ensures |olds| == |players| && forall k :: 0 <= k < |players| ==> olds[k] == old(players[seats[k]].cards)
      ensures failure.None? ==> |trick| == |players| && cards == old(cards) + trick
      ensures failure.None? ==> suit == LedSuit(old(suit), trick)
      ensures failure.None? ==> |news| == |players| && forall k :: 0 <= k < |players| ==>
        news[k] == players[seats[k]].cards && players[seats[k]].isBot
      ensures failure.None? ==> TrickLog(olds, news, old(cards), trick, old(suit))
    {
      var n := |players|;
      olds := HandsAt(players, seats);
      assert forall j :: 0 <= j < n ==> players[seats[j]] in players;
      news := [];
      trick := [];
      var k := 0;
      while k < n
        invariant 0 <= k <= n && |trick| == k && |news| == k && cards == old(cards) + trick
        invariant suit == LedSuit(old(suit), trick)
        invariant forall i :: 0 <= i < n ==> players[i].Valid()
        invariant forall j :: 0 <= j < n ==> olds[j] == old(players[seats[j]].cards)
        invariant forall j :: k <= j < n ==> players[seats[j]].cards == olds[j]
        invariant forall j :: 0 <= j < k ==> players[seats[j]].cards == news[j] && players[seats[j]].isBot
        invariant TrickLog(olds, news, old(cards), trick, old(suit))
      {
        var player := players[seats[k]];
        label Pass:
        var c := PlaySeat(player, olds, news, old(cards), trick, old(suit));
        forall j | 0 <= j < n && j != k ensures players[seats[j]].cards == old@Pass(players[seats[j]].cards) {
          assert players[seats[j]] != player;
        }
        forall i | 0 <= i < n ensures players[i].Valid() {
          if players[i] != player {
            assert players[i].cards == old@Pass(players[i].cards);
          }
        }
        if c.Err? {
          failure := Some(c.error);
          return;
        }
        news := news + [player.cards];
        trick := trick + [c.value];
        k := k + 1;
      }
      failure := None;
    }

    /**
     * One pass of GameTurn.start's loop: the player plays, the first card of the trick fixes
     * the led suit, and the card joins the trick. The ghost parameters carry the record of
     * the trick so far, which the pass extends by this seat's move.
     */
    method PlaySeat(player: Player, ghost olds: seq<seq<seq<Card>>>, ghost news: seq<seq<seq<Card>>>,
                    ghost before: seq<Card>, ghost trick: seq<Card>, ghost led: Option<Suit>)
        returns (c: Result<Card>)
      requires |trick| < |olds| && |news| == |trick| && cards == before + trick
      requires olds[|trick|] == player.cards && WellFormed(player.cards)
      requires suit == LedSuit(led, trick) && TrickLog(olds, news, before, trick, led)
      modifies this`cards, this`suit, player`cards
      ensures c.Ok? <==> player.isBot && old(player.AllCards()) != []
      ensures c.Ok? ==> cards == before + (trick + [c.value]) && suit == LedSuit(led, trick + [c.value])
      ensures c.Ok? ==> TrickLog(olds, news + [player.cards], before, trick + [c.value], led)
      ensures WellFormed(player.cards)
    {
      c := player.Play(this);
      if c.Err? {
        return;
      }
      SeatStep(olds, news, before, trick, led, c.value, player.cards);
      if suit.None? {
        suit := Some(c.value.suit);
      }
      cards := cards + [c.value];
    }
  }

  /** The hands held at the given seats, in seat order. */
  ghost function HandsAt(players: seq<Player>, seats: seq<nat>): (r: seq<seq<seq<Card>>>)
    requires forall k :: 0 <= k < |seats| ==> seats[k] < |players|
    reads set p | p in players
    ensures |r| == |seats| && forall k :: 0 <= k < |seats| ==> r[k] == players[seats[k]].cards
  {
    if seats == [] then [] else [players[seats[0]].cards] + HandsAt(players, seats[1..])
  }

  /** Distinct players in distinct seats are distinct objects. */
  lemma SeatedDistinct(players: seq<Player>, seats: seq<nat>)
    requires DistinctPlayers(players) && |seats| == |players|
    requires forall k :: 0 <= k < |seats| ==> seats[k] < |players|
    requires forall j, k :: 0 <= j < k < |seats| ==> seats[j] != seats[k]
    ensures forall j, k :: 0 <= j < |seats| && 0 <= k < |seats| && j != k ==> players[seats[j]] != players[seats[k]]
  {
    forall j, k | 0 <= j < |seats| && 0 <= k < |seats| && j != k
      ensures players[seats[j]] != players[seats[k]]
    {
      if j < k {
        assert seats[j] != seats[k];
      } else {
        assert seats[k] != seats[j];
      }
      if seats[j] < seats[k] {
        assert players[seats[j]] != players[seats[k]];
      } else {
        assert players[seats[k]] != players[seats[j]];
      }
    }
  }

  predicate DistinctPlayers(ps: seq<Player>) {
    forall i, j :: 0 <= i < j < |ps| ==> ps[i] != ps[j]
  }

  /** The led suit after `played` joins a trick whose led suit was `s`. */
  function LedSuit(s: Option<Suit>, played: seq<Card>): Option<Suit> {
    if s.Some? || played == [] then s else Some(played[0].suit)
  }

  /** A bot holding h chose c given the trick so far, and holds `after` once c is played. */
  predicate BotPlayed(h: seq<seq<Card>>, after: seq<seq<Card>>, before: seq<Card>, led: Option<Suit>, c: Card) {
    WellFormed(h) && BotMove(h, before, led) == Ok(c) &&
    c in h[c.suit.order] && after == RemoveCard(h, c)
  }

  /** A bot's move comes out of its hand, which keeps its shape and loses exactly that card. */
  lemma BotPlayedFacts(h: seq<seq<Card>>, after: seq<seq<Card>>, before: seq<Card>, led: Option<Suit>, c: Card)
    requires BotPlayed(h, after, before, led, c)
    ensures c in Flatten(h) && WellFormed(after)
    ensures |Flatten(after)| + 1 == |Flatten(h)| && multiset(Flatten(after)) == multiset(Flatten(h)) - multiset{c}
  {
    BucketsInFlatten(h);
    PlayRemovesCard(h, c);
  }

  /** Seat j of a trick record: it held olds[j], made the bot's choice trick[j], then held news[j]. */
  predicate SeatMoved(olds: seq<seq<seq<Card>>>, news: seq<seq<seq<Card>>>, before: seq<Card>,
                      trick: seq<Card>, led: Option<Suit>, j: nat)
    requires j < |olds| && j < |news| && j < |trick|
  {
    BotPlayed(olds[j], news[j], before + trick[..j], LedSuit(led, trick[..j]), trick[j])
  }

  /** Seat j played a card of its hand and lost that one card and no other. */
  predicate SeatLost(olds: seq<seq<seq<Card>>>, news: seq<seq<seq<Card>>>, trick: seq<Card>, j: nat)
    requires j < |olds| && j < |news| && j < |trick|
  {
    trick[j] in Flatten(olds[j]) && |Flatten(news[j])| + 1 == |Flatten(olds[j])| &&
    multiset(Flatten(news[j])) == multiset(Flatten(olds[j])) - multiset{trick[j]}
  }

  /**
   * The record of a trick so far: each of the first |trick| seats j made its move with
   * `before` and trick[..j] on the table, the led suit being the one in force at that point.
   */
  predicate TrickLog(olds: seq<seq<seq<Card>>>, news: seq<seq<seq<Card>>>, before: seq<Card>,
                     trick: seq<Card>, led: Option<Suit>)
    requires |news| == |trick| <= |olds|
  {
    forall j :: 0 <= j < |trick| ==> SeatMoved(olds, news, before, trick, led, j)
  }

  /** One more seat's move extends the record and, on an open trick, fixes the led suit. */
  lemma SeatStep(olds: seq<seq<seq<Card>>>, news: seq<seq<seq<Card>>>, before: seq<Card>,
                 trick: seq<Card>, led: Option<Suit>, x: Card, after: seq<seq<Card>>)
    requires |news| == |trick| < |olds| && TrickLog(olds, news, before, trick, led)
    requires BotPlayed(olds[|trick|], after, before + trick, LedSuit(led, trick), x)
    ensures TrickLog(olds, news + [after], before, trick + [x], led)
    ensures LedSuit(led, trick + [x]) == if LedSuit(led, trick).None? then Some(x.suit) else LedSuit(led, trick)
  {
    var k := |trick|;
    var news', trick' := news + [after], trick + [x];
    forall j | 0 <= j < k + 1 ensures SeatMoved(olds, news', before, trick', led, j) {
      if j < k {
        assert SeatMoved(olds, news, before, trick, led, j);
        assert trick'[..j] == trick[..j] && news'[j] == news[j] && trick'[j] == trick[j];
      } else {
        assert trick'[..j] == trick;
      }
    }
    if trick != [] {
      assert trick'[0] == trick[0];
    }
  }

  /** What the record says about each seat's hand: it lost exactly the card the seat played. */
  lemma TrickLogHands(olds: seq<seq<seq<Card>>>, news: seq<seq<seq<Card>>>, before: seq<Card>,
                      trick: seq<Card>, led: Option<Suit>)
    requires |olds| == |news| == |trick| && TrickLog(olds, news, before, trick, led)
    ensures forall j :: 0 <= j < |trick| ==> SeatLost(olds, news, trick, j)
  {
    forall j | 0 <= j < |trick| ensures SeatLost(olds, news, trick, j) {
      assert SeatMoved(olds, news, before, trick, led, j);
      BotPlayedFacts(olds[j], news[j], before + trick[..j], LedSuit(led, trick[..j]), trick[j]);
    }
  }



}
