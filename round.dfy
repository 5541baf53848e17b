/** The deck and a round of play: Deck and CallBreak (callbreak_card.py). */
module Round {
  import opened Errors
  import opened Cards
  import opened Engine
  import Randomness
  import opened Arith

  // ===========================================================================
  // The deck

  /** Deck.load's pack: one fresh card per entry of the layout, nobody's yet. */
  ghost predicate FreshPack(cards: seq<Card>)
    reads set c | c in cards
  {
    |cards| == 52 &&
    (forall i :: 0 <= i < 52 ==> (cards[i].face, cards[i].suit) == LayoutAt(i)) &&
    (forall i :: 0 <= i < 52 ==> cards[i].owner == null && cards[i].index == None)
  }

  /** The 52 cards of a full pack are 52 different objects, every face once per suit. */
  lemma FreshPackDistinct(cards: seq<Card>)
    requires FreshPack(cards)
    ensures Distinct(cards)
  {
    forall i, j | 0 <= i < j < 52 ensures cards[i] != cards[j] {
      LayoutDistinct(i, j);
    }

  }

  /** The first |pack| entries of the layout, as cards. */
  ghost predicate PackPrefix(pack: seq<Card>)
  {
    |pack| <= 52 && forall i :: 0 <= i < |pack| ==> (pack[i].face, pack[i].suit) == LayoutAt(i)
  }

  /** One more card, of the next layout entry, extends the prefix. */
  lemma PackGrows(pack: seq<Card>, c: Card)
    requires PackPrefix(pack) && |pack| < 52 && (c.face, c.suit) == LayoutAt(|pack|)
    ensures PackPrefix(pack + [c])
  {
    var p := pack + [c];
    forall i | 0 <= i < |p| ensures (p[i].face, p[i].suit) == LayoutAt(i) {
      if i < |pack| {
        assert p[i] == pack[i];
      }
    }
  }

  class Deck {
    var cards: seq<Card>

    /** Deck.__init__: an empty list, then load. */
    constructor ()
      ensures FreshPack(cards) && forall i :: 0 <= i < |cards| ==> fresh(cards[i])
    {
      cards := [];
      new;
      Load();
    }

    /** Deck.load: the cards of each suit in turn, every face of the suit in table order. */
    method Load()
      modifies this`cards
      ensures FreshPack(cards) && forall i :: 0 <= i < |cards| ==> fresh(cards[i])
    {
      var pack: seq<Card> := [];
      for si := 0 to 4
        invariant |pack| == 13 * si
        invariant PackPrefix(pack)
        invariant forall i :: 0 <= i < |pack| ==> fresh(pack[i]) && pack[i].owner == null && pack[i].index == None
      {
        for fi := 0 to 13
          invariant |pack| == 13 * si + fi
          invariant PackPrefix(pack)
          invariant forall i :: 0 <= i < |pack| ==> fresh(pack[i]) && pack[i].owner == null && pack[i].index == None
        {
          LayoutPosition(si, fi);
          var c := new Card(Faces[fi], Suits[si]);
          PackGrows(pack, c);
          pack := pack + [c];
        }
      }
      cards := pack;
    }
  }

  // ===========================================================================
  // Dealing

  /** The cards CallBreak.distribute gives seat p of n: card i goes to seat i % n, in deck order. */
  function Dealt(cs: seq<Card>, n: nat, p: nat): seq<Card>
    requires n > 0
  {
    if cs == [] then []
    else
      var pre := cs[..|cs| - 1];
      Dealt(pre, n, p) + if (|cs| - 1) % n == p then [cs[|cs| - 1]] else []
  }

  /** Seat p receives |cs| / n cards, one more when p comes before the remainder. */
  lemma {:induction false} DealtSize(cs: seq<Card>, n: nat, p: nat)
    requires n > 0 && p < n
    ensures |Dealt(cs, n, p)| == |cs| / n + if p < |cs| % n then 1 else 0
  {
    if cs != [] {
      var m := |cs| - 1;
      assert |Dealt(cs[..m], n, p)| == m / n + (if p < m % n then 1 else 0) by { DealtSize(cs[..m], n, p); }
      assert |Dealt(cs, n, p)| == |Dealt(cs[..m], n, p)| + (if m % n == p then 1 else 0);
      DivStep(m, n);
    }
  }

  /** Card i is the (i / n)-th card dealt to seat i % n. */
  lemma {:induction false} DealtPosition(cs: seq<Card>, n: nat, i: nat)
    requires n > 0 && i < |cs|
    ensures i / n < |Dealt(cs, n, i % n)| && Dealt(cs, n, i % n)[i / n] == cs[i]
  {
    var m := |cs| - 1;
    var pre := cs[..m];
    if i == m {
      DealtSize(pre, n, i % n);
    } else {
      DealtPosition(pre, n, i);
      assert pre[i] == cs[i];
    }
  }

  /** The cards dealt to seats 0 .. k-1, together. */
  function DealtUnion(cs: seq<Card>, n: nat, k: nat): multiset<Card>
    requires n > 0
  {
    if k == 0 then multiset{} else DealtUnion(cs, n, k - 1) + multiset(Dealt(cs, n, k - 1))
  }

  lemma {:induction false} DealtUnionSnoc(cs: seq<Card>, n: nat, k: nat)
    requires n > 0 && cs != []
    ensures DealtUnion(cs, n, k) ==
      DealtUnion(cs[..|cs| - 1], n, k) + if (|cs| - 1) % n < k then multiset{cs[|cs| - 1]} else multiset{}
  {
    if k > 0 {
      var pre, last := cs[..|cs| - 1], cs[|cs| - 1];
      DealtUnionSnoc(cs, n, k - 1);
      var here := if (|cs| - 1) % n == k - 1 then multiset{last} else multiset{};
      assert multiset(Dealt(cs, n, k - 1)) == multiset(Dealt(pre, n, k - 1)) + here;
    }
  }

  /** Nothing is dealt from an empty deck. */
  lemma {:induction false} DealtUnionEmpty(n: nat, k: nat)
    requires n > 0
    ensures DealtUnion([], n, k) == multiset{}
  {
    if k > 0 {
      DealtUnionEmpty(n, k - 1);
    }
  }

  /** The hands dealt partition the deck: every card goes to exactly one seat. */
  lemma {:induction false} DealtPartition(cs: seq<Card>, n: nat)
    requires n > 0
    ensures DealtUnion(cs, n, n) == multiset(cs)
  {
    if cs != [] {
      var pre, last := cs[..|cs| - 1], cs[|cs| - 1];
      assert DealtUnion(pre, n, n) == multiset(pre) by { DealtPartition(pre, n); }
      assert DealtUnion(cs, n, n) == DealtUnion(pre, n, n) + multiset{last} by { DealtUnionSnoc(cs, n, n); }
      assert multiset(cs) == multiset(pre) + multiset{last} by { assert cs == pre + [last]; }
    } else {
      DealtUnionEmpty(n, n);
    }
  }

  /** Four players share a 52-card deck 13 cards each. */
  lemma FullDeal(cs: seq<Card>, p: nat)
    requires |cs| == 52 && p < 4
    ensures |Dealt(cs, 4, p)| == 13
  {
    DealtSize(cs, 4, p);
    DivUnique(52, 4, 13, 0);
  }

  /** A player's hand after collecting the cards cs one by one. */
  function DealtHand(h: seq<seq<Card>>, cs: seq<Card>): (r: seq<seq<Card>>)
    requires |h| == 4
    ensures |r| == 4
  {
    if cs == [] then h else Collected(DealtHand(h, cs[..|cs| - 1]), cs[|cs| - 1])
  }

  /** Collecting keeps the hand's layout and adds exactly the collected cards. */
  lemma {:induction false} DealtHandFacts(h: seq<seq<Card>>, cs: seq<Card>)
    requires WellFormed(h)
    ensures WellFormed(DealtHand(h, cs))
    ensures multiset(Flatten(DealtHand(h, cs))) == multiset(Flatten(h)) + multiset(cs)
    ensures |Flatten(DealtHand(h, cs))| == |Flatten(h)| + |cs|
  {
    if cs != [] {
      var pre, last := cs[..|cs| - 1], cs[|cs| - 1];
      var g := DealtHand(h, pre);
      assert WellFormed(g) && multiset(Flatten(g)) == multiset(Flatten(h)) + multiset(pre) by {
        DealtHandFacts(h, pre);
      }
      var g' := Collected(g, last);
      assert DealtHand(h, cs) == g';
      assert WellFormed(g') && multiset(Flatten(g')) == multiset(Flatten(g)) + multiset{last} by {
        CollectedFacts(g, last);
      }
      assert multiset(cs) == multiset(pre) + multiset{last} by { assert cs == pre + [last]; }
    }
    assert |multiset(Flatten(DealtHand(h, cs)))| == |multiset(Flatten(h)) + multiset(cs)|;
  }

  /** Thirteen cards collected into an empty hand leave every bucket sorted, highest face first. */
  lemma ThirteenSorted(cs: seq<Card>)
    requires |cs| == 13
    ensures forall b :: 0 <= b < 4 ==> SortedDesc(DealtHand([[], [], [], []], cs)[b])
  {
    var pre := cs[..12];
    DealtHandFacts([[], [], [], []], pre);
    CollectedFacts(DealtHand([[], [], [], []], pre), cs[12]);
  }

  /** The next deal extends seat k's share by card i exactly when i % n == k. */
  lemma DealStep(cs: seq<Card>, n: nat, i: nat, k: nat)
    requires n > 0 && i < |cs|
    ensures Dealt(cs[..i + 1], n, k) == Dealt(cs[..i], n, k) + if i % n == k then [cs[i]] else []
  {
    assert cs[..i + 1][..i] == cs[..i];
  }

  /** Collecting one more card extends the fold by one Collected step. */
  lemma DealtHandSnoc(h: seq<seq<Card>>, cs: seq<Card>, x: Card)
    requires |h| == 4
    ensures DealtHand(h, cs + [x]) == Collected(DealtHand(h, cs), x)
  {
    assert (cs + [x])[..|cs|] == cs;
  }

  /** One deal step: card i joins the hand of seat i % n, every other hand stays as it is. */
  lemma DealNext(h0: seq<seq<Card>>, cur: seq<seq<Card>>, cs: seq<Card>, n: nat, i: nat, k: nat)
    requires n > 0 && i < |cs| && |h0| == 4 && cur == DealtHand(h0, Dealt(cs[..i], n, k))
    ensures |cur| == 4
    ensures DealtHand(h0, Dealt(cs[..i + 1], n, k)) == if i % n == k then Collected(cur, cs[i]) else cur
  {
    DealStep(cs, n, i, k);
    if k == i % n {
      DealtHandSnoc(h0, Dealt(cs[..i], n, k), cs[i]);
    } else {
      assert Dealt(cs[..i + 1], n, k) == Dealt(cs[..i], n, k);
    }
  }

  /** Every seat's hand has four buckets. */
  ghost predicate FourBuckets(hands: seq<seq<seq<Card>>>) {
    forall k :: 0 <= k < |hands| ==> |hands[k]| == 4
  }

  /** The hands, seat by seat, after card j has gone to seat j % n for every j < i. */
  ghost function Deal(h0: seq<seq<seq<Card>>>, cs: seq<Card>, i: nat): (r: seq<seq<seq<Card>>>)
    requires |h0| > 0 && FourBuckets(h0) && i <= |cs|
    ensures |r| == |h0| && FourBuckets(r)
  {
    if i == 0 then h0
    else
      var prev := Deal(h0, cs, i - 1);
      var k := (i - 1) % |h0|;
      prev[k := Collected(prev[k], cs[i - 1])]
  }

  /** The replay of the deal agrees with the per-seat description: seat k folds its own share. */
  lemma {:induction false} DealMatches(h0: seq<seq<seq<Card>>>, cs: seq<Card>, i: nat)
    requires |h0| > 0 && FourBuckets(h0) && i <= |cs|
    ensures forall k :: 0 <= k < |h0| ==> Deal(h0, cs, i)[k] == DealtHand(h0[k], Dealt(cs[..i], |h0|, k))
  {
    var n := |h0|;
    if i == 0 {
      assert cs[..0] == [];
    } else {
      DealMatches(h0, cs, i - 1);
      var prev := Deal(h0, cs, i - 1);
      forall k | 0 <= k < n ensures Deal(h0, cs, i)[k] == DealtHand(h0[k], Dealt(cs[..i], n, k)) {
        DealNext(h0[k], prev[k], cs, n, i - 1, k);
      }
    }
  }

  /** A card of seat p's share is a card of the deck dealt to that seat. */
  lemma {:induction false} DealtMembers(cs: seq<Card>, n: nat, p: nat, c: Card)
    requires n > 0 && c in Dealt(cs, n, p)
    ensures exists i :: 0 <= i < |cs| && i % n == p && cs[i] == c
  {
    var pre := cs[..|cs| - 1];
    if c in Dealt(pre, n, p) {
      DealtMembers(pre, n, p, c);
      var i :| 0 <= i < |pre| && i % n == p && pre[i] == c;
      assert cs[i] == c;
    } else {
      assert cs[|cs| - 1] == c && (|cs| - 1) % n == p;
    }
  }

  /** The shares of two different seats of a duplicate-free deck have no card in common. */
  lemma DealtDisjoint(cs: seq<Card>, n: nat, p: nat, q: nat, c: Card)
    requires n > 0 && p != q && Distinct(cs) && c in Dealt(cs, n, p)
    ensures c !in Dealt(cs, n, q)
  {
    if c in Dealt(cs, n, q) {
      DealtMembers(cs, n, p, c);
      DealtMembers(cs, n, q, c);
      assert false;
    }
  }

  /** Every card in a player's hand names that player as its owner. */
  ghost predicate Owned(players: seq<Player>)
    reads set p | p in players
    reads Held(players)
  {
    forall k, c :: 0 <= k < |players| && c in Flatten(players[k].cards) ==> c.owner == players[k]
  }

  /** A list is duplicate-free exactly when no card occurs in it twice. */
  lemma {:induction false} DistinctMultiset(s: seq<Card>)
    ensures Distinct(s) <==> forall x :: multiset(s)[x] <= 1
  {
    if s != [] {
      var p, y := s[..|s| - 1], s[|s| - 1];
      assert s == p + [y];
      DistinctMultiset(p);
      assert multiset(s) == multiset(p) + multiset{y};
      if Distinct(s) {
        assert Distinct(p) by {
          forall i, j | 0 <= i < j < |p| ensures p[i] != p[j] {
            assert p[i] == s[i] && p[j] == s[j];
          }
        }
      } else {
        var i, j :| 0 <= i < j < |s| && s[i] == s[j];
        if j < |s| - 1 {
          assert p[i] == p[j];
          var x :| multiset(p)[x] > 1;
          assert multiset(s)[x] > 1;
        } else {
          assert p[i] == y;
          assert multiset(s)[y] == multiset(p)[y] + 1 > 1;
        }
      }
    }
  }

  /** Reordering a duplicate-free list leaves it duplicate-free. */
  lemma PermutedDistinct(s: seq<Card>, t: seq<Card>)
    requires Distinct(s) && multiset(t) == multiset(s)
    ensures Distinct(t)
  {
    DistinctMultiset(s);
    DistinctMultiset(t);
  }

  /** The cards held by the players, as a set. */
  ghost function Held(players: seq<Player>): set<Card>
    reads set p | p in players
  {
    set k, c | 0 <= k < |players| && c in Flatten(players[k].cards) :: c
  }

  /** The players' hands, seat by seat. */
  ghost function HandsOf(players: seq<Player>): (r: seq<seq<seq<Card>>>)
    reads set p | p in players
    ensures |r| == |players| && forall k :: 0 <= k < |players| ==> r[k] == players[k].cards
  {
    if players == [] then [] else HandsOf(players[..|players| - 1]) + [players[|players| - 1].cards]
  }

  /**
   * One card of the deal: the player collects it. The cards the player may renumber all lie
   * in `pool`, which holds the card and the whole hand.
   */
  method Receive(player: Player, card: Card, ghost pool: set<Card>)
    requires player.Valid() && card in pool && forall c :: c in player.AllCards() ==> c in pool
    modifies player`cards, card`owner, pool`index
    ensures player.Valid() && card.owner == player && player.cards == Collected(old(player.cards), card)
    ensures forall c :: c in player.AllCards() ==> c in pool
  {
    player.Collect(card);
    assert forall c :: c in player.AllCards() ==> c in pool by {
      forall c | c in player.AllCards() ensures c in pool {
        assert c in multiset(player.AllCards());
      }
    }
  }

  /** Dealt into empty hands, every card of a hand names its holder as owner. */
  lemma DealtOwned(players: seq<Player>, cs: seq<Card>, h0: seq<seq<seq<Card>>>)
    requires |players| > 0 && |h0| == |players| && Distinct(cs)
    requires forall k :: 0 <= k < |players| ==>
      WellFormed(h0[k]) && Flatten(h0[k]) == [] && players[k].cards == DealtHand(h0[k], Dealt(cs, |players|, k))
    requires forall i :: 0 <= i < |cs| ==> cs[i].owner == players[i % |players|]
    ensures Owned(players)
  {
    var n := |players|;
    forall k, c | 0 <= k < n && c in Flatten(players[k].cards) ensures c.owner == players[k] {
      DealtHandFacts(h0[k], Dealt(cs, n, k));
      assert c in multiset(Flatten(h0[k])) + multiset(Dealt(cs, n, k));
      DealtMembers(cs, n, k, c);
    }
  }

  /** The position at which the seat order from `start` reaches seat i. */
  lemma SeatPosition(start: nat, n: nat, i: nat) returns (k: nat)
    requires start < n && i < n
    ensures k < n && Seats(start, n)[k] == i
  {
    SeatsOrder(start, n);
    k := if start <= i then i - start else i + n - start;
    DivUnique(start + k, n, if start <= i then 0 else 1, i);
  }

  /** Hand i went from before[i] to after[i] by giving up `count` of its cards and taking none. */
  ghost predicate Lost(before: seq<seq<seq<Card>>>, after: seq<seq<seq<Card>>>, i: nat, count: nat)
    requires i < |before| && i < |after|
  {
    |Flatten(after[i])| + count == |Flatten(before[i])| && multiset(Flatten(after[i])) <= multiset(Flatten(before[i]))
  }

  /** Losing `count` cards and then `more` cards is losing count + more of them. */
  lemma LostStep(h0: seq<seq<seq<Card>>>, mid: seq<seq<seq<Card>>>, mid': seq<seq<seq<Card>>>,
                  after: seq<seq<seq<Card>>>, i: nat, count: nat, more: nat)
    requires i < |h0| && i < |mid| && i < |mid'| && i < |after| && mid[i] == mid'[i]
    requires Lost(h0, mid, i, count) && Lost(mid', after, i, more)
    ensures Lost(h0, after, i, count + more)
  {
  }

  /**
   * What one trick does to the hands: every player lost exactly one of its cards, the led
   * card came out of the starter's hand and the winning card out of some player's hand.
   */
  ghost predicate TrickTaken(before: seq<seq<seq<Card>>>, after: seq<seq<seq<Card>>>, trick: seq<Card>,
                             start: nat, winner: Card)
  {
    |after| == |before| && start < |before| && trick != [] &&
    (forall i :: 0 <= i < |before| ==> Lost(before, after, i, 1)) &&
    trick[0] in Flatten(before[start]) &&
    exists i :: 0 <= i < |before| && winner in Flatten(before[i])
  }

  /**
   * One GameTurn.start from a fresh trick, seen player by player. `before` and `after` are
   * the players' hands when the trick opens and when it closes.
   */
  method RunTurn(turn: GameTurn) returns (r: Result<Card>, ghost trick: seq<Card>,
                                          ghost before: seq<seq<seq<Card>>>, ghost after: seq<seq<seq<Card>>>)
    requires turn.starter.turn.Some? && turn.starter.turn.value < |turn.players| && turn.cards == []
    requires turn.players[turn.starter.turn.value] == turn.starter
    requires DistinctPlayers(turn.players) && forall p :: p in turn.players ==> p.Valid()
    modifies turn`cards, turn`suit, (set p | p in turn.players)`cards
    ensures |before| == |after| == |turn.players|
    ensures forall k :: 0 <= k < |turn.players| ==>
      before[k] == old(turn.players[k].cards) && after[k] == turn.players[k].cards && turn.players[k].Valid()
    ensures AllBots(turn.players) && Stocked(before, 1) ==> r.Ok?
    ensures r.Ok? ==> |trick| == |turn.players| && r.value == MaxCard(trick) && WinsTrick(trick, r.value)
    ensures r.Ok? ==> TrickTaken(before, after, trick, turn.starter.turn.value, r.value)
  {
    before := HandsOf(turn.players);
    ghost var n, start := |turn.players|, turn.starter.turn.value;
    ghost var seats := Seats(start, n);
    assert AllBots(turn.players) && Stocked(before, 1) ==>
      forall p :: p in turn.players ==> p.isBot && p.AllCards() != [];
    ghost var olds, news;
    r, trick, olds, news := turn.Start();
    after := HandsOf(turn.players);
    if r.Ok? {
      assert [] + trick == trick;
      forall k | 0 <= k < n ensures olds[k] == before[seats[k]] && news[k] == after[seats[k]] {
        var i := seats[k];
        assert before[i] == old(turn.players[i].cards);
        assert after[i] == turn.players[i].cards;
      }
      TrickPerPlayer(before, after, olds, news, trick, start, seats, r.value);
    }
  }

  /**
   * The per-seat record of a trick, read per player: seat k of the order from `start` is
   * player seats[k], so every player lost exactly the card it played.
   */
  lemma TrickPerPlayer(before: seq<seq<seq<Card>>>, after: seq<seq<seq<Card>>>, olds: seq<seq<seq<Card>>>,
                       news: seq<seq<seq<Card>>>, trick: seq<Card>, start: nat, seats: seq<nat>, winner: Card)
    requires start < |before| && |after| == |before| && |olds| == |news| == |trick| == |before|
    requires seats == Seats(start, |before|)
    requires forall k :: 0 <= k < |before| ==> olds[k] == before[seats[k]] && news[k] == after[seats[k]]
    requires forall k :: 0 <= k < |before| ==> SeatLost(olds, news, trick, k)
    requires exists k :: 0 <= k < |before| && winner in Flatten(olds[k])
    ensures TrickTaken(before, after, trick, start, winner)
  {
    var n := |before|;
    forall i | 0 <= i < n ensures Lost(before, after, i, 1) {
      var j := SeatPosition(start, n, i);
      assert olds[j] == before[i] && news[j] == after[i] && SeatLost(olds, news, trick, j);
    }
    SeatsOrder(start, n);
    assert SeatLost(olds, news, trick, 0);
    var w :| 0 <= w < n && winner in Flatten(olds[w]);
    assert winner in Flatten(before[seats[w]]);
  }

  /**
   * After a trick the players still own every card they hold; the led card was the
   * starter's and the winning card some player's.
   */
  lemma TakenOwned(players: seq<Player>, before: seq<seq<seq<Card>>>, after: seq<seq<seq<Card>>>,
                   trick: seq<Card>, start: nat, winner: Card)
    requires |before| == |after| == |players|
    requires forall k :: 0 <= k < |players| ==> after[k] == players[k].cards
    requires forall k, c :: 0 <= k < |players| && c in Flatten(before[k]) ==> c.owner == players[k]
    requires TrickTaken(before, after, trick, start, winner)
    ensures Owned(players) && trick[0].owner == players[start] && winner.owner in players
  {
    forall k, c | 0 <= k < |players| && c in Flatten(players[k].cards) ensures c.owner == players[k] {
      assert Lost(before, after, k, 1);
      assert c in multiset(Flatten(before[k]));
    }
    var w :| 0 <= w < |before| && winner in Flatten(before[w]);
  }

  /** `hands` is what every player holds right now. */
  ghost predicate Holding(players: seq<Player>, hands: seq<seq<seq<Card>>>)
    reads set p | p in players
  {
    |hands| == |players| && forall k :: 0 <= k < |players| ==> hands[k] == players[k].cards
  }

  /** Every hand has lost `count` of its cards since h0, and taken none. */
  ghost predicate LostAll(h0: seq<seq<seq<Card>>>, hands: seq<seq<seq<Card>>>, count: nat) {
    |hands| == |h0| && forall k :: 0 <= k < |h0| ==> Lost(h0, hands, k, count)
  }

  lemma LostAllStep(h0: seq<seq<seq<Card>>>, mid: seq<seq<seq<Card>>>, after: seq<seq<seq<Card>>>, count: nat)
    requires LostAll(h0, mid, count) && LostAll(mid, after, 1)
    ensures LostAll(h0, after, count + 1)
  {
    var total := count + 1;
    forall k | 0 <= k < |h0| ensures Lost(h0, after, k, total) {
      LostStep(h0, mid, mid, after, k, count, 1);
    }
  }

  /** Every card of `own` still records the owner `own` gives it. */
  ghost predicate Agrees(own: map<Card, Player?>)
    reads own.Keys
  {
    forall c :: c in own ==> c.owner == own[c]
  }

  /**
   * A snapshot of the owners the cards of `hands` record: each hand's cards map to the
   * player holding it.
   */
  lemma OwnerSnapshot(players: seq<Player>, hands: seq<seq<seq<Card>>>) returns (own: map<Card, Player?>)
    requires Owned(players) && Holding(players, hands)
    ensures OwnedBy(own, hands, players) && Agrees(own)
  {
    var held := set k, c | 0 <= k < |hands| && c in Flatten(hands[k]) :: c;
    own := map c | c in held :: c.owner;
    forall k, c | 0 <= k < |players| && c in Flatten(hands[k]) ensures c in own && own[c] == players[k] {
      assert c in held;
    }
  }

  /** Each card of hand k of `hands` is a key of `own`, mapped to players[k]. */
  ghost predicate OwnedBy(own: map<Card, Player?>, hands: seq<seq<seq<Card>>>, players: seq<Player>) {
    |hands| == |players| &&
    forall k, c :: 0 <= k < |players| && c in Flatten(hands[k]) ==> c in own && own[c] == players[k]
  }

  /** Hands that only lost cards are still owned as before. */
  lemma OwnedByLost(own: map<Card, Player?>, h0: seq<seq<seq<Card>>>, cur: seq<seq<seq<Card>>>,
                    players: seq<Player>, i: nat)
    requires OwnedBy(own, h0, players) && LostAll(h0, cur, i)
    ensures OwnedBy(own, cur, players)
  {
    forall k, c | 0 <= k < |players| && c in Flatten(cur[k]) ensures c in own && own[c] == players[k] {
      assert Lost(h0, cur, k, i);
      assert c in multiset(Flatten(h0[k]));
    }
  }

  /** Every trick has one card per player and is won by its greatest card. */
  ghost predicate TricksWon(tricks: seq<seq<Card>>, n: nat) {
    forall t :: 0 <= t < |tricks| ==> |tricks[t]| == n > 0 && WinsTrick(tricks[t], MaxCard(tricks[t]))
  }

  /** Trick t was led with a card of starters[t], owners read from `own`. */
  ghost predicate LedBy(own: map<Card, Player?>, tricks: seq<seq<Card>>, starters: seq<Player>) {
    |tricks| == |starters| &&
    forall t :: 0 <= t < |tricks| ==> tricks[t] != [] && tricks[t][0] in own && own[tricks[t][0]] == starters[t]
  }

  /** The owner of the card that wins trick t leads trick t + 1. */
  ghost predicate Chained(own: map<Card, Player?>, tricks: seq<seq<Card>>, starters: seq<Player>) {
    |tricks| == |starters| &&
    forall t :: 0 <= t && t + 1 < |tricks| ==>
      tricks[t] != [] && MaxCard(tricks[t]) in own && starters[t + 1] == own[MaxCard(tricks[t])]
  }

  lemma TricksWonSnoc(tricks: seq<seq<Card>>, n: nat, trick: seq<Card>)
    requires TricksWon(tricks, n) && |trick| == n > 0 && WinsTrick(trick, MaxCard(trick))
    ensures TricksWon(tricks + [trick], n)
  {
    var tricks' := tricks + [trick];
    forall t | 0 <= t < |tricks'| ensures |tricks'[t]| == n > 0 && WinsTrick(tricks'[t], MaxCard(tricks'[t])) {
      if t < |tricks| {
        assert tricks'[t] == tricks[t];
      }
    }
  }

  lemma LedBySnoc(own: map<Card, Player?>, tricks: seq<seq<Card>>, starters: seq<Player>, trick: seq<Card>, starter: Player)
    requires LedBy(own, tricks, starters) && trick != [] && trick[0] in own && own[trick[0]] == starter
    ensures LedBy(own, tricks + [trick], starters + [starter])
  {
    var tricks', starters' := tricks + [trick], starters + [starter];
    forall t | 0 <= t < |tricks'|
      ensures tricks'[t] != [] && tricks'[t][0] in own && own[tricks'[t][0]] == starters'[t]
    {
      if t < |tricks| {
        assert tricks'[t] == tricks[t] && starters'[t] == starters[t];
      } else {
        assert tricks'[t] == trick && starters'[t] == starter;
      }
    }
  }

  lemma ChainedSnoc(own: map<Card, Player?>, tricks: seq<seq<Card>>, starters: seq<Player>, trick: seq<Card>, starter: Player)
    requires Chained(own, tricks, starters)
    requires tricks != [] ==> Last(tricks) != [] && MaxCard(Last(tricks)) in own && starter == own[MaxCard(Last(tricks))]
    ensures Chained(own, tricks + [trick], starters + [starter])
  {
    var tricks', starters' := tricks + [trick], starters + [starter];
    forall t | 0 <= t && t + 1 < |tricks'|
      ensures tricks'[t] != [] && MaxCard(tricks'[t]) in own && starters'[t + 1] == own[MaxCard(tricks'[t])]
    {
      assert tricks'[t] == tricks[t];
      if t + 1 < |tricks| {
        assert starters'[t + 1] == starters[t + 1];
      } else {
        assert starters'[t + 1] == starter;
      }
    }
  }

  function Last<T>(s: seq<T>): T
    requires s != []
  {
    s[|s| - 1]
  }

  /**
   * A round after i tricks, on values: every hand is i cards short of h0, the tricks were led
   * and won as the rules say, and `starter` leads next (`first` led the first trick).
   */
  ghost predicate Round(players: seq<Player>, h0: seq<seq<seq<Card>>>, own: map<Card, Player?>,
                        cur: seq<seq<seq<Card>>>, tricks: seq<seq<Card>>, starters: seq<Player>,
                        starter: Player?, first: Player, i: nat)
  {
    OwnedBy(own, h0, players) && LostAll(h0, cur, i) && |tricks| == i &&
    TricksWon(tricks, |players|) && LedBy(own, tricks, starters) && Chained(own, tricks, starters) &&
    (i == 0 ==> starter == first) &&
    (i > 0 ==> starters[0] == first && Last(tricks) != [] && MaxCard(Last(tricks)) in own &&
               starter == own[MaxCard(Last(tricks))])
  }

  /** One more trick, led by `starter` from seat m and won by the card of seat `seat`. */
  lemma RoundStep(players: seq<Player>, h0: seq<seq<seq<Card>>>, own: map<Card, Player?>,
                  cur: seq<seq<seq<Card>>>, tricks: seq<seq<Card>>, starters: seq<Player>,
                  starter: Player, first: Player, i: nat,
                  trick: seq<Card>, after: seq<seq<seq<Card>>>, winner: Card, seat: nat, m: nat)
    requires Round(players, h0, own, cur, tricks, starters, starter, first, i)
    requires m < |players| && players[m] == starter && trick != [] && trick[0] in Flatten(cur[m])
    requires |trick| == |players| && winner == MaxCard(trick) && WinsTrick(trick, winner)
    requires seat < |players| && winner in Flatten(cur[seat]) && LostAll(cur, after, 1)
    ensures Round(players, h0, own, after, tricks + [trick], starters + [starter], players[seat], first, i + 1)
  {
    OwnedByLost(own, h0, cur, players, i);
    LostAllStep(h0, cur, after, i);
    OwnedAt(own, cur, players, m, trick[0]);
    OwnedAt(own, cur, players, seat, winner);
    TricksWonSnoc(tricks, |players|, trick);
    LedBySnoc(own, tricks, starters, trick, starter);
    ChainedSnoc(own, tricks, starters, trick, starter);
    assert Last(tricks + [trick]) == trick;
    if i > 0 {
      assert (starters + [starter])[0] == starters[0];
    }
  }

  /**
   * What a round after i tricks says trick by trick: each hand lost i cards and took none,
   * trick t has one card per player, is won by its greatest card and was led by starters[t];
   * the first trick was led by `first` and the winner of trick t leads trick t + 1.
   */
  lemma RoundFacts(players: seq<Player>, h0: seq<seq<seq<Card>>>, own: map<Card, Player?>,
                   cur: seq<seq<seq<Card>>>, tricks: seq<seq<Card>>, starters: seq<Player>,
                   starter: Player?, first: Player, i: nat)
    requires Round(players, h0, own, cur, tricks, starters, starter, first, i)
    ensures |tricks| == i && |starters| == i && (i > 0 ==> starters[0] == first)
    ensures forall k :: 0 <= k < |h0| ==>
      |Flatten(cur[k])| + i == |Flatten(h0[k])| && multiset(Flatten(cur[k])) <= multiset(Flatten(h0[k]))
    ensures forall t :: 0 <= t < i ==>
      |tricks[t]| == |players| > 0 && WinsTrick(tricks[t], MaxCard(tricks[t])) &&
      tricks[t][0] in own && own[tricks[t][0]] == starters[t]
    ensures forall t :: 0 <= t && t + 1 < i ==> MaxCard(tricks[t]) in own && starters[t + 1] == own[MaxCard(tricks[t])]
  {
    forall k | 0 <= k < |h0|
      ensures |Flatten(cur[k])| + i == |Flatten(h0[k])| && multiset(Flatten(cur[k])) <= multiset(Flatten(h0[k]))
    {
      assert Lost(h0, cur, k, i);
    }
  }

  /** Thirteen tricks from thirteen-card hands leave every hand empty. */
  lemma RoundEmptiesHands(players: seq<Player>, h0: seq<seq<seq<Card>>>, own: map<Card, Player?>,
                          cur: seq<seq<seq<Card>>>, tricks: seq<seq<Card>>, starters: seq<Player>,
                          starter: Player?, first: Player)
    requires Round(players, h0, own, cur, tricks, starters, starter, first, 13)
    requires forall k :: 0 <= k < |h0| ==> |Flatten(h0[k])| == 13
    ensures |cur| == |h0| && forall k :: 0 <= k < |cur| ==> Flatten(cur[k]) == []
  {
    forall k | 0 <= k < |cur| ensures Flatten(cur[k]) == [] {
      assert Lost(h0, cur, k, 13);
    }
  }

  /** A card of hand k of `hands` maps to player k. */
  lemma OwnedAt(own: map<Card, Player?>, hands: seq<seq<seq<Card>>>, players: seq<Player>, k: nat, c: Card)
    requires OwnedBy(own, hands, players) && k < |players| && c in Flatten(hands[k])
    ensures c in own && own[c] == players[k]
  {
  }

  /** Every player is a bot. */
  predicate AllBots(players: seq<Player>) {
    forall k :: 0 <= k < |players| ==> players[k].isBot
  }

  /** Every hand holds at least m cards. */
  ghost predicate Stocked(hands: seq<seq<seq<Card>>>, m: nat) {
    forall k :: 0 <= k < |hands| ==> |Flatten(hands[k])| >= m
  }

  /** Hands that started with m cards each and lost i < m of them each still hold a card. */
  lemma StockedLost(h0: seq<seq<seq<Card>>>, cur: seq<seq<seq<Card>>>, i: nat, m: nat)
    requires i < m && Stocked(h0, m) && LostAll(h0, cur, i)
    ensures Stocked(cur, 1)
  {
    forall k | 0 <= k < |cur| ensures |Flatten(cur[k])| >= 1 {
      assert Lost(h0, cur, k, i);
    }
  }

  // ===========================================================================
  // A round

  class CallBreak {
    /** The deck; CallBreak.cards is this very list (self.cards = self.deck.cards). */
    const deck: Deck
    const players: seq<Player>
    /** The class attribute round_count: the round's first starter is players[round_count]. */
    const roundCount: nat := 0

    /** CallBreak.__init__: a fresh deck, and every player learns its seat. */
    constructor (players: seq<Player>)
      modifies (set p | p in players)`turn
      ensures this.players == players
      ensures fresh(deck) && FreshPack(deck.cards) && forall i :: 0 <= i < |deck.cards| ==> fresh(deck.cards[i])
      ensures forall p :: p in players ==> p.turn.Some? && p.turn.value < |players| && players[p.turn.value] == p
      ensures DistinctPlayers(players) ==> forall i :: 0 <= i < |players| ==> players[i].turn == Some(i)
    {
      for i := 0 to |players|
        invariant forall j :: 0 <= j < i ==>
          players[j].turn.Some? && players[j].turn.value < i && players[players[j].turn.value] == players[j]
      {
        players[i].turn := Some(i);
      }
      deck := new Deck();
      this.players := players;
    }

    /**
     * The table between tricks: distinct players, each seated at its own index, holding a
     * well-formed hand whose cards all name it as owner.
     */
    ghost predicate Table()
      reads set p | p in players
      reads Held(players)
    {
      DistinctPlayers(players) &&
      (forall i :: 0 <= i < |players| ==> players[i].turn == Some(i) && players[i].Valid()) &&
      Owned(players)
    }

    /** CallBreak.shuffle: random.shuffle of the deck's list, under the given draws. */
    method Shuffle(draws: seq<nat>)
      requires Randomness.ShuffleDraws(draws, |deck.cards|)
      modifies deck`cards
      ensures deck.cards == Randomness.Shuffled(old(deck.cards), draws)
      ensures multiset(deck.cards) == multiset(old(deck.cards))
    {
      deck.cards := Randomness.Shuffle(deck.cards, draws);
    }

    /**
     * CallBreak.distribute: card i of the deck is collected by players[i % n]. With no
     * players and some cards, i % 0 fails.
     */
    method Distribute() returns (r: Result<()>)
      requires DistinctPlayers(players) && forall k :: 0 <= k < |players| ==> players[k].Valid()
      modifies (set p | p in players)`cards, (set c | c in deck.cards)`owner
      modifies (set c | c in deck.cards)`index, Held(players)`index
      ensures r.Err? <==> |players| == 0 && |deck.cards| > 0
      ensures r.Err? ==> r.error == ZeroDivision
      ensures forall k :: 0 <= k < |players| ==> players[k].Valid()
      ensures r.Ok? ==> forall k :: 0 <= k < |players| ==>
        old(players[k].Valid()) && players[k].cards == DealtHand(old(players[k].cards), Dealt(deck.cards, |players|, k))
      ensures r.Ok? && Distinct(deck.cards) ==> forall i :: 0 <= i < |deck.cards| ==> deck.cards[i].owner == players[i % |players|]
      ensures r.Ok? && Distinct(deck.cards) && (forall k :: 0 <= k < |players| ==> old(players[k].AllCards()) == []) ==>
        Owned(players)
    {
      var n := |players|;
      var cs := deck.cards;
      if n == 0 {
        r := if |cs| > 0 then Err(ZeroDivision) else Ok(());
        return;
      }
      ghost var pool := Held(players) + set c | c in cs;
      ghost var h0 := HandsOf(players);
      ghost var hands := h0;
      ghost var owners: seq<Player> := [];
      assert FourBuckets(h0);
      forall k, c | 0 <= k < n && c in Flatten(hands[k]) ensures c in pool {
        assert c in Flatten(players[k].cards);
      }
      for i := 0 to |cs|
        invariant Dealing(pool, h0, hands, owners, i)
      {
        hands, owners := DealOne(i, pool, h0, hands, owners);
      }
      DealingDone(pool, h0, hands, owners);
      r := Ok(());
    }

    /** CallBreak.ready: the deck is shuffled, then dealt. */
    method Ready(draws: seq<nat>) returns (r: Result<()>)
      requires Randomness.ShuffleDraws(draws, |deck.cards|)
      requires DistinctPlayers(players) && forall k :: 0 <= k < |players| ==> players[k].Valid()
      modifies deck`cards, (set p | p in players)`cards, (set c | c in deck.cards)`owner
      modifies (set c | c in deck.cards)`index, Held(players)`index
      ensures deck.cards == Randomness.Shuffled(old(deck.cards), draws)
      ensures r.Err? <==> |players| == 0 && |deck.cards| > 0
      ensures forall k :: 0 <= k < |players| ==> players[k].Valid()
      ensures r.Ok? ==> forall k :: 0 <= k < |players| ==>
        old(players[k].Valid()) && players[k].cards == DealtHand(old(players[k].cards), Dealt(deck.cards, |players|, k))
      ensures r.Ok? && Distinct(old(deck.cards)) && (forall k :: 0 <= k < |players| ==> old(players[k].AllCards()) == []) ==>
        Owned(players)
    {
      ghost var before := deck.cards;
      Shuffle(draws);
      assert forall c :: c in deck.cards <==> c in before by {
        forall c ensures c in deck.cards <==> c in before {
          assert c in deck.cards <==> c in multiset(deck.cards);
          assert c in before <==> c in multiset(before);
        }
      }
      if Distinct(before) {
        PermutedDistinct(before, deck.cards);
      }
      r := Distribute();
    }

    /**
     * One iteration of CallBreak.start: a GameTurn from the given starter plays one trick.
     * On success every player has given up exactly one card and the winner belongs to a
     * player at the table.
     */
    method PlayTrick(starter: Player, ghost hands: seq<seq<seq<Card>>>, ghost own: map<Card, Player?>)
      returns (r: Result<Card>, ghost trick: seq<Card>, ghost after: seq<seq<seq<Card>>>, ghost seat: nat)
      requires Table() && starter in players
      requires Holding(players, hands) && Agrees(own) && OwnedBy(own, hands, players)
      modifies (set p | p in players)`cards
      ensures Holding(players, after) && Agrees(own) && forall k :: 0 <= k < |players| ==> players[k].Valid()
      ensures AllBots(players) && Stocked(hands, 1) ==> r.Ok?
      ensures r.Ok? ==> Table()
      ensures r.Ok? ==> |trick| == |players| && r.value == MaxCard(trick) && WinsTrick(trick, r.value)
      ensures r.Ok? ==> trick[0].owner == starter && trick[0] in Flatten(hands[starter.turn.value])
      ensures r.Ok? ==> seat < |players| && r.value in Flatten(hands[seat]) && r.value.owner == players[seat]
      ensures r.Ok? ==> LostAll(hands, after, 1)
    {
      assert forall p :: p in players ==> p.Valid();
      var turn := new GameTurn(starter, players);
      ghost var before;
      r, trick, before, after := RunTurn(turn);
      assert before == hands;
      forall c | c in own ensures c.owner == own[c] {
        assert old(c.owner) == own[c];
      }
      seat := 0;
      if r.Ok? {
        forall k, c | 0 <= k < |players| && c in Flatten(before[k]) ensures c.owner == players[k] {
          OwnedAt(own, before, players, k, c);
        }
        TakenOwned(players, before, after, trick, starter.turn.value, r.value);
        seat :| seat < |players| && r.value in Flatten(hands[seat]);
      }
    }

    /**
     * One pass of CallBreak.start's loop: `starter` leads a trick, and the owner of the
     * winning card is the next starter.
     */
    method NextTrick(starter: Player, ghost i: nat, ghost hands0: seq<seq<seq<Card>>>, ghost own: map<Card, Player?>,
                     ghost hands: seq<seq<seq<Card>>>, ghost tricks: seq<seq<Card>>, ghost starters: seq<Player>)
      returns (r: Result<Player>, ghost trick: seq<Card>, ghost after: seq<seq<seq<Card>>>)
      requires Table() && starter in players && Holding(players, hands) && Agrees(own)
      requires |players| > 0 && Round(players, hands0, own, hands, tricks, starters, starter, players[roundCount], i)
      modifies (set p | p in players)`cards
      ensures Holding(players, after) && Agrees(own) && forall k :: 0 <= k < |players| ==> players[k].Valid()
      ensures AllBots(players) && Stocked(hands, 1) ==> r.Ok?
      ensures r.Ok? ==> Table() && r.value in players
      ensures r.Ok? ==>
        Round(players, hands0, own, after, tricks + [trick], starters + [starter], r.value, players[roundCount], i + 1)
    {
      var w;
      ghost var seat;
      OwnedByLost(own, hands0, hands, players, i);
      w, trick, after, seat := PlayTrick(starter, hands, own);
      if w.Err? {
        r := Err(w.error);
        return;
      }
      RoundStep(players, hands0, own, hands, tricks, starters, starter, players[roundCount], i,
                trick, after, w.value, seat, starter.turn.value);
      r := Ok(w.value.owner);
    }

    /**
     * CallBreak.start: players[round_count] starts the first of 13 tricks, and the owner of
     * each trick's winning card starts the next.
     */
    method Start() returns (r: Result<()>, ghost tricks: seq<seq<Card>>, ghost starters: seq<Player>,
                            ghost hands0: seq<seq<seq<Card>>>, ghost hands: seq<seq<seq<Card>>>,
                            ghost own: map<Card, Player?>, ghost next: Player?)
      requires Table()
      modifies (set p | p in players)`cards
      ensures forall k :: 0 <= k < |players| ==> players[k].Valid()
      ensures |players| == 0 ==> r == Err(IndexOutOfRange)
      ensures |players| > 0 && AllBots(players) && (forall k :: 0 <= k < |players| ==> |old(players[k].AllCards())| >= 13) ==>
        r.Ok?
      ensures r.Ok? ==> Table() && Agrees(own) && Holding(players, hands)
      ensures r.Ok? ==> |hands0| == |players| && forall k :: 0 <= k < |players| ==> hands0[k] == old(players[k].cards)
      ensures r.Ok? ==> |players| > 0 && Round(players, hands0, own, hands, tricks, starters, next, players[roundCount], 13)
    {
      if |players| == 0 {
        r, tricks, starters, hands0, hands, own, next := Err(IndexOutOfRange), [], [], [], [], map[], null;
        return;
      }
      hands0 := HandsOf(players);
      own := OwnerSnapshot(players, hands0);
      assert Stocked(hands0, 13) <==> forall k :: 0 <= k < |players| ==> |old(players[k].AllCards())| >= 13;
      r, tricks, starters, hands, next := PlayRound(hands0, own);
    }

    /** CallBreak.start's loop: the 13 tricks of a round, each led by the previous trick's winner. */
    method PlayRound(ghost hands0: seq<seq<seq<Card>>>, ghost own: map<Card, Player?>)
      returns (r: Result<()>, ghost tricks: seq<seq<Card>>, ghost starters: seq<Player>,
               ghost hands: seq<seq<seq<Card>>>, ghost next: Player?)
      requires Table() && |players| > 0 && Holding(players, hands0) && Agrees(own) && OwnedBy(own, hands0, players)
      modifies (set p | p in players)`cards
      ensures forall k :: 0 <= k < |players| ==> players[k].Valid()
      ensures AllBots(players) && Stocked(hands0, 13) ==> r.Ok?
      ensures r.Ok? ==> Table() && Agrees(own) && Holding(players, hands)
      ensures r.Ok? ==> Round(players, hands0, own, hands, tricks, starters, next, players[roundCount], 13)
    {
      var starter: Player := players[roundCount];
      ghost var full := AllBots(players) && Stocked(hands0, 13);
      tricks, starters, hands := [], [], hands0;
      for i := 0 to 13
        invariant Table() && starter in players && Holding(players, hands) && Agrees(own)
        invariant Round(players, hands0, own, hands, tricks, starters, starter, players[roundCount], i)
      {
        if full {
          StockedLost(hands0, hands, i, 13);
        }
        var w;
        ghost var trick, after;
        w, trick, after := NextTrick(starter, i, hands0, own, hands, tricks, starters);
        if w.Err? {
          r, next := Err(w.error), starter;
          return;
        }
        hands, tricks, starters, starter := after, tricks + [trick], starters + [starter], w.value;
      }
      r, next := Ok(()), starter;
    }

    /**
     * The deal after its first i cards: seat k holds the replayed hand, every card of every
     * hand lies in pool, and card j went to seat j % n.
     */
    ghost predicate Dealing(pool: set<Card>, h0: seq<seq<seq<Card>>>, hands: seq<seq<seq<Card>>>, owners: seq<Player>, i: nat)
      reads deck, set p | p in players
      reads set c | c in deck.cards
    {
      var n := |players|;
      var cs := deck.cards;
      n > 0 && |h0| == n && FourBuckets(h0) && i <= |cs| && DistinctPlayers(players) &&
      (forall k :: 0 <= k < n ==> WellFormed(h0[k])) &&
      (set c | c in cs) <= pool &&
      hands == Deal(h0, cs, i) &&
      (forall k :: 0 <= k < n ==> players[k].cards == hands[k] && WellFormed(hands[k])) &&
      (forall k, c :: 0 <= k < n && c in Flatten(hands[k]) ==> c in pool) &&
      |owners| == i && (forall j :: 0 <= j < i ==> owners[j] == players[j % n]) &&
      (Distinct(cs) ==> forall j :: 0 <= j < i ==> cs[j].owner == owners[j])
    }

    /** What the finished deal leaves: each seat holds its share, and each card its owner. */
    lemma DealingDone(pool: set<Card>, h0: seq<seq<seq<Card>>>, hands: seq<seq<seq<Card>>>, owners: seq<Player>)
      requires Dealing(pool, h0, hands, owners, |deck.cards|)
      ensures forall k :: 0 <= k < |players| ==>
        players[k].Valid() && players[k].cards == DealtHand(h0[k], Dealt(deck.cards, |players|, k))
      ensures Distinct(deck.cards) ==> forall i :: 0 <= i < |deck.cards| ==> deck.cards[i].owner == players[i % |players|]
      ensures Distinct(deck.cards) && (forall k :: 0 <= k < |players| ==> Flatten(h0[k]) == []) ==> Owned(players)
    {
      var cs, n := deck.cards, |players|;
      assert forall k :: 0 <= k < n ==> players[k].Valid() && players[k].cards == DealtHand(h0[k], Dealt(cs, n, k)) by {
        DealMatches(h0, cs, |cs|);
        assert cs[..|cs|] == cs;
      }
      assert Distinct(cs) ==> forall i :: 0 <= i < |cs| ==> cs[i].owner == players[i % n];
      if Distinct(cs) && forall k :: 0 <= k < n ==> Flatten(h0[k]) == [] {
        DealtOwned(players, cs, h0);
      }
    }

    /** One pass of the dealing loop: card i goes to players[i % n]. */
    method DealOne(i: nat, ghost pool: set<Card>, ghost h0: seq<seq<seq<Card>>>, ghost hands: seq<seq<seq<Card>>>,
                   ghost owners: seq<Player>) returns (ghost hands': seq<seq<seq<Card>>>, ghost owners': seq<Player>)
      requires Dealing(pool, h0, hands, owners, i) && i < |deck.cards|
      modifies (set p | p in players)`cards, (set c | c in deck.cards)`owner, pool`index
      ensures Dealing(pool, h0, hands', owners', i + 1)
    {
      var n := |players|;
      var cs := deck.cards;
      var k := i % n;
      var player := players[k];
      Receive(player, cs[i], pool);
      hands' := hands[k := player.cards];
      owners' := owners + [player];
      assert forall k' :: 0 <= k' < n ==> players[k'].cards == hands'[k'] && WellFormed(hands'[k']) by {
        forall k' | 0 <= k' < n ensures players[k'].cards == hands'[k'] && WellFormed(hands'[k']) {
          if k' != k {
            assert players[k'] != player;
            assert hands'[k'] == hands[k'];
          }
        }
      }
      assert forall k', c :: 0 <= k' < n && c in Flatten(hands'[k']) ==> c in pool by {
        forall k', c | 0 <= k' < n && c in Flatten(hands'[k']) ensures c in pool {
          if k' != k {
            assert hands'[k'] == hands[k'];
          }
        }
      }
      assert forall j :: 0 <= j < i + 1 ==> owners'[j] == players[j % n] by {
        forall j | 0 <= j < i + 1 ensures owners'[j] == players[j % n] {
          if j < i {
            assert owners'[j] == owners[j];
          }
        }
      }
      assert Distinct(cs) ==> forall j :: 0 <= j < i + 1 ==> cs[j].owner == owners'[j] by {
        if Distinct(cs) {
          forall j | 0 <= j < i + 1 ensures cs[j].owner == owners'[j] {
            if j < i {
              assert cs[j] != cs[i];
              assert owners'[j] == owners[j];
            }
          }
        }
      }
    }
  }
}
