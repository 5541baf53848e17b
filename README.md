# CallBreak engine and call estimator, in Dafny

This project models the core of the CallBreak card game of suzanshakya/callbreak, a Python 2 program, and proves properties of the model. The core has two parts.

The card engine (`callbreak_card.py`):
- the Face and Suit tables, the name lookup of `make_card` and the card order of `Card.__lt__`;
- the 52-card deck of `Deck.load`, its shuffle and the round-robin deal of `CallBreak.distribute`;
- a player's hand of four suit buckets. `Player.collect` adds a card to its bucket and, at the thirteenth card, sorts the buckets and numbers the cards. `Player.play` takes a card out again;
- the legal-card rule (`get_greater_cards`, `get_legal_cards`) and the bot policy (`think_to_play`);
- a trick (`GameTurn`: the seat iterator, the led suit, the winning card by `max`);
- a round (`CallBreak.start`: 13 tricks, each led by the owner of the previous winning card).

The call estimator (`probab.py`, `call.py`):
- the heart-distribution simulation: a token list, shuffled and cut into equal slices;
- the spade budget split;
- `contains_min` and `contains_max`;
- the batched Monte-Carlo ratio `get_prob`;
- the per-card chance `win_chance_for_card`, summed over a hand by `can_win` and `suggest_call`.

Modules, one per concern:
- `Errors` (errors.dfy): the error kinds the source raises, plus `Result` and `Option`.
- `Arith` (arith.dfy): small facts about `/`, `%` and `*`.
- `Cards` (cards.dfy): the Face and Suit tables, the name lookup and the deck layout.
- `Engine` (engine.dfy): the `Card`, `Player` and `GameTurn` classes. They refer to one another, so they share a module. It also holds the legal-card rule, the bot policy, sorting and the seat order.
- `Round` (round.dfy):
  - the `Deck` class and the deal;
  - the `CallBreak` class;
  - the value-level description of a trick and a round (`Round`, `RoundFacts`).
- `Randomness` (randomness.dfy): `random.shuffle` as CPython's Fisher-Yates loop, over a sequence of supplied draws.
- `Probab` (probab.py) and `Call` (call.py).

How the source's state is modelled:
- A card's `owner` and `index` are written in place, and a round reads `winning_card.owner`. So `Card` is a class with two mutable fields beside its constant face and suit.
- A player's buckets are a `seq<seq<Card>>` field that `Collect`, `Arrange` and `Play` reassign. A trick's cards are a `seq<Card>` field of `GameTurn`.
- Randomness is a parameter:
  - `random.shuffle` takes a draw sequence, with each draw j_i in [0, i];
  - `random_gen` is an oracle function;
  - the Monte-Carlo trials take one draw sequence per batch and trial.
- Python floats are exact `real`s.

Where the specification and the code disagree, the model follows the code:
- `get_prob` does not round to two decimals. It multiplies by 100 and divides by 100 again (probab.py:27). `Probab.GetProb` is the exact minimum ratio.
- An ace with all 13 cards of its suit is said to approach probability 1. In the code the other players then hold no card of the suit, so `contains_min` fails in every trial and the chance is exactly 0. `Call.WinChanceFullSuit` proves this for every card.
- A void player with only lower spades is said to get "no cards" on the spade-cut branch. The code falls through to the whole hand with the flag false (callbreak_card.py:162-168). `Engine.LegalCards` guarantees a non-empty result for a non-empty hand.

## Model

| member | source | states |
|---|---|---|
| Cards.FacesTable | callbreak_card.py:6-14 | There are 13 faces with pairwise different names and values; every value is in 2..14 (ace 14). |
| Cards.SuitsTable | callbreak_card.py:16-22 | There are four suits, suit i has bucket order i, the names differ, and every suit sits in the table at its own order. |
| Cards.SuitIdentity | callbreak_card.py:16-22 | Two suits with the same name, or with the same order, are the same suit. |
| Cards.FirstNamed | callbreak_card.py:26-29 | The for/break search finds something iff some entry has the name; it returns the first such index. |
| Cards.LookupFace | callbreak_card.py:25-30 | The face lookup succeeds iff the upper-cased name is a table face, and returns that face; otherwise the error is InvalidFace with the folded name. |
| Cards.LookupSuit | callbreak_card.py:31-36 | The suit lookup succeeds iff the lower-cased name is a table suit, and returns that suit; otherwise the error is InvalidSuit. |
| Cards.CheckCard | callbreak_card.py:24-37 | make_card succeeds iff both names are valid and returns the pair the Card is built from; a bad face is reported before a bad suit. |
| Cards.Upper | callbreak_card.py:25 | str.upper on ASCII: same length, each letter a-z mapped to A-Z and every other character kept; CaseFolding and LookupIgnoresCase state its effect on the lookup. |
| Cards.Lower | callbreak_card.py:31 | str.lower on ASCII: same length, each letter A-Z mapped to a-z and every other character kept; see CaseFolding. |
| Cards.TableNamesFolded | callbreak_card.py:6-22 | Face names are already upper case and suit names already lower case. |
| Cards.LookupRoundTrip | callbreak_card.py:24-37 | Every table face name and suit name looks up to its own entry. |
| Cards.CaseFolding | callbreak_card.py:25-31 | Upper-casing after lower-casing a character is the same as upper-casing it, and the other way round. |
| Cards.LookupIgnoresCase | callbreak_card.py:24-37 | The lookup gives the same result whatever the case of the given names. |
| Cards.LayoutPosition | callbreak_card.py:59-60 | Position 13*si+fi of the pack is face fi of suit si. |
| Cards.LayoutDistinct | callbreak_card.py:59-60 | Two different positions of the pack hold different (face, suit) pairs. |
| Cards.LayoutSuit | callbreak_card.py:59-60 | Position i holds suit si exactly when i lies in the block 13*si .. 13*si+12: 13 cards per suit. |
| Cards.DeckLayoutFacts | callbreak_card.py:59-60 | All three layout facts, for the whole pack at once. |
| Engine.Card.constructor | callbreak_card.py:39-42 | A new card has the given face and suit, no owner and no index yet. |
| Engine.CardOrder | callbreak_card.py:44-48 | Same suit: less iff lower face value. Different suits: less iff lower suit value. So every spade beats every non-spade, and cards of two different non-spade suits are mutually not-less. |
| Engine.Less | callbreak_card.py:44-48 | Card.__lt__ (same suit name: face values; otherwise suit values); its properties are stated by CardOrder and LessStrictOrder. |
| Engine.LessStrictOrder | callbreak_card.py:44-48 | The card order is irreflexive, asymmetric and transitive. |
| Engine.MaxCard | callbreak_card.py:80 | Python's max (a left fold replacing on a strict greater) returns a member of the list. |
| Engine.MinCard | callbreak_card.py:177 | Python's min returns a member of the list. |
| Engine.MaxCardSnoc | callbreak_card.py:80 | max of p+[x] is x exactly when max(p) is less than x, else max(p). |
| Engine.MaxCardMaximal | callbreak_card.py:80 | No card of the list is greater than its max. |
| Engine.MinCardMinimal | callbreak_card.py:177 | No card of the list is less than its min. |
| Engine.WinsTrick | callbreak_card.py:79-80 | The winning rule: the highest spade when a spade was played, else the highest card of the first card's suit; TrickWinner proves max satisfies it. |
| Engine.WinsTrickStep | callbreak_card.py:73-80 | Folding one more card into a trick's running max keeps the winning rule true. |
| Engine.TrickWinner | callbreak_card.py:79-80 | max of the trick is the highest spade when a spade was played, else the highest card of the led suit (the first card's suit). |
| Engine.Flatten | callbreak_card.py:136-138 | itertools.chain over the buckets; InFlatten, FlattenSize and FlattenUpdate state its properties. |
| Engine.Player.AllCards | callbreak_card.py:136-138 | The all_cards property: Flatten of the player's buckets; see InFlatten and FlattenSize. |
| Engine.InFlatten | callbreak_card.py:136-138 | A card is in all_cards iff it is in one of the buckets. |
| Engine.FlattenSize | callbreak_card.py:136-138 | all_cards has as many cards as the buckets together. |
| Engine.FlattenUpdate | callbreak_card.py:136-138 | Replacing one bucket changes all_cards by exactly that bucket's old and new contents. |
| Engine.InOwnBucket | callbreak_card.py:140-142 | In a well-formed hand every card lies in the bucket of its suit's order. |
| Engine.BucketsInFlatten | callbreak_card.py:136-138 | Every card of every bucket is in all_cards. |
| Engine.IndexOf | callbreak_card.py:192 | The first position of a card in a list, where list.remove looks. |
| Engine.RemoveFirst | callbreak_card.py:192 | list.remove takes one occurrence of the card out and adds nothing. |
| Engine.RemoveCard | callbreak_card.py:192 | self.cards[card.suit.order].remove(card); PlayRemovesCard states that exactly that card leaves the hand and the other buckets stay. |
| Engine.FlattenRemove | callbreak_card.py:192 | Removing a card from one bucket removes exactly that card from all_cards. |
| Engine.PlayRemovesCard | callbreak_card.py:192 | Playing a held card keeps the hand well formed, removes exactly that card, and leaves the other buckets as they were. |
| Engine.Above | callbreak_card.py:150 | The filter keeps exactly the given cards that are greater than the top card. |
| Engine.GreaterCards | callbreak_card.py:149-151 | With nothing played every card counts; otherwise exactly the cards greater than max(turn.cards) are kept. |
| Engine.LegalCards | callbreak_card.py:153-168 | Legal cards come from the hand and are non-empty when the hand is; leading gives (all cards, False); holding the led suit gives only led-suit cards; the flag means every legal card beats the trick's max. |
| Engine.LegalCardWithoutFlag | callbreak_card.py:157-168 | With the flag false, no legal card beats the trick's max. |
| Engine.FallThroughNotAbove | callbreak_card.py:162-168 | A void player with no spade above the trick's max has no card that beats it. |
| Engine.LegalCardEffect | callbreak_card.py:153-168 | A legal card becomes the trick's new max iff the flag is set; following suit plays the led suit; cutting plays a spade. |
| Engine.LegalSuit | callbreak_card.py:157-160 | A player holding the led suit must play it. |
| Engine.LegalFlagMeansWinning | callbreak_card.py:153-168 | The four LegalCardEffect facts, for every legal card at once. |
| Engine.ThinkToPlay | callbreak_card.py:170-177 | A non-bot gets IllegalOperation; a bot with legal cards gets one of them; min/max of an empty list fail. |
| Engine.ThinkToPlayExtremes | callbreak_card.py:174-177 | With the flag set and fewer than 3 cards played the bot plays a greatest legal card; otherwise a least one. |
| Engine.BotMove | callbreak_card.py:185-188 | A bot's play: think_to_play over get_legal_cards; BotMoveInHand and ThinkToPlayExtremes state its properties. |
| Engine.BotMoveInHand | callbreak_card.py:185-188 | A bot move exists iff the hand is non-empty, and it is a card of the hand. |
| Engine.InsertDesc | callbreak_card.py:145 | Inserting a card into a sorted bucket adds exactly that card. |
| Engine.InsertDescSorted | callbreak_card.py:145 | Insertion keeps the bucket ordered by descending face value. |
| Engine.SortedCons | callbreak_card.py:145 | A card with face at least every face of a sorted bucket may go in front. |
| Engine.SortDesc | callbreak_card.py:145 | Sorting a bucket permutes it. |
| Engine.SortDescSorted | callbreak_card.py:145 | A sorted bucket is in descending face order. |
| Engine.SortHand | callbreak_card.py:145 | Each bucket is sorted on its own, and the number of buckets stays the same. |
| Engine.FlattenPermuted | callbreak_card.py:145-146 | Permuting every bucket permutes all_cards. |
| Engine.SortHandKeepsHand | callbreak_card.py:145 | Sorting keeps every card in its suit's bucket. |
| Engine.SortDescMembers | callbreak_card.py:145 | Sorting brings in no new card. |
| Engine.SortHandPermutes | callbreak_card.py:145 | Sorting the hand keeps exactly the same cards. |
| Engine.SortHandSize | callbreak_card.py:145 | Sorting the hand keeps its size. |
| Engine.NextSeat | callbreak_card.py:90 | The next seat is a seat. |
| Engine.NextSeatMod | callbreak_card.py:90 | The next seat is (turn + 1) % len(players). |
| Engine.Seats | callbreak_card.py:86-92 | The iterator yields len(players) seats, each a valid seat. |
| Engine.SeatsFromOffsets | callbreak_card.py:86-92 | From offset d, the iterator yields the seats start+d, start+d+1, ... modulo n until it is back at start. |
| Engine.SeatsOrder | callbreak_card.py:86-92 | Seat k of the order is (start + k) % n; the first is the starter; no seat repeats and every seat occurs. |
| Engine.SeatsCover | callbreak_card.py:86-92 | The iterator yields every player exactly once. |
| Engine.AddToBucket | callbreak_card.py:142 | Appending a card to its suit's bucket keeps the hand well formed and adds exactly that card. |
| Engine.AddedMultiset | callbreak_card.py:142 | Appending to any bucket adds exactly that card to all_cards. |
| Engine.Collected | callbreak_card.py:140-145 | Collecting keeps the four buckets. |
| Engine.CollectedFacts | callbreak_card.py:140-147 | Collect adds exactly the card and keeps the hand well formed. At the thirteenth card every bucket is sorted; before it, the other buckets are untouched. |
| Engine.Player.constructor | callbreak_card.py:130-134 | A new player has its name and bot flag, no seat and four empty buckets. |
| Engine.Player.Collect | callbreak_card.py:140-147 | The card names this player as owner and joins the hand. At the thirteenth card the cards are numbered 0..12 over all_cards; before it, no index changes. |
| Engine.Player.Add | callbreak_card.py:142 | The card is appended to the bucket of its suit; the hand grows by exactly that card. |
| Engine.Player.Arrange | callbreak_card.py:145-147 | The buckets are sorted, the hand keeps its cards, and card k of all_cards gets index k. |
| Engine.Player.Play | callbreak_card.py:182-195 | A bot plays the policy's card and loses exactly that card from its bucket; a human player gets NotImplemented and keeps its hand. |
| Engine.Number | callbreak_card.py:146-147 | The enumerate loop gives card k of a duplicate-free list the index k. |
| Engine.GameTurn.constructor | callbreak_card.py:64-68 | A new trick has its starter and players, no cards and no led suit. |
| Engine.GameTurn.Start | callbreak_card.py:70-77 | With bots holding cards, every player plays once in seat order from the starter. The trick's cards are the played cards; the led suit is the first card's suit; the winner is max of the cards and obeys the winning rule; each seat lost exactly its card. |
| Engine.GameTurn.PlaySeats | callbreak_card.py:71-75 | The loop over the seats: each seat's player plays, in order, and the record of hands and cards grows by that play. |
| Engine.GameTurn.PlaySeat | callbreak_card.py:72-75 | One pass of the loop: the card played is appended, and the led suit is set if it was unset. |
| Engine.HandsAt | callbreak_card.py:71 | The hands of the players at the given seats, in seat order. |
| Engine.SeatedDistinct | callbreak_card.py:86-92 | Distinct players at distinct seats are distinct objects. |
| Engine.LedSuit | callbreak_card.py:73-75 | The led suit: unchanged once set, otherwise the first played card's suit; GameTurn.Start states the trick's suit is LedSuit of its cards. |
| Engine.BotPlayedFacts | callbreak_card.py:185-192 | After a bot's play the card came from the hand, which lost exactly that card and stays well formed. |
| Engine.SeatStep | callbreak_card.py:71-75 | One more seat played extends the trick's record. |
| Engine.TrickLogHands | callbreak_card.py:71-75 | In the record, every seat lost exactly the card it played. |
| Round.FreshPack | callbreak_card.py:59-60 | The loaded pack: 52 cards laid out suit by suit, face by face, none owned or numbered; FreshPackDistinct and Cards.DeckLayoutFacts state its properties. |
| Round.FreshPackDistinct | callbreak_card.py:59-60 | The 52 cards of a loaded pack are pairwise distinct. |
| Round.PackGrows | callbreak_card.py:60 | The card of the next layout position extends the pack built so far. |
| Round.Deck.constructor | callbreak_card.py:55-57 | A new deck holds a freshly loaded pack. |
| Round.Deck.Load | callbreak_card.py:59-60 | The pack is 52 new cards, face by face within suit by suit, none owned or numbered. |
| Round.Dealt | callbreak_card.py:124-125 | The cards distribute gives seat p: card i when i % n == p, in deck order; DealtSize, DealtPosition, DealtPartition and DealtDisjoint state its properties. |
| Round.DealtSize | callbreak_card.py:122-126 | Seat p of n receives len/n cards, plus one when p is below len % n. |
| Round.DealtPosition | callbreak_card.py:124-125 | Card i is the (i / n)-th card dealt to seat i % n. |
| Round.DealtUnionSnoc | callbreak_card.py:124-125 | The last card joins the first k seats' cards exactly when its seat is among them. |
| Round.DealtUnionEmpty | callbreak_card.py:124-125 | Nothing is dealt from an empty deck. |
| Round.DealtPartition | callbreak_card.py:122-126 | Together the seats receive exactly the deck. |
| Round.DealtDisjoint | callbreak_card.py:122-126 | With a duplicate-free deck, no card goes to two different seats. |
| Round.FullDeal | callbreak_card.py:122-126 | With four players and 52 cards every seat receives 13. |
| Round.DealtHand | callbreak_card.py:126 | A hand after a run of collects keeps its four buckets. |
| Round.DealtHandFacts | callbreak_card.py:126 | A run of collects keeps the hand well formed and adds exactly the collected cards. |
| Round.ThirteenSorted | callbreak_card.py:144-145 | Thirteen cards collected into an empty hand leave every bucket sorted. |
| Round.DealStep | callbreak_card.py:124-125 | Card i extends seat k's share exactly when i % n == k. |
| Round.DealtHandSnoc | callbreak_card.py:126 | One more card collected is one more collect step. |
| Round.DealNext | callbreak_card.py:124-126 | Card i is collected by seat i % n; every other hand is unchanged. |
| Round.Deal | callbreak_card.py:124-126 | The replay of the dealing loop keeps one four-bucket hand per seat. |
| Round.DealMatches | callbreak_card.py:122-126 | The loop's replay gives each seat the hand of its own share. |
| Round.DealtMembers | callbreak_card.py:124-125 | A card in seat p's share is a deck card at a position i with i % n == p. |
| Round.DistinctMultiset | callbreak_card.py:124 | A list has no repeated card iff no card has multiplicity above 1. |
| Round.PermutedDistinct | callbreak_card.py:119-120 | A shuffled duplicate-free deck stays duplicate-free. |
| Round.HandsOf | callbreak_card.py:129-134 | The players' bucket lists, seat by seat. |
| Round.Receive | callbreak_card.py:125-126 | One card of the deal: the player collects it and becomes its owner. |
| Round.DealtOwned | callbreak_card.py:141 | Dealt into empty hands, every held card names its holder as owner. |
| Round.SeatPosition | callbreak_card.py:86-92 | Every seat occurs in the seat order from any starter. |
| Round.RunTurn | callbreak_card.py:115-116 | One trick seen player by player: each player lost one card; the led card was the starter's and the winner a player's. |
| Round.TrickPerPlayer | callbreak_card.py:86-92 | The seat-order record of a trick, read per player. |
| Round.TakenOwned | callbreak_card.py:116-117 | After a trick every held card keeps its owner, and the winning card's owner is a player at the table. |
| Round.LostAllStep | callbreak_card.py:114-117 | One more trick is one more card lost from every hand. |
| Round.OwnerSnapshot | callbreak_card.py:117 | The owners the cards record at the start of a round. |
| Round.OwnedByLost | callbreak_card.py:114-117 | Hands that only lost cards keep the owners of the start of the round. |
| Round.TricksWonSnoc | callbreak_card.py:114-117 | A won trick extends the list of tricks won by their max card. |
| Round.LedBySnoc | callbreak_card.py:115-116 | A trick led by its starter extends the list of led tricks. |
| Round.ChainedSnoc | callbreak_card.py:117 | A trick led by the previous winner's owner extends the chain. |
| Round.RoundStep | callbreak_card.py:114-117 | A trick led by the current starter and won by some seat's card advances the round by one trick, with that seat's player as the next starter. |
| Round.RoundFacts | callbreak_card.py:112-117 | After i tricks each hand lost exactly i cards and took none. Every trick has one card per player and is won by its max card; players[round_count] led the first; each winner's owner led the next. |
| Round.RoundEmptiesHands | callbreak_card.py:112-117 | Thirteen tricks from thirteen-card hands leave every hand empty. |
| Round.StockedLost | callbreak_card.py:114 | Hands that started with m cards and lost fewer than m still hold a card. |
| Round.CallBreak.constructor | callbreak_card.py:98-106 | A fresh deck; every player learns its seat, so players[i].turn == i for distinct players. |
| Round.CallBreak.Shuffle | callbreak_card.py:119-120 | The deck becomes the Fisher-Yates shuffle of itself under the draws, a permutation. |
| Round.CallBreak.Distribute | callbreak_card.py:122-126 | Seat k collects exactly its share, card i in order; zero players with cards fail (i % 0). Card i becomes players[i % n]'s; with empty starting hands every held card names its holder. |
| Round.CallBreak.Ready | callbreak_card.py:108-110 | Shuffle, then deal the shuffled deck, with the deal's guarantees. |
| Round.CallBreak.PlayTrick | callbreak_card.py:115-116 | One trick from the table: it succeeds when every player is a bot with a card. Every hand loses one card; the winner is the max card, held by a player at the table. |
| Round.CallBreak.NextTrick | callbreak_card.py:115-117 | One pass of the loop: the round advances by one trick, and the winning card's owner is the next starter. |
| Round.CallBreak.Start | callbreak_card.py:112-117 | With no players, players[0] fails. With bots holding 13 cards each, 13 tricks are played as RoundFacts describes, starting from players[round_count]. |
| Round.CallBreak.PlayRound | callbreak_card.py:113-117 | The 13-trick loop keeps the round description, one trick per pass. |
| Round.CallBreak.DealingDone | callbreak_card.py:122-126 | The finished dealing loop gives each seat its share and each card its owner. |
| Round.CallBreak.DealOne | callbreak_card.py:124-126 | One pass of the dealing loop keeps the loop's description, now with card i dealt. |
| Randomness.Swap | callbreak_card.py:120 | Exchanging two entries moves those two and nothing else. |
| Randomness.SwapPermutes | callbreak_card.py:120 | A swap permutes the list. |
| Randomness.SwapSelf | callbreak_card.py:120 | Swapping an entry with itself changes nothing. |
| Randomness.ShuffleDown | callbreak_card.py:120 | The Fisher-Yates loop keeps the length. |
| Randomness.ShuffleDownPermutes | callbreak_card.py:120 | The Fisher-Yates loop permutes the list. |
| Randomness.Shuffled | callbreak_card.py:120 | A shuffle keeps the length. |
| Randomness.ShuffledPermutes | callbreak_card.py:120 | A shuffle is a permutation of the list. |
| Randomness.NoSwapDraws | callbreak_card.py:120 | Draws j_i == i leave the list as it was. |
| Randomness.Shuffle | probab.py:29-30 | The list becomes its Fisher-Yates shuffle under the draws: the same length and the same cards. |
| Probab.SumConcat | probab.py:42 | The sum of a concatenation is the sum of the parts. |
| Probab.SumAtLeast | probab.py:42 | Entries all at least m sum to at least m times the length. |
| Probab.SumBits | probab.py:39-42 | A 0/1 list sums to its number of ones, between 0 and its length. |
| Probab.MinOf | probab.py:21 | min returns an entry no greater than any entry. |
| Probab.MaxOf | probab.py:24 | max returns an entry no less than any entry. |
| Probab.ContainsMin | probab.py:20-21 | An empty distribution fails as min does. Otherwise the answer is true iff every entry is at least count. |
| Probab.ContainsMax | probab.py:23-24 | An empty distribution fails as max does. Otherwise the answer is true iff some entry is at least count. |
| Probab.Passes | probab.py:27 | A batch of n trials has at most n passes. |
| Probab.Ratio | probab.py:27 | A batch's pass ratio lies in [0, 1]. |
| Probab.Score | probab.py:27 | The batch percentage divided by 100 is the batch's ratio. |
| Probab.MinScore | probab.py:27 | The minimum over the batches is the lowest batch's percentage. |
| Probab.GetProb | probab.py:26-27 | No batches is an empty min; repeat 0 divides by zero; a negative repeat gives 0; otherwise a value. |
| Probab.GetProbIsWorstBatch | probab.py:26-27 | get_prob is exactly the pass ratio of the worst batch: at most every batch's ratio, within [0, 1]. |
| Probab.GetProbNone | probab.py:26-27 | One batch with no pass makes get_prob 0. |
| Probab.GetProbAll | probab.py:26-27 | All trials passing make get_prob 1. |
| Probab.NoPasses | probab.py:27 | A batch of failing trials counts no pass. |
| Probab.AllPass | probab.py:27 | A batch of passing trials counts all of them. |
| Probab.Repeat | probab.py:39 | [v]*n has max(n, 0) entries, all v. |
| Probab.Tokens | probab.py:39 | [1]*cards_count + [0]*(cards_count*(players_count-1)); TokensShape states its length, 0/1 shape and number of ones. |
| Probab.TokensShape | probab.py:39 | The token list has cards_count*players_count 0/1 entries, exactly cards_count of them ones. |
| Probab.OnesSum | probab.py:39 | [1]*n sums to n. |
| Probab.ZerosSum | probab.py:39 | [0]*n sums to 0. |
| Probab.Slice | probab.py:41 | Python's slice, within bounds, is the subsequence. |
| Probab.Shares | probab.py:41-42 | One sum per player, the i-th over the slice i*c .. (i+1)*c. |
| Probab.ShareAt | probab.py:41 | When the list has c*p entries, slice i lies within it. |
| Probab.GetHeartDistribution | probab.py:38-42 | The tokens are shuffled in place under the draws and summed slice by slice; one entry per player. |
| Probab.SumSplit | probab.py:42 | A prefix sum splits at any point. |
| Probab.SharesPrefix | probab.py:41-42 | The first k shares together sum to the first k*c tokens. |
| Probab.SumStep | probab.py:41-42 | One more share extends the prefix sum by its slice. |
| Probab.SharesOfTokens | probab.py:38-42 | For any permutation of the tokens: players_count shares, each in [0, cards_count], summing to cards_count. |
| Probab.TokensPermuted | probab.py:39-40 | A permutation of the tokens keeps their count, 0/1 shape and number of ones. |
| Probab.SharesSum | probab.py:41-42 | The shares together sum to the whole list. |
| Probab.BitsPermuted | probab.py:40 | A permutation of a 0/1 list is a 0/1 list. |
| Probab.ShareBounds | probab.py:41-42 | Each share of a 0/1 list is between 0 and the slice size. |
| Probab.HeartDistribution | probab.py:38-42 | The slice sums of the shuffled tokens; HeartDistributionShape and HeartDistributionNone state its properties. |
| Probab.HeartDistributionShape | probab.py:38-42 | For any shuffle: one count per player, each in [0, cards_count], summing to cards_count. |
| Probab.HeartDistributionNone | probab.py:38-42 | With no cards every player's count is 0. |
| Probab.Normalize | probab.py:17-18 | int(round(f)); NormalizeNearest, NormalizeWhole and NormalizeBetween state its properties. |
| Probab.NormalizeNearest | probab.py:17-18 | int(round(f)) is within 0.5 of f, and halves go away from zero. |
| Probab.NormalizeWhole | probab.py:17-18 | A whole number rounds to itself. |
| Probab.NormalizeBetween | probab.py:17-18 | A value between two whole numbers rounds to one between them. |
| Probab.Hint | probab.py:8-10 | The extra argument is passed exactly when _extra is set: remaining/(players_count-i), a positive divisor. |
| Probab.GetSpadeDistribution | probab.py:4-15 | The loop yields the budget split: each player but the last takes the rounded draw, or 0 without a draw when nothing is left; the last takes the rest. |
| Probab.SpadeCounts | probab.py:7-15 | The loop from player i with `remaining` cards left; SpadeCountsLength, SpadeCountsSum, SpadeCountsBounds, SpadeCountsIgnoreEmpty and SpadeCountsNone state its properties. |
| Probab.SpadeCountsLast | probab.py:14 | With one player left, the rest goes to them. |
| Probab.SpadeCountsStep | probab.py:7-13 | One loop pass: the count is 0 without a draw when nothing is left, else the rounded draw, and the remainder goes down by it. |
| Probab.SpadeCountsLength | probab.py:7-14 | The split has players_count-1 counts plus the rest: one entry for at most one player. |
| Probab.SpadeCountsSum | probab.py:4-15 | The counts sum to the cards shared out. |
| Probab.DrawsInRangeFromBounds | probab.py:11 | A draw between 0 and hi rounds to a count between 0 and hi. |
| Probab.SpadeCountsBounds | probab.py:4-15 | With draws in range, every count is between 0 and the cards shared out. |
| Probab.SpadeCountsIgnoreEmpty | probab.py:11 | The oracle is never asked with nothing left: oracles that agree whenever hi != 0 give the same split. |
| Probab.SpadeCountsNone | probab.py:11 | With no cards every count is 0. |
| Probab.SpadeDistribution | probab.py:4-15 | The split starts from all cards_count cards at player 0. |
| Probab.SpadeDistributionShape | probab.py:4-15 | players_count entries (one if at most one player), summing to cards_count; with draws in range each is in [0, cards_count]. |
| Call.Need | call.py:9 | min_cards_to_exist = 15 - face value: 1 for an ace, 13 for a 2; see WinChance and WinChanceTwo. |
| Call.Trial | call.py:14-15 | One trial: contains_min of a heart distribution of the 13 - cards_count cards out, against Need; TrialShortSuit states when it fails. |
| Call.WinChance | call.py:7-16 | Too few cards of the suit give 0. Otherwise no other players fail (empty min) and some give get_prob over 2 batches of 1000 heart-distribution trials testing contains_min, a value in [0, 1]. |
| Call.WinChanceWorstBatch | call.py:16 | The chance is the worse of the two batches' pass ratios. |
| Call.WinChanceShortSuit | call.py:8-16 | When the other players cannot all hold 15-face cards of the suit, the chance is 0. |
| Call.TrialShortSuit | call.py:14-15 | Then no trial passes. |
| Call.WinChanceFullSuit | call.py:8-16 | Holding all 13 cards of the suit gives chance 0 for every card. |
| Call.WinChanceTwo | call.py:8-16 | A 2 never has a chance against three players. |
| Call.CardChance | call.py:26 | Each card's term is in [0, 1]. |
| Call.BucketFrom | call.py:25-28 | The rest of a bucket adds between 0 and its number of cards. |
| Call.HandFromBounds | call.py:24-28 | The remaining buckets add between 0 and their number of cards. |
| Call.HandChanceBounds | call.py:19-29 | The hand's sum lies between 0 and the number of cards; an empty hand gives 0. |
| Call.HandChance | call.py:19-29 | The sum over every card of every bucket of its chance; HandChanceBounds states its bounds and CanWin computes it. |
| Call.CanWin | call.py:19-29 | The nested loop's total is the sum over every card of its chance against the length of its bucket and 3 others. |
| Call.SuggestCall | call.py:32-34 | The call is can_win unchanged: between 0 and the number of cards, not clamped to a bid range. |

## Left out

- Rendering, animation, human input, pickling and the `__main__` blocks are not part of this model. That covers main.py, `wait_until_human_plays` (modelled only as the NotImplemented error it raises), callbreak_card.py:201-214, probab.py:44-52 and call.py:37-64.
- `print` and `logging` have no effect on state and are left out (callbreak_card.py:82-83, 183, 194; call.py:27).
- `Card.__repr__` and `Player.__repr__` are display only and are left out.
- Randomness is not modelled as a distribution. `random.shuffle` gets its draws as a parameter. `random_gen` is an oracle of the call count, the remaining cards and the optional extra argument. Each Monte-Carlo trial gets its own draws. The statistical quality of the estimate is not stated.
- The Sattolo loop after `return` in probab.py:31-36 never runs and is left out.
- Floats are exact reals. `_normalize` is round-half-away-from-zero on reals. A float's rounding error in `cards/(players-i)` and in `sum/repeat*100/100` is not modelled.
- Probab.Hint: the extra argument is kept as an exact fraction (`Mode`) rather than a float, so the oracle sees the numerator and denominator.
- Cards.LookupFace: `str.upper`/`str.lower` are modelled on ASCII letters only.
- Cards.CheckCard: returns the (Face, Suit) pair rather than a new Card object. The Card constructor is a separate member.
- Round.CallBreak.Start requires the table invariant: distinct players, each seated at its own index. It also requires well-formed hands whose cards name their holder. These are what `__init__` and `ready` leave.
- Round.CallBreak.Start: an error part-way through a round (a human player, or an empty hand) stops the round. The state it leaves is not described beyond every hand staying well formed.
- Round.CallBreak.Distribute requires distinct player objects. A list holding the same player twice is not modelled.
- Engine.Number: the indices are stated only for a duplicate-free list. A repeated card keeps the index of its last position.
- Engine.Player.Collect: at the thirteenth card the numbering is stated for a duplicate-free hand only.
- Engine.SortDesc: an insertion sort. Python's sort is stable; stability is not stated, only order and permutation.
- Probab.MinOf: computed by recursion on the tail rather than as Python's left fold. For integers both give the same value.
- Probab.MaxOf: built the same way as Probab.MinOf, by recursion on the tail; for integers the value is the same as Python's left fold.
- Call.CanWin: the chance of each card is a function of the hand (`CardChance`). The trials' draws come from a parameter indexed by bucket and card.
- Round.CallBreak.Start: the end state is stated through the `Round` predicate; `Round.RoundFacts` spells it out trick by trick.
