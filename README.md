# Blackjack round engine

A model of the game engine of a terminal Blackjack table. The table carries
players, each with hands, a name and a bank. The dealer has one hand, and
there is an active-hand index. A round is dealt by `reset`: every player
gets two fresh hands with an ante of 5 each, every hand gets two cards, and
the dealer gets a face-down hole card and one face-up card. `hit` draws a
card into the active hand while it is still being played and below 21.
`stay` marks the active hand as standing, moves the index on with
`next_hand`, and, once no hand is still being played, calls `end`. `end`
flips the hole card and lets the dealer draw while the real value is below
17. It then settles every hand of every player against the dealer's total,
and credits each bank with twice the bet for a win or a dealer bust, or
with the bet back for a push. Key presses map to exit, hit, stand and reset.

The model has four modules:

- `Cards`: ranks, suits, the hidden sentinel, card values, and the maps from
  a drawn index to a rank or suit.
- `Hands`: the hand record, with its cached raw total and ace count and the
  loops that recompute them. It also holds the ace reduction that gives a
  hand's real value and whether it is soft.
- `Input`: key-to-command dispatch.
- `Round`: players, dealing, turn progression, dealer play, settlement, and
  the `App` class, whose methods update the table in place.

Each loop of the source is a method with a `while` loop. Each such method is
proved equal to a specification function (`Sum`, `CountAces`, `RealValue`,
`SettledPlayers`, `DealtPlayers`, `AfterDraws`, `AllFinished`). The
properties are proved as lemmas about those functions.

Random drawing becomes caller-supplied cards:

- `hit` takes the card to draw.
- `end` takes the card the hole card flips to, and a `Shoe`: the endless
  sequence of visible cards the dealer draws.
- `reset` takes a `Shoe` and deals from it in the source's order. Player
  `i` of `n` gets cards `2i` and `2i+1` in the first pass and `2n+2i` and
  `2n+2i+1` in the second. The dealer's up card is card `4n`.

Several behaviours of the code are easy to misread; the model keeps each of
them as written:

- `end` settles every hand, not only those still being played or standing.
  After settlement every bet is 0, so settling again pays nothing
  (`Round.EndIsIdempotent`).
- `reset` deals two cards to each hand, not one.
- Flipping the hole card recomputes the cached raw total but not the cached
  ace count. A hole Ace is therefore counted as 11 and never reduced until
  the dealer's next draw recomputes both caches. The dealer's total is
  unaffected, since the hand holds only two cards at that point, but it can
  be reported as hard when it is soft (`Round.RevealedAceIsNotCountedAsSoft`).
- The dealer stops once the real value reaches 17. A soft 17 has real value
  17, so the dealer stands on it (`Round.DealerStandsOnSoft17`); it does not
  draw another card.
- `next_hand` keeps the hand index when it moves to the next player. With
  two hands per player, the index goes (0,0), (0,1), (1,1): every later
  player's first hand is skipped (`Round.NextIndexSkipsFirstHandOfNextPlayer`).
  The table invariant `Round.TableValid` records the shape this produces.
  With two or more players, hand (1,0) is never active, so it stays not
  finished and standing never ends the round until the next reset
  (`Round.SkippedHandBlocksTheEnd`).
- `initialize` names and funds `players[0]`, not the player it has just
  appended.

## Model

| member | source | states |
|---|---|---|
| Cards.NumericalValue | src/main.rs:244-261 | A card is worth at most 11. It is worth 0 exactly when hidden, 11 exactly for an Ace, and 10 exactly for Ten, Jack, Queen and King; a visible card is worth at least 2 |
| Cards.NewHidden | src/main.rs:207-212 | The hole card is fully hidden, not visible, and worth 0 |
| Cards.SampleSuit | src/main.rs:284-296 | Each index 0..=3 maps to a real suit, never the hidden one |
| Cards.SampleValue | src/main.rs:316-337 | Each index 0..=12 maps to a real rank, never the hidden one |
| Cards.NewCard | src/main.rs:201-206 | A drawn card is visible |
| Cards.SuitIndex | src/main.rs:284-296 | Every visible suit is reached by some index in 0..=3 |
| Cards.ValueIndex | src/main.rs:316-337 | Every visible rank is reached by some index in 0..=12 |
| Cards.SamplingIsInjective | src/main.rs:316-337 | Distinct indices give distinct ranks, and, within 0..=3, distinct suits |
| Cards.DrawnCardsAreTheVisibleCards | src/main.rs:201-206 | A card can be drawn if and only if it is visible |
| Cards.DrawnValue | src/main.rs:244-261 | The value of a drawn card as a function of its rank index: 2..9 for the first eight, 10 for the four tens, 11 for the Ace |
| Hands.SumAppend | src/main.rs:157-164 | Appending a card adds its value to the raw total, and adds one ace exactly when it is an Ace |
| Hands.SumBounds | src/main.rs:157-184 | Every ace contributes 11 and every card at most 11; there are no more aces than cards |
| Hands.HardTotalGrows | src/main.rs:442-444 | With every ace counted as 1, each drawn visible card raises the total by at least 1 |
| Hands.NewHand | src/main.rs:140-148 | A new hand is empty, has bet 0, is not finished, and has consistent caches |
| Hands.RealValue | src/main.rs:165-175 | The real value lies between the raw total with every ace reduced from 11 to 1 and the raw total itself. Reduction happens only above 21 and each reduction was needed. The hand is soft exactly when fewer reductions than aces were made, and a soft hand never busts. A bust means every ace was reduced |
| Hands.RealValueDropsWholeAces | src/main.rs:169-172 | The real value is the raw total minus ten times some number of reductions, at most one per ace |
| Hands.RealValueIsBestTotal | src/main.rs:165-175 | The real value is the largest total reachable by reducing aces without busting, and it busts only if every choice busts |
| Hands.GetValue | src/main.rs:157-164 | The loop returns the sum of the card values |
| Hands.GetNumberOfAces | src/main.rs:176-184 | The loop returns the number of Aces among the cards |
| Hands.GetRealValue | src/main.rs:165-175 | The reduction loop returns exactly RealValue of the cached total and ace count |
| Hands.Added | src/main.rs:149-153 | After a card is added the caches agree with the cards; on a consistent hand they grow by the card's value and ace count |
| Hands.AddCard | src/main.rs:149-153 | The card is appended, both caches are recomputed from the cards, and bet and outcome are kept |
| Hands.AddHiddenCard | src/main.rs:154-156 | The hidden card is appended, the caches are left as they were, and they stay consistent |
| Hands.RawTotalFitsInByte | src/main.rs:395-403 | A consistent hand whose real value is below 21, the only kind `hit` adds to, has a raw total of at most 231 after the hit |
| Hands.DealerDrawFitsInByte | src/main.rs:442-444 | A consistent dealer hand whose real value is below 17, the only kind the dealer draws to, has a raw total of at most 187 after the draw |
| Hands.RealValueExamples | src/main.rs:165-175 | Ace and Six is soft 17, Ten, Seven and Ace is hard 18, Ten, King and Five is 25, and Ace, Six and Ten is hard 17 |
| Input.KeyCommand | src/main.rs:471-482 | A press of Control+C is exactly Exit. A press of 'h', 's' or 'r' is exactly Hit, Stand or Reset, whatever the modifiers. Everything else is ignored |
| Round.Resolve | src/main.rs:445-467 | The outcome is exactly one of the five settled ones, chosen in the source's order: player bust, dealer bust, dealer higher, player higher, push. It carries both totals, and the payout is twice the bet for a dealer bust or player win, the bet for a push, and 0 otherwise |
| Round.ResolveIsMonotone | src/main.rs:445-467 | For a fixed dealer total, a higher non-busting player total never pays less |
| Round.ResolveExamples | src/main.rs:445-467 | Concrete settlements: lose, dealer bust, push, player bust, and player bust when both bust |
| Round.PayoutAppend | src/main.rs:445-467 | The payout of a sequence of hands is the sum of the per-hand payouts |
| Round.PayoutOfZeroBets | src/main.rs:445-467 | Hands whose bets are 0 pay nothing |
| Round.SettledPlayersAreFinal | src/main.rs:445-467 | After settlement every hand has a final outcome and bet 0, with cards, caches and name kept, and each bank gains exactly its hands' payouts |
| Round.SettlementIsIdempotent | src/main.rs:445-467 | Settling a second time against the same dealer total changes nothing, banks included |
| Round.SettlePlayer | src/main.rs:446-466 | The loop over one player's hands settles each hand as Resolve says and credits the bank with exactly their payouts (SettledPlayer) |
| Round.Settle | src/main.rs:445-467 | The loop over the players produces exactly SettledPlayers |
| Round.ScanFinished | src/main.rs:424-431 | The scan returns true if and only if no hand of any player is still being played |
| Round.NextIndex | src/main.rs:405-415 | The index moves to the next hand of the same player if there is one. Otherwise it moves to the next player with the hand index kept. It stays put only on the last position of the last player |
| Round.NextIndexStaysValid | src/main.rs:405-415 | With equal hand counts a valid index stays in range |
| Round.NextIndexKeepsTurnShape | src/main.rs:405-415 | With equal hand counts, if only player 0 or the last hand position is active, the same holds after the move |
| Round.SkippedHandBlocksTheEnd | src/main.rs:405-435 | On a valid table of two or more players with two or more hands, hand (1,0) is not active; standing leaves it not finished, so the round does not end and the index does not reach it |
| Round.NextIndexSkipsFirstHandOfNextPlayer | src/main.rs:405-415 | With two players of two hands, standing goes (0,0), (0,1), (1,1) and stays there |
| Round.StandOnlyFinishesActiveHand | src/main.rs:417-422 | Standing changes only the active hand, and only from not finished to Stand |
| Round.StandAfterRoundChangesNothing | src/main.rs:417-435 | Once every hand is finished, standing marks nothing and the round stays finished |
| Round.AfterDrawsCards | src/main.rs:442-444 | After m dealer draws the hand holds its cards followed by the first m shoe cards, and after at least one draw its caches agree with the cards |
| Round.AddedIsNextDraw | src/main.rs:442-444 | Drawing one more card with add_card takes the dealer hand after m draws to the hand after m + 1 |
| Round.DrawnTotalGrows | src/main.rs:442-444 | After m draws of visible cards the dealer's real total is at least m, so the drawing loop ends |
| Round.DrawOne | src/main.rs:443 | One pass of the dealer's loop yields the hand after one more draw and its real total |
| Round.DealerStopIsUnique | src/main.rs:442-444 | The number of cards the dealer draws is determined by the starting hand and the shoe |
| Round.RevealKeepsDealerTotal | src/main.rs:438-441 | After the flip the dealt dealer holds the hole card and the up card. The raw total is recomputed, the ace count still counts only the up card, and the real total equals the one computed from the cards |
| Round.Revealed | src/main.rs:438-441 | The first card becomes the hole card exactly when it was hidden, and the raw total is then recomputed from the cards; the other cards, the ace count, the bet and the outcome are kept |
| Round.RevealedAceIsNotCountedAsSoft | src/main.rs:438-441 | A flipped Ace beside a Six totals 17 either way but is reported hard, where the cards make it soft |
| Round.DealerStandsOnSoft17 | src/main.rs:442-444 | Ace and Six is soft 17, and the dealer draws no card on it |
| Round.DrawDealer | src/main.rs:442-444 | The dealer draws shoe cards in order until the real value reaches 17. Every earlier total was below 17, the final total is at least 17, and at most 17 cards are drawn |
| Round.EndIsIdempotent | src/main.rs:437-468 | Ending a round again flips nothing, draws nothing and pays nothing |
| Round.PairTotals | src/main.rs:376-387 | A two-card hand totals the two values and counts its Aces |
| Round.DealtHandIsWellFormed | src/main.rs:361-387 | A dealt hand holds exactly its two cards, has consistent caches, bet 5 and is not finished |
| Round.DealtDealerIsWellFormed | src/main.rs:381-388 | The dealt dealer holds the hidden card then the up card; the caches count only the up card, the bet is 0 and the hand is not finished |
| Round.DealtPlayersAreWellFormed | src/main.rs:361-389 | After a reset each player has two hands of two visible cards, each with bet 5, consistent caches and not finished; the name is kept and the bank drops by 10 |
| Round.FreshHands | src/main.rs:363-369 | The first two loops of reset leave every player with exactly two new hands, all else kept |
| Round.PlaceAntes | src/main.rs:370-375 | Each hand's bet rises by 5 and its player's bank falls by 5 per hand |
| Round.DealToPlayer | src/main.rs:377-379 | The loop over one player's two hands gives hand j of player i the shoe card first + 2i + j |
| Round.DealPass | src/main.rs:376-380 | A dealing pass over all players gives every player exactly PassDealt |
| Round.DealRound | src/main.rs:362-388 | The dealing steps of reset, in order, give exactly DealtPlayers and DealtDealer |
| Round.TwoPassesDeal | src/main.rs:376-387 | The two dealing passes over the ante hands give exactly DealtPlayers |
| Round.DealtRoundIsValid | src/main.rs:361-389 | A reset with at least one player leaves the table invariant holding at index (0,0) |
| Round.StandKeepsTableValid | src/main.rs:417-423 | Standing on the active hand and moving the index on keeps the table invariant |
| Round.SettlementKeepsTableValid | src/main.rs:445-467 | Settling every hand keeps the table invariant, whatever cards the dealer then holds |
| Round.NewPlayer | src/main.rs:99-105 | A new player has no hands, an empty name and a bank of 0 |
| Round.Initialized | src/main.rs:355-359 | One more player than before: player 0 is named "Nick" with bank 100 and keeps its hands, the other players are kept, and the appended player is a new player unless it is also player 0 |
| Round.HitPlayers | src/main.rs:395-403 | Only the active hand can change. It becomes the hand with the card added exactly when it is not finished and its real value is below 21; names, banks and hand counts are kept |
| Round.App.constructor | src/main.rs:32-37 | The table starts with no players, an empty dealer hand, index (0,0), and not exiting |
| Round.App.Initialize | src/main.rs:355-359 | The players become Initialized of the old players; an empty table becomes one player "Nick" with bank 100 and no hands |
| Round.App.Reset | src/main.rs:361-389 | The index returns to (0,0). The players become DealtPlayers and the dealer DealtDealer of shoe card 4n, and the table invariant then holds |
| Round.App.Hit | src/main.rs:395-403 | The players become HitPlayers: the active hand gets the card exactly when it is not finished and its real value is below 21, and nothing else changes. The table invariant is kept |
| Round.App.NextHand | src/main.rs:405-415 | The index moves by NextIndex |
| Round.App.End | src/main.rs:437-468 | The hole card is flipped, the dealer draws until the total is at least 17, and every hand is settled against the final dealer total |
| Round.App.Stay | src/main.rs:417-435 | The active hand stands and the index advances. The round ends exactly when no hand is still being played, with End's effects; otherwise the dealer is untouched. The table invariant is kept |
| Round.App.Start | src/main.rs:341-343 | Initialize then Reset: the index is (0,0), the players are DealtPlayers of the Initialized players, the dealer is DealtDealer of shoe card 4(n+1), the table invariant holds, and a fresh table has one player "Nick" with bank 90 |
| Round.App.HandleKeyEvent | src/main.rs:471-482 | Exit sets the exit flag and an ignored key changes nothing. Hit gives HitPlayers with dealer and index kept; Stand advances the index by NextIndex and, exactly when every stood hand is finished, flips, draws and settles as End does, otherwise leaves the dealer alone; Reset gives index (0,0), DealtPlayers and DealtDealer. Each command keeps the table invariant |

## Left out

- Rendering (the `Widget` implementation, `draw`, card paragraphs, `display_string`, `value_string`): a function of the state into text, with no effect on play.
- The event loop, the input and background threads, and the channel in `main` and `run`: concurrency and I/O. `Round.App.Start` models the `initialize` and `reset` at the start of `run`, and `Round.App.HandleKeyEvent` models one event.
- The random number generator: draws are parameters (a card, a hole card, a shoe). The mapping from drawn index to card is modelled (`Cards.SampleSuit`, `Cards.SampleValue`); uniformity is not.
- `f64` money: banks and bets are integers. Every amount is a multiple of 5, so no rounding arises.
- `u8` totals and counts are unbounded naturals. `Hands.RawTotalFitsInByte` and `Hands.DealerDrawFitsInByte` show that a hit or a dealer draw stays far below 256.
- `crossterm` key events: a key event is reduced to whether it is a press, whether the modifiers are exactly Control, and the character.
- Panics on an out-of-range index or an empty dealer hand: the corresponding methods require the index to be in range, or the dealer hand to be non-empty.
