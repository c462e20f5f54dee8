/**
 * The round state machine of the table: players with their hands and bank,
 * the dealer's hand, and the active-hand index; dealing (reset), hit, stand
 * with turn advance, and the end of round (dealer play and settlement).
 *
 * Card draws come from the caller: a single visible card for a hit, the hole
 * card that a flip reveals, and a Shoe, an endless supply of visible cards
 * indexed in draw order, for dealing and for the dealer's draws.
 * Money is counted in whole currency units.
 */
module Round {
  import opened Cards
  import opened Hands
  import Input

  datatype Player = Player(hands: seq<Hand>, name: string, bank: int)

  /** `Player::new`: no hands, an empty name and an empty bank. */
  function NewPlayer(): (p: Player)
    ensures p.hands == [] && p.name == "" && p.bank == 0
  {
    Player([], "", 0)
  }

  /** An endless supply of cards: `shoe(k)` is the k-th card drawn. */
  type Shoe = nat -> Card

  /** A shoe only ever yields face-up cards, as drawing does. */
  ghost predicate ShoeVisible(shoe: Shoe)
  {
    forall k: nat :: shoe(k).IsVisible()
  }

  function ShoePrefix(shoe: Shoe, n: nat): (s: seq<Card>)
    ensures |s| == n && forall k :: 0 <= k < n ==> s[k] == shoe(k)
  {
    seq(n, k requires 0 <= k => shoe(k))
  }

  /** The real total of a hand, from its cached fields. */
  function Total(h: Hand): nat
  {
    RealValue(h.value, h.numberOfAces).0
  }

  // ---------------------------------------------------------------------
  // Settlement

  /** A final outcome: settled, and not one of the two blackjack variants. */
  predicate IsSettled(o: Outcome)
  {
    o.DealerWins? || o.DealerBusts? || o.PlayerWins? || o.PlayerBusts? || o.Push?
  }

  /**
   * Outcome of one hand against the dealer and the amount paid back to the
   * player's bank (the stake was taken when the round was dealt).
   */
  function Resolve(dealerTotal: nat, playerTotal: nat, bet: int): (r: (Outcome, int))
    ensures IsSettled(r.0)
    ensures r.0.PlayerBusts? <==> playerTotal > 21
    ensures r.0.DealerBusts? <==> playerTotal <= 21 && dealerTotal > 21
    ensures r.0.DealerWins? <==> playerTotal <= 21 && dealerTotal <= 21 && playerTotal < dealerTotal
    ensures r.0.PlayerWins? <==> playerTotal <= 21 && dealerTotal <= 21 && playerTotal > dealerTotal
    ensures r.0.Push? <==> playerTotal <= 21 && dealerTotal <= 21 && playerTotal == dealerTotal
    ensures r.0.Push? ==> r.0.total == dealerTotal == playerTotal
    ensures !r.0.Push? ==> r.0.dealer == dealerTotal && r.0.player == playerTotal
    ensures r.1 == if r.0.DealerBusts? || r.0.PlayerWins? then 2 * bet
                   else if r.0.Push? then bet
                   else 0
  {
    if playerTotal > 21 then (PlayerBusts(dealerTotal, playerTotal), 0)
    else if dealerTotal > 21 then (DealerBusts(dealerTotal, playerTotal), 2 * bet)
    else if playerTotal < dealerTotal then (DealerWins(dealerTotal, playerTotal), 0)
    else if playerTotal > dealerTotal then (PlayerWins(dealerTotal, playerTotal), 2 * bet)
    else (Push(dealerTotal), bet)
  }

  /** For a fixed dealer total, a higher total that does not bust never pays less. */
  lemma ResolveIsMonotone(dealerTotal: nat, p1: nat, p2: nat, bet: nat)
    requires p1 <= p2 <= 21
    ensures Resolve(dealerTotal, p1, bet).1 <= Resolve(dealerTotal, p2, bet).1
  {
  }

  /** The settlement matrix on concrete totals, with a bet of 5. */
  lemma ResolveExamples()
    ensures Resolve(20, 19, 5) == (DealerWins(20, 19), 0)
    ensures Resolve(22, 19, 5) == (DealerBusts(22, 19), 10)
    ensures Resolve(20, 20, 5) == (Push(20), 5)
    ensures Resolve(17, 23, 5) == (PlayerBusts(17, 23), 0)
    ensures Resolve(25, 23, 5) == (PlayerBusts(25, 23), 0)
  {
  }

  /** A hand settled against `dealerTotal`: its outcome set, its bet consumed, and the amount paid out. */
  function SettleHand(h: Hand, dealerTotal: nat): (Hand, int)
  {
    var r := Resolve(dealerTotal, Total(h), h.bet);
    (h.(outcome := r.0, bet := 0), r.1)
  }

  /** Total paid back to a bank for a sequence of hands. */
  function Payout(hs: seq<Hand>, dealerTotal: nat): int
  {
    if hs == [] then 0 else SettleHand(hs[0], dealerTotal).1 + Payout(hs[1..], dealerTotal)
  }

  lemma {:induction false} PayoutAppend(hs: seq<Hand>, h: Hand, dealerTotal: nat)
    ensures Payout(hs + [h], dealerTotal) == Payout(hs, dealerTotal) + SettleHand(h, dealerTotal).1
  {
    if hs != [] {
      assert (hs + [h])[1..] == hs[1..] + [h];
      PayoutAppend(hs[1..], h, dealerTotal);
    } else {
      assert [h][1..] == [];
    }
  }

  /** Hands whose bets are all 0 pay nothing. */
  lemma {:induction false} PayoutOfZeroBets(hs: seq<Hand>, dealerTotal: nat)
    requires forall j :: 0 <= j < |hs| ==> hs[j].bet == 0
    ensures Payout(hs, dealerTotal) == 0
  {
    if hs != [] {
      PayoutOfZeroBets(hs[1..], dealerTotal);
    }
  }

  function SettledPlayer(p: Player, dealerTotal: nat): Player
  {
    p.(hands := seq(|p.hands|, j requires 0 <= j < |p.hands| => SettleHand(p.hands[j], dealerTotal).0),
       bank := p.bank + Payout(p.hands, dealerTotal))
  }

  /** Every hand of every player settled, and each bank credited with its hands' payouts. */
  function SettledPlayers(ps: seq<Player>, dealerTotal: nat): seq<Player>
  {
    seq(|ps|, i requires 0 <= i < |ps| => SettledPlayer(ps[i], dealerTotal))
  }

  /** After settlement every hand has a final outcome and no bet; cards, caches and names are kept. */
  lemma SettledPlayersAreFinal(ps: seq<Player>, dealerTotal: nat, i: nat, j: nat)
    requires i < |ps| && j < |ps[i].hands|
    ensures var s := SettledPlayers(ps, dealerTotal);
            |s| == |ps| && |s[i].hands| == |ps[i].hands| && s[i].name == ps[i].name &&
            s[i].hands[j].bet == 0 && IsSettled(s[i].hands[j].outcome) &&
            s[i].hands[j].contains == ps[i].hands[j].contains &&
            s[i].hands[j].value == ps[i].hands[j].value &&
            s[i].hands[j].numberOfAces == ps[i].hands[j].numberOfAces &&
            s[i].bank == ps[i].bank + Payout(ps[i].hands, dealerTotal)
  {
  }

  /** Settling a second time against the same dealer total changes nothing, banks included. */
  lemma SettlementIsIdempotent(ps: seq<Player>, dealerTotal: nat)
    ensures SettledPlayers(SettledPlayers(ps, dealerTotal), dealerTotal) == SettledPlayers(ps, dealerTotal)
  {
    var once := SettledPlayers(ps, dealerTotal);
    forall i | 0 <= i < |ps|
      ensures SettledPlayer(once[i], dealerTotal) == once[i]
    {
      PayoutOfZeroBets(once[i].hands, dealerTotal);
    }
  }

  /** Inner loop of `end`'s settlement: every hand of one player settled, the bank credited as each hand pays. */
  method SettlePlayer(p: Player, dealerTotal: nat) returns (q: Player)
    ensures q == SettledPlayer(p, dealerTotal)
  {
    q := p;
    var j := 0;
    while j < |q.hands|
      invariant 0 <= j <= |q.hands| == |p.hands|
      invariant q.name == p.name
      invariant q.bank == p.bank + Payout(p.hands[..j], dealerTotal)
      invariant forall m :: 0 <= m < j ==> q.hands[m] == SettleHand(p.hands[m], dealerTotal).0
      invariant forall m :: j <= m < |q.hands| ==> q.hands[m] == p.hands[m]
    {
      var hand := q.hands[j];
      var bank := q.bank;
      var playerTotal, _ := GetRealValue(hand);
      if playerTotal > 21 {
        hand := hand.(outcome := PlayerBusts(dealerTotal, playerTotal), bet := 0);
      } else if dealerTotal > 21 {
        bank := bank + hand.bet * 2;
        hand := hand.(outcome := DealerBusts(dealerTotal, playerTotal), bet := 0);
      } else if playerTotal < dealerTotal {
        hand := hand.(outcome := DealerWins(dealerTotal, playerTotal), bet := 0);
      } else if playerTotal > dealerTotal {
        bank := bank + hand.bet * 2;
        hand := hand.(outcome := PlayerWins(dealerTotal, playerTotal), bet := 0);
      } else if dealerTotal == playerTotal {
        bank := bank + hand.bet;
        hand := hand.(outcome := Push(dealerTotal), bet := 0);
      }
      assert p.hands[..j + 1] == p.hands[..j] + [p.hands[j]];
      PayoutAppend(p.hands[..j], p.hands[j], dealerTotal);
      q := q.(hands := q.hands[j := hand], bank := bank);
      j := j + 1;
    }
    assert p.hands[..j] == p.hands;
  }

  /** Outer loop of `end`'s settlement: every player settled against the dealer's total. */
  method Settle(players: seq<Player>, dealerTotal: nat) returns (settled: seq<Player>)
    ensures settled == SettledPlayers(players, dealerTotal)
  {
    settled := players;
    var i := 0;
    while i < |settled|
      invariant 0 <= i <= |settled| == |players|
      invariant forall k :: 0 <= k < i ==> settled[k] == SettledPlayer(players[k], dealerTotal)
      invariant forall k :: i <= k < |settled| ==> settled[k] == players[k]
    {
      var player := SettlePlayer(settled[i], dealerTotal);
      settled := settled[i := player];
      i := i + 1;
    }
  }

  // ---------------------------------------------------------------------
  // Turn progression

  /** No hand anywhere is still being played. */
  predicate AllFinished(ps: seq<Player>)
  {
    forall i, j :: 0 <= i < |ps| && 0 <= j < |ps[i].hands| ==> ps[i].hands[j].outcome != NotFinished
  }

  /** Scan of `stay`: whether every hand of every player is finished. */
  method ScanFinished(ps: seq<Player>) returns (finished: bool)
    ensures finished <==> AllFinished(ps)
  {
    finished := true;
    var i := 0;
    while i < |ps|
      invariant 0 <= i <= |ps|
      invariant finished <==> forall k, m :: 0 <= k < i && 0 <= m < |ps[k].hands| ==> ps[k].hands[m].outcome != NotFinished
    {
      var j := 0;
      ghost var before := finished;
      while j < |ps[i].hands|
        invariant 0 <= j <= |ps[i].hands|
        invariant finished <==> before && forall m :: 0 <= m < j ==> ps[i].hands[m].outcome != NotFinished
      {
        if ps[i].hands[j].outcome == NotFinished {
          finished := false;
        }
        j := j + 1;
      }
      i := i + 1;
    }
  }

  /**
   * Index after `next_hand`, as written: the next hand of the same player if
   * there is one, else the same hand index at the next player, else unchanged.
   */
  function NextIndex(ps: seq<Player>, idx: (nat, nat)): (r: (nat, nat))
    requires idx.0 < |ps| && |ps[idx.0].hands| > 0
    // the index moves forward one step at a time, and the hand index is never reset
    ensures r.0 == idx.0 || r.0 == idx.0 + 1
    ensures r.1 == idx.1 || r.1 == idx.1 + 1
    ensures r.1 == idx.1 + 1 <==> idx.1 + 1 < |ps[idx.0].hands|
    ensures r.0 == idx.0 + 1 <==> idx.1 + 1 >= |ps[idx.0].hands| && idx.0 + 1 < |ps|
    // it stays put only on the last hand position of the last player
    ensures r == idx <==> idx.1 + 1 >= |ps[idx.0].hands| && idx.0 + 1 >= |ps|
  {
    if |ps[idx.0].hands| - 1 > idx.1 then (idx.0, idx.1 + 1)
    else if |ps| - 1 > idx.0 then (idx.0 + 1, idx.1)
    else idx
  }

  /** Every player holds the same positive number of hands. */
  predicate Uniform(ps: seq<Player>)
  {
    |ps| > 0 && |ps[0].hands| > 0 &&
    forall i :: 0 <= i < |ps| ==> |ps[i].hands| == |ps[0].hands|
  }

  predicate IndexValid(ps: seq<Player>, idx: (nat, nat))
  {
    idx.0 < |ps| && idx.1 < |ps[idx.0].hands|
  }

  /** With uniform hand counts a valid index stays valid. */
  lemma NextIndexStaysValid(ps: seq<Player>, idx: (nat, nat))
    requires Uniform(ps) && IndexValid(ps, idx)
    ensures IndexValid(ps, NextIndex(ps, idx))
  {
  }

  /**
   * With uniform hand counts the shape "first player, or the last hand
   * position" is kept: a later player is only ever active on their last hand.
   */
  lemma NextIndexKeepsTurnShape(ps: seq<Player>, idx: (nat, nat))
    requires Uniform(ps) && IndexValid(ps, idx)
    ensures (idx.0 == 0 || idx.1 == |ps[0].hands| - 1) ==>
            var r := NextIndex(ps, idx); r.0 == 0 || r.1 == |ps[0].hands| - 1
  {
  }

  /** With two players of two hands, standing on (0,1) moves to (1,1): the second player's first hand is skipped. */
  lemma NextIndexSkipsFirstHandOfNextPlayer(ps: seq<Player>)
    requires |ps| == 2 && |ps[0].hands| == 2 && |ps[1].hands| == 2
    ensures NextIndex(ps, (0, 0)) == (0, 1)
    ensures NextIndex(ps, (0, 1)) == (1, 1)
    ensures NextIndex(ps, (1, 1)) == (1, 1)
  {
  }

  /** The active hand marked Stand if it was still being played; nothing else changes. */
  function StoodPlayers(ps: seq<Player>, idx: (nat, nat)): seq<Player>
    requires IndexValid(ps, idx)
  {
    var h := ps[idx.0].hands[idx.1];
    if h.outcome == NotFinished then
      ps[idx.0 := ps[idx.0].(hands := ps[idx.0].hands[idx.1 := h.(outcome := Stand)])]
    else ps
  }

  /** Standing changes at most the active hand's outcome, and only from NotFinished to Stand. */
  lemma StandOnlyFinishesActiveHand(ps: seq<Player>, idx: (nat, nat), i: nat, j: nat)
    requires IndexValid(ps, idx) && i < |ps| && j < |ps[i].hands|
    ensures var s := StoodPlayers(ps, idx);
            |s| == |ps| && |s[i].hands| == |ps[i].hands| &&
            s[i].hands[j] == (if (i, j) == idx && ps[i].hands[j].outcome == NotFinished
                              then ps[i].hands[j].(outcome := Stand) else ps[i].hands[j])
  {
  }

  // ---------------------------------------------------------------------
  // Dealer play

  /**
   * The part of `end` that flips the hole card: if the first card is face
   * down it becomes `hole` and only the raw total is recomputed; otherwise
   * nothing changes.
   */
  function Revealed(h: Hand, hole: Card): (r: Hand)
    requires |h.contains| > 0
    ensures |r.contains| == |h.contains|
    ensures r.contains[0] == if h.contains[0].value == CardValue.Hidden then hole else h.contains[0]
    ensures forall k :: 0 < k < |h.contains| ==> r.contains[k] == h.contains[k]
    ensures r.value == if h.contains[0].value == CardValue.Hidden then Sum(r.contains) else h.value
    ensures r.numberOfAces == h.numberOfAces && r.bet == h.bet && r.outcome == h.outcome
  {
    if h.contains[0].value == CardValue.Hidden then
      var cards := h.contains[0 := hole];
      h.(contains := cards, value := Sum(cards))
    else h
  }

  /**
   * The dealer hand after drawing the first `m` cards of the shoe. Each draw
   * recomputes both caches from all the cards, so after at least one draw
   * they agree with the cards, whatever they were before.
   */
  function AfterDraws(start: Hand, shoe: Shoe, m: nat): Hand
  {
    if m == 0 then start
    else
      var cards := start.contains + ShoePrefix(shoe, m);
      start.(contains := cards, value := Sum(cards), numberOfAces := CountAces(cards))
  }

  lemma AfterDrawsCards(start: Hand, shoe: Shoe, m: nat)
    ensures AfterDraws(start, shoe, m).contains == start.contains + ShoePrefix(shoe, m)
    ensures m > 0 ==> CacheConsistent(AfterDraws(start, shoe, m))
  {
    if m == 0 {
      assert start.contains + ShoePrefix(shoe, 0) == start.contains;
    }
  }

  /** Drawing one more card with `add_card` takes the hand after `m` draws to the hand after `m + 1`. */
  lemma AddedIsNextDraw(start: Hand, shoe: Shoe, m: nat)
    ensures Added(AfterDraws(start, shoe, m), shoe(m)) == AfterDraws(start, shoe, m + 1)
  {
    AfterDrawsCards(start, shoe, m);
    assert ShoePrefix(shoe, m + 1) == ShoePrefix(shoe, m) + [shoe(m)];
    assert start.contains + ShoePrefix(shoe, m + 1) == (start.contains + ShoePrefix(shoe, m)) + [shoe(m)];
  }

  /** The dealer draws exactly `n` cards: every earlier total is below 17 and the total after `n` draws is not. */
  predicate DealerStopsAt(start: Hand, shoe: Shoe, n: nat)
  {
    (forall m :: 0 <= m < n ==> Total(AfterDraws(start, shoe, m)) < 17) &&
    Total(AfterDraws(start, shoe, n)) >= 17
  }

  /** The number of cards the dealer draws is determined by the starting hand and the shoe. */
  lemma DealerStopIsUnique(start: Hand, shoe: Shoe, n1: nat, n2: nat)
    requires DealerStopsAt(start, shoe, n1) && DealerStopsAt(start, shoe, n2)
    ensures n1 == n2
  {
  }

  /** Revealing the dealt hole card recomputes only the raw total; the stale ace count never changes the dealer's total. */
  lemma RevealKeepsDealerTotal(up: Card, hole: Card)
    requires up.IsVisible() && hole.IsVisible()
    ensures var rv := Revealed(DealtDealer(up), hole);
            rv.contains == [hole, up] && rv.value == Sum([hole, up]) &&
            rv.numberOfAces == CountAces([up]) &&
            Total(rv) == RealValue(Sum(rv.contains), CountAces(rv.contains)).0
  {
    DealtDealerIsWellFormed(up);
    PairTotals(hole, up);
    assert [up] == [] + [up];
    SumAppend([], up);
  }

  /** A flipped Ace beside a Six: the dealer has a soft 17, but the stale ace count calls it hard. */
  lemma RevealedAceIsNotCountedAsSoft()
    ensures var rv := Revealed(DealtDealer(Card(Six, Club)), Card(Ace, Heart));
            RealValue(rv.value, rv.numberOfAces) == (17, false) &&
            RealValue(Sum(rv.contains), CountAces(rv.contains)) == (17, true)
  {
    RevealKeepsDealerTotal(Card(Six, Club), Card(Ace, Heart));
    PairTotals(Card(Ace, Heart), Card(Six, Club));
    assert [Card(Six, Club)] == [] + [Card(Six, Club)];
    SumAppend([], Card(Six, Club));
  }

  /** The dealer stands on a soft 17: Ace and Six draw no card. */
  lemma DealerStandsOnSoft17(shoe: Shoe, n: nat)
    ensures var h := Added(Added(NewHand(), Card(Ace, Heart)), Card(Six, Club));
            RealValue(h.value, h.numberOfAces) == (17, true) &&
            (DealerStopsAt(h, shoe, n) <==> n == 0)
  {
    var h := Added(Added(NewHand(), Card(Ace, Heart)), Card(Six, Club));
    assert [] + [Card(Ace, Heart)] + [Card(Six, Club)] == [Card(Ace, Heart), Card(Six, Club)];
    PairTotals(Card(Ace, Heart), Card(Six, Club));
    assert AfterDraws(h, shoe, 0) == h;
  }

  /** After m draws of visible cards the dealer's real total is at least m, so the drawing loop ends. */
  lemma DrawnTotalGrows(start: Hand, shoe: Shoe, m: nat)
    requires ShoeVisible(shoe) && m > 0
    ensures Total(AfterDraws(start, shoe, m)) >= m
  {
    HardTotalGrows(start.contains, ShoePrefix(shoe, m));
    SumBounds(start.contains);
  }

  /** One pass of the dealer's loop: the next shoe card is added and the real value recomputed. */
  method DrawOne(start: Hand, shoe: Shoe, dealer: Hand, drawn: nat) returns (next: Hand, total: nat)
    requires ShoeVisible(shoe) && dealer == AfterDraws(start, shoe, drawn)
    ensures next == AfterDraws(start, shoe, drawn + 1)
    ensures total == Total(next) && total >= drawn + 1
  {
    next := AddCard(dealer, shoe(drawn));
    var soft;
    total, soft := GetRealValue(next);
    AddedIsNextDraw(start, shoe, drawn);
    DrawnTotalGrows(start, shoe, drawn + 1);
  }

  /** Loop of `end` in which the dealer draws while the real value is below 17, soft or not. */
  method DrawDealer(start: Hand, shoe: Shoe) returns (dealer: Hand, drawn: nat)
    requires ShoeVisible(shoe)
    ensures DealerStopsAt(start, shoe, drawn) && dealer == AfterDraws(start, shoe, drawn)
    ensures Total(dealer) >= 17 && drawn <= 17
  {
    dealer := start;
    drawn := 0;
    var total, _ := GetRealValue(dealer);
    while total < 17
      invariant dealer == AfterDraws(start, shoe, drawn)
      invariant total == Total(dealer)
      invariant forall m :: 0 <= m < drawn ==> Total(AfterDraws(start, shoe, m)) < 17
      invariant drawn <= 17
      invariant drawn > 0 ==> total >= drawn
      decreases 17 - drawn
    {
      dealer, total := DrawOne(start, shoe, dealer, drawn);
      drawn := drawn + 1;
    }
  }

  /**
   * Ending a round a second time changes nothing: the hole card is already
   * face up, the dealer draws no card, and settlement pays nothing more.
   */
  lemma EndIsIdempotent(ps: seq<Player>, dealer: Hand, hole: Card, shoe: Shoe, n: nat, hole2: Card, shoe2: Shoe)
    requires |dealer.contains| > 0 && hole.IsVisible()
    requires DealerStopsAt(Revealed(dealer, hole), shoe, n)
    ensures var after := AfterDraws(Revealed(dealer, hole), shoe, n);
            var settled := SettledPlayers(ps, Total(after));
            |after.contains| > 0 &&
            Revealed(after, hole2) == after &&
            DealerStopsAt(after, shoe2, 0) && AfterDraws(after, shoe2, 0) == after &&
            SettledPlayers(settled, Total(after)) == settled
  {
    var revealed := Revealed(dealer, hole);
    var after := AfterDraws(revealed, shoe, n);
    AfterDrawsCards(revealed, shoe, n);
    assert after.contains[0] == revealed.contains[0];
    SettlementIsIdempotent(ps, Total(after));
  }

  /** Once every hand is finished, standing marks nothing and the round stays finished. */
  lemma StandAfterRoundChangesNothing(ps: seq<Player>, idx: (nat, nat))
    requires IndexValid(ps, idx) && AllFinished(ps)
    ensures StoodPlayers(ps, idx) == ps && AllFinished(StoodPlayers(ps, idx))
  {
  }

  // ---------------------------------------------------------------------
  // Dealing

  /** A fresh hand carrying the ante of 5. */
  function AnteHand(): Hand
  {
    NewHand().(bet := 5)
  }

  /** A player hand after the deal: the ante hand given two cards. */
  function DealtHand(first: Card, second: Card): Hand
  {
    Added(Added(AnteHand(), first), second)
  }

  /** A player after one dealing pass in which hand j gets card `first + 2*i + j`. */
  function PassDealt(p: Player, shoe: Shoe, first: nat, i: nat): Player
    requires |p.hands| == 2
  {
    p.(hands := [Added(p.hands[0], shoe(first + 2 * i)), Added(p.hands[1], shoe(first + 2 * i + 1))])
  }

  /** Player i of n after `reset`: two dealt hands, 10 taken from the bank, name kept. */
  function DealtPlayer(p: Player, shoe: Shoe, n: nat, i: nat): Player
  {
    Player([DealtHand(shoe(2 * i), shoe(2 * n + 2 * i)), DealtHand(shoe(2 * i + 1), shoe(2 * n + 2 * i + 1))],
           p.name, p.bank - 10)
  }

  /** The players after `reset`. */
  function DealtPlayers(ps: seq<Player>, shoe: Shoe): seq<Player>
  {
    seq(|ps|, i requires 0 <= i < |ps| => DealtPlayer(ps[i], shoe, |ps|, i))
  }

  /** The dealer after `reset`: the hole card, then one card drawn. */
  function DealtDealer(up: Card): Hand
  {
    Added(AddHiddenCard(NewHand()), up)
  }

  lemma PairTotals(a: Card, b: Card)
    ensures Sum([a, b]) == NumericalValue(a) + NumericalValue(b)
    ensures CountAces([a, b]) == (if a.value == Ace then 1 else 0) + (if b.value == Ace then 1 else 0)
  {
    assert [a, b] == [a] + [b];
    assert [a] == [] + [a];
    SumAppend([], a);
    SumAppend([a], b);
  }

  /** A dealt hand: exactly the two cards, consistent caches, bet 5, not yet played. */
  lemma DealtHandIsWellFormed(a: Card, b: Card)
    ensures var h := DealtHand(a, b);
            h.contains == [a, b] && CacheConsistent(h) &&
            h.value == NumericalValue(a) + NumericalValue(b) &&
            h.bet == 5 && h.outcome == NotFinished
  {
    assert [] + [a] + [b] == [a, b];
    PairTotals(a, b);
  }

  /** The dealt dealer: hole card face down, one visible card, whose value alone is the cached total. */
  lemma DealtDealerIsWellFormed(up: Card)
    requires up.IsVisible()
    ensures var d := DealtDealer(up);
            d.contains == [NewHidden(), up] && CacheConsistent(d) &&
            d.value == NumericalValue(up) &&
            d.numberOfAces == (if up.value == Ace then 1 else 0) &&
            d.bet == 0 && d.outcome == NotFinished
  {
    assert [] + [NewHidden()] + [up] == [NewHidden(), up];
    PairTotals(NewHidden(), up);
  }

  /** What a reset deals to the players: two hands of two visible cards each, bet 5, bank less 10. */
  lemma DealtPlayersAreWellFormed(ps: seq<Player>, shoe: Shoe, i: nat, j: nat)
    requires ShoeVisible(shoe) && i < |ps| && j < 2
    ensures var d := DealtPlayers(ps, shoe);
            |d| == |ps| && |d[i].hands| == 2 && d[i].name == ps[i].name && d[i].bank == ps[i].bank - 10 &&
            |d[i].hands[j].contains| == 2 && d[i].hands[j].contains[0].IsVisible() &&
            d[i].hands[j].contains[1].IsVisible() && CacheConsistent(d[i].hands[j]) &&
            d[i].hands[j].bet == 5 && d[i].hands[j].outcome == NotFinished
  {
    var n := |ps|;
    DealtHandIsWellFormed(shoe(2 * i + j), shoe(2 * n + 2 * i + j));
  }

  /** First two loops of `reset`: every player's hands are cleared, then two new hands are pushed. */
  method FreshHands(ps: seq<Player>) returns (r: seq<Player>)
    ensures |r| == |ps|
    ensures forall k :: 0 <= k < |ps| ==> r[k] == ps[k].(hands := [NewHand(), NewHand()])
  {
    r := ps;
    var i := 0;
    while i < |r|
      invariant 0 <= i <= |r| == |ps|
      invariant forall k :: 0 <= k < i ==> r[k] == ps[k].(hands := [])
      invariant forall k :: i <= k < |r| ==> r[k] == ps[k]
    {
      r := r[i := r[i].(hands := [])];
      i := i + 1;
    }
    i := 0;
    while i < |r|
      invariant 0 <= i <= |r| == |ps|
      invariant forall k :: 0 <= k < i ==> r[k] == ps[k].(hands := [NewHand(), NewHand()])
      invariant forall k :: i <= k < |r| ==> r[k] == ps[k].(hands := [])
    {
      r := r[i := r[i].(hands := r[i].hands + [NewHand()] + [NewHand()])];
      i := i + 1;
    }
  }

  /** Ante loop of `reset`: each hand's bet rises by 5 and its player's bank drops by 5. */
  method PlaceAntes(ps: seq<Player>) returns (r: seq<Player>)
    requires forall i :: 0 <= i < |ps| ==> ps[i].hands == [NewHand(), NewHand()]
    ensures |r| == |ps|
    ensures forall i :: 0 <= i < |ps| ==> r[i] == ps[i].(hands := [AnteHand(), AnteHand()], bank := ps[i].bank - 10)
  {
    r := ps;
    var i := 0;
    while i < |r|
      invariant 0 <= i <= |r| == |ps|
      invariant forall k :: 0 <= k < i ==> r[k] == ps[k].(hands := [AnteHand(), AnteHand()], bank := ps[k].bank - 10)
      invariant forall k :: i <= k < |r| ==> r[k] == ps[k]
    {
      var player := r[i];
      var j := 0;
      while j < |player.hands|
        invariant 0 <= j <= |player.hands| == 2
        invariant player.name == ps[i].name && player.bank == ps[i].bank - 5 * j
        invariant forall m :: 0 <= m < j ==> player.hands[m] == AnteHand()
        invariant forall m :: j <= m < 2 ==> player.hands[m] == NewHand()
      {
        player := player.(hands := player.hands[j := player.hands[j].(bet := player.hands[j].bet + 5)],
                          bank := player.bank - 5);
        j := j + 1;
      }
      assert player.hands == [AnteHand(), AnteHand()];
      r := r[i := player];
      i := i + 1;
    }
  }

  /** The two dealing passes over the ante hands give the dealt players. */
  lemma TwoPassesDeal(before: seq<Player>, shoe: Shoe, antes: seq<Player>, firstPass: seq<Player>, secondPass: seq<Player>)
    requires |antes| == |firstPass| == |secondPass| == |before|
    requires forall k :: 0 <= k < |before| ==>
               antes[k] == before[k].(hands := [AnteHand(), AnteHand()], bank := before[k].bank - 10)
    requires forall k :: 0 <= k < |before| ==> firstPass[k] == PassDealt(antes[k], shoe, 0, k)
    requires forall k :: 0 <= k < |before| ==>
               |firstPass[k].hands| == 2 && secondPass[k] == PassDealt(firstPass[k], shoe, 2 * |before|, k)
    ensures secondPass == DealtPlayers(before, shoe)
  {
    forall k | 0 <= k < |before|
      ensures secondPass[k] == DealtPlayers(before, shoe)[k]
    {
    }
  }

  /** The dealt round satisfies the table invariant's conditions on players and dealer. */
  lemma DealtRoundIsValid(ps: seq<Player>, shoe: Shoe, d: seq<Player>, dealer: Hand)
    requires ShoeVisible(shoe) && |ps| > 0
    requires d == DealtPlayers(ps, shoe) && dealer == DealtDealer(shoe(4 * |ps|))
    ensures TableValid(d, dealer, (0, 0))
  {
    forall i, j | 0 <= i < |d| && 0 <= j < |d[i].hands|
      ensures CacheConsistent(d[i].hands[j])
    {
      DealtPlayersAreWellFormed(ps, shoe, i, j);
    }
    DealtDealerIsWellFormed(shoe(4 * |ps|));
  }

  /** Inner loop of a dealing pass: player i's hand j receives card `first + 2*i + j`. */
  method DealToPlayer(p: Player, shoe: Shoe, first: nat, i: nat) returns (q: Player)
    requires ShoeVisible(shoe) && |p.hands| == 2
    ensures q == PassDealt(p, shoe, first, i)
  {
    q := p;
    var j := 0;
    while j < |q.hands|
      invariant 0 <= j <= |q.hands| == 2
      invariant q.name == p.name && q.bank == p.bank
      invariant forall m :: 0 <= m < j ==> q.hands[m] == Added(p.hands[m], shoe(first + 2 * i + m))
      invariant forall m :: j <= m < 2 ==> q.hands[m] == p.hands[m]
    {
      var hand := AddCard(q.hands[j], shoe(first + 2 * i + j));
      q := q.(hands := q.hands[j := hand]);
      j := j + 1;
    }
  }

  /** One dealing pass of `reset`: every hand of every player receives one card, in order. */
  method DealPass(ps: seq<Player>, shoe: Shoe, first: nat) returns (r: seq<Player>)
    requires ShoeVisible(shoe)
    requires forall i :: 0 <= i < |ps| ==> |ps[i].hands| == 2
    ensures |r| == |ps|
    ensures forall i :: 0 <= i < |ps| ==> r[i] == PassDealt(ps[i], shoe, first, i)
  {
    r := ps;
    var i := 0;
    while i < |r|
      invariant 0 <= i <= |r| == |ps|
      invariant forall k :: 0 <= k < i ==> r[k] == PassDealt(ps[k], shoe, first, k)
      invariant forall k :: i <= k < |r| ==> r[k] == ps[k]
    {
      var player := DealToPlayer(r[i], shoe, first, i);
      r := r[i := player];
      i := i + 1;
    }
  }

  /**
   * The dealing of `reset`, in the source's order: hands replaced, antes
   * placed, one card to every hand, the dealer's hole card, a second card to
   * every hand, and the dealer's up card.
   */
  method DealRound(players: seq<Player>, shoe: Shoe) returns (ps: seq<Player>, dealer: Hand)
    requires ShoeVisible(shoe)
    ensures ps == DealtPlayers(players, shoe)
    ensures dealer == DealtDealer(shoe(4 * |players|))
  {
    var n := |players|;
    ps := FreshHands(players);
    ps := PlaceAntes(ps);
    ghost var antes := ps;
    ps := DealPass(ps, shoe, 0);
    dealer := NewHand();
    dealer := AddHiddenCard(dealer);
    ghost var firstPass := ps;
    ps := DealPass(ps, shoe, 2 * n);
    dealer := AddCard(dealer, shoe(4 * n));
    TwoPassesDeal(players, shoe, antes, firstPass, ps);
  }

  // ---------------------------------------------------------------------
  // The table

  /** The players after `initialize`: a default player appended, then player 0 named "Nick" with a bank of 100. */
  function Initialized(ps: seq<Player>): (r: seq<Player>)
    ensures |r| == |ps| + 1
    ensures r[0].name == "Nick" && r[0].bank == 100 && r[0].hands == (ps + [NewPlayer()])[0].hands
    ensures forall k :: 0 < k < |ps| ==> r[k] == ps[k]
    ensures |ps| > 0 ==> r[|ps|] == NewPlayer()
  {
    var grown := ps + [NewPlayer()];
    grown[0 := grown[0].(name := "Nick", bank := 100)]
  }

  /** The players after `hit` with `card` on the hand at `idx`. */
  function HitPlayers(ps: seq<Player>, idx: (nat, nat), card: Card): (r: seq<Player>)
    requires IndexValid(ps, idx)
    ensures |r| == |ps|
    ensures forall i :: 0 <= i < |ps| ==>
              |r[i].hands| == |ps[i].hands| && r[i].name == ps[i].name && r[i].bank == ps[i].bank
    ensures forall i, j :: 0 <= i < |ps| && 0 <= j < |ps[i].hands| && (i, j) != idx ==>
              r[i].hands[j] == ps[i].hands[j]
    ensures var hand := ps[idx.0].hands[idx.1];
            r[idx.0].hands[idx.1] ==
              if hand.outcome == NotFinished && Total(hand) < 21 then Added(hand, card) else hand
  {
    var hand := ps[idx.0].hands[idx.1];
    if hand.outcome == NotFinished && Total(hand) < 21
    then ps[idx.0 := ps[idx.0].(hands := ps[idx.0].hands[idx.1 := Added(hand, card)])]
    else ps
  }

  /**
   * The table during a round: players with equally many hands, a valid
   * active index of the shape next_hand produces (a later player is only
   * active on the last hand position), a dealt dealer hand, and consistent
   * caches on every player hand.
   */
  ghost predicate TableValid(ps: seq<Player>, dealer: Hand, idx: (nat, nat))
  {
    Uniform(ps) && IndexValid(ps, idx) &&
    (idx.0 == 0 || idx.1 == |ps[0].hands| - 1) &&
    |dealer.contains| > 0 &&
    forall i, j :: 0 <= i < |ps| && 0 <= j < |ps[i].hands| ==> CacheConsistent(ps[i].hands[j])
  }

  /** Standing on the active hand and moving the index on keeps the table invariant. */
  lemma StandKeepsTableValid(ps: seq<Player>, dealer: Hand, idx: (nat, nat))
    requires TableValid(ps, dealer, idx)
    ensures var stood := StoodPlayers(ps, idx);
            TableValid(stood, dealer, NextIndex(stood, idx))
  {
    var stood := StoodPlayers(ps, idx);
    forall i, j | 0 <= i < |ps| && 0 <= j < |ps[i].hands|
      ensures stood[i].hands[j].contains == ps[i].hands[j].contains &&
              stood[i].hands[j].value == ps[i].hands[j].value &&
              stood[i].hands[j].numberOfAces == ps[i].hands[j].numberOfAces
    {
      StandOnlyFinishesActiveHand(ps, idx, i, j);
    }
    NextIndexStaysValid(stood, idx);
    NextIndexKeepsTurnShape(stood, idx);
  }

  /**
   * With two or more players of two or more hands, the first hand of the
   * second player is never active, so standing never finishes it: while it
   * is still being played, no stand ends the round.
   */
  lemma SkippedHandBlocksTheEnd(ps: seq<Player>, dealer: Hand, idx: (nat, nat))
    requires TableValid(ps, dealer, idx) && |ps| >= 2 && |ps[0].hands| >= 2
    requires ps[1].hands[0].outcome == NotFinished
    ensures idx != (1, 0)
    ensures var stood := StoodPlayers(ps, idx);
            stood[1].hands[0].outcome == NotFinished && !AllFinished(stood) &&
            NextIndex(stood, idx) != (1, 0)
  {
    var stood := StoodPlayers(ps, idx);
    StandOnlyFinishesActiveHand(ps, idx, 1, 0);
    StandKeepsTableValid(ps, dealer, idx);
  }

  /** Settling every hand, whatever the dealer then holds, keeps the table invariant. */
  lemma SettlementKeepsTableValid(ps: seq<Player>, dealer: Hand, after: Hand, idx: (nat, nat), dealerTotal: nat)
    requires TableValid(ps, dealer, idx) && |after.contains| > 0
    ensures TableValid(SettledPlayers(ps, dealerTotal), after, idx)
  {
    forall i, j | 0 <= i < |ps| && 0 <= j < |ps[i].hands|
      ensures CacheConsistent(SettledPlayers(ps, dealerTotal)[i].hands[j])
    {
      SettledPlayersAreFinal(ps, dealerTotal, i, j);
    }
  }

  class App {
    var exit: bool
    var players: seq<Player>
    var dealerHand: Hand
    var activeHandIndex: (nat, nat)

    /** The table as `main` builds it: no players, an empty dealer hand, index (0,0). */
    constructor ()
      ensures !exit && players == [] && dealerHand == NewHand() && activeHandIndex == (0, 0)
    {
      exit := false;
      players := [];
      dealerHand := NewHand();
      activeHandIndex := (0, 0);
    }

    /** The active index names an existing hand. */
    predicate ActiveValid()
      reads this
    {
      IndexValid(players, activeHandIndex)
    }

    /** The table invariant during a round: see TableValid. */
    ghost predicate Valid()
      reads this
    {
      TableValid(players, dealerHand, activeHandIndex)
    }

    /** `initialize`: a default player is appended, then player 0 is named "Nick" with a bank of 100. */
    method Initialize()
      modifies this`players
      ensures players == Initialized(old(players))
      ensures old(players) == [] ==> players == [Player([], "Nick", 100)]
    {
      players := players + [NewPlayer()];
      players := players[0 := players[0].(name := "Nick")];
      players := players[0 := players[0].(bank := 100)];
    }

    /** `reset`: every player gets two fresh hands with a 5 ante each, two cards per hand are dealt, and the dealer gets a hole card and one up card. */
    method Reset(shoe: Shoe)
      requires ShoeVisible(shoe)
      modifies this
      ensures activeHandIndex == (0, 0) && exit == old(exit)
      ensures players == DealtPlayers(old(players), shoe)
      ensures dealerHand == DealtDealer(shoe(4 * |old(players)|))
      ensures |old(players)| > 0 ==> Valid()
    {
      activeHandIndex := (0, 0);
      var ps, dealer := DealRound(players, shoe);
      if |players| > 0 {
        DealtRoundIsValid(players, shoe, ps, dealer);
      }
      players := ps;
      dealerHand := dealer;
    }

    /** `hit`: one card for the active hand if it is still being played and below 21; otherwise nothing. */
    method Hit(card: Card)
      requires ActiveValid() && card.IsVisible()
      modifies this`players
      ensures players == HitPlayers(old(players), activeHandIndex, card)
      ensures old(Valid()) ==> Valid()
    {
      var (playerIndex, handIndex) := activeHandIndex;
      var hand := players[playerIndex].hands[handIndex];
      if hand.outcome == NotFinished {
        var total, _ := GetRealValue(hand);
        if total < 21 {
          hand := AddCard(hand, card);
          players := players[playerIndex := players[playerIndex].(hands := players[playerIndex].hands[handIndex := hand])];
        }
      }
    }

    /** `next_hand`, as written: the index moves by NextIndex. */
    method NextHand()
      requires activeHandIndex.0 < |players| && |players[activeHandIndex.0].hands| > 0
      modifies this`activeHandIndex
      ensures activeHandIndex == NextIndex(players, old(activeHandIndex))
    {
      var (playerIndex, handIndex) := activeHandIndex;
      if |players[playerIndex].hands| - 1 > handIndex {
        handIndex := handIndex + 1;
      } else {
        if |players| - 1 > playerIndex {
          playerIndex := playerIndex + 1;
        }
      }
      activeHandIndex := (playerIndex, handIndex);
    }

    /** `end`: flip the hole card, let the dealer draw to 17 or more, and settle every hand of every player. */
    method End(hole: Card, shoe: Shoe) returns (ghost drawn: nat)
      requires |dealerHand.contains| > 0
      requires hole.IsVisible() && ShoeVisible(shoe)
      modifies this
      ensures exit == old(exit) && activeHandIndex == old(activeHandIndex)
      ensures DealerStopsAt(Revealed(old(dealerHand), hole), shoe, drawn)
      ensures dealerHand == AfterDraws(Revealed(old(dealerHand), hole), shoe, drawn)
      ensures |dealerHand.contains| == |old(dealerHand.contains)| + drawn
      ensures players == SettledPlayers(old(players), Total(dealerHand))
    {
      var dealer := dealerHand;
      if dealer.contains[0].value == CardValue.Hidden {
        dealer := dealer.(contains := dealer.contains[0 := hole]);
        var v := GetValue(dealer);
        dealer := dealer.(value := v);
      }
      var n;
      ghost var flipped := dealer;
      dealer, n := DrawDealer(dealer, shoe);
      AfterDrawsCards(flipped, shoe, n);
      drawn := n;
      dealerHand := dealer;
      var dealerTotal, _ := GetRealValue(dealerHand);
      players := Settle(players, dealerTotal);
    }

    /**
     * `stay`: the active hand stands if still being played, the index
     * advances, and the round ends once no hand is being played.
     */
    method Stay(hole: Card, shoe: Shoe) returns (ghost ended: bool, ghost drawn: nat)
      requires ActiveValid()
      requires hole.IsVisible() && ShoeVisible(shoe)
      requires AllFinished(StoodPlayers(players, activeHandIndex)) ==> |dealerHand.contains| > 0
      modifies this
      ensures exit == old(exit)
      ensures activeHandIndex == NextIndex(old(players), old(activeHandIndex))
      ensures var stood := StoodPlayers(old(players), old(activeHandIndex));
              ended == AllFinished(stood) &&
              (ended ==> var revealed := Revealed(old(dealerHand), hole);
                         DealerStopsAt(revealed, shoe, drawn) &&
                         dealerHand == AfterDraws(revealed, shoe, drawn) &&
                         players == SettledPlayers(stood, Total(dealerHand))) &&
              (!ended ==> players == stood && dealerHand == old(dealerHand))
      ensures old(Valid()) ==> Valid()
    {
      ghost var wasValid := Valid();
      ghost var dealer := dealerHand;
      var (playerIndex, handIndex) := activeHandIndex;
      var hand := players[playerIndex].hands[handIndex];
      if hand.outcome == NotFinished {
        hand := hand.(outcome := Stand);
        players := players[playerIndex := players[playerIndex].(hands := players[playerIndex].hands[handIndex := hand])];
      }
      ghost var stood := players;
      if wasValid {
        StandKeepsTableValid(old(players), dealer, old(activeHandIndex));
      }
      NextHand();
      var finished := ScanFinished(players);
      ended := finished;
      drawn := 0;
      if finished {
        drawn := End(hole, shoe);
        if wasValid {
          SettlementKeepsTableValid(stood, dealer, dealerHand, activeHandIndex, Total(dealerHand));
        }
      }
    }

    /** `initialize` followed by `reset`, as `run` starts the game. */
    method Start(shoe: Shoe)
      requires ShoeVisible(shoe)
      modifies this
      ensures exit == old(exit) && activeHandIndex == (0, 0)
      ensures players == DealtPlayers(Initialized(old(players)), shoe)
      ensures dealerHand == DealtDealer(shoe(4 * (|old(players)| + 1)))
      ensures Valid()
      ensures old(players) == [] ==> |players| == 1 && players[0].name == "Nick" && players[0].bank == 90
    {
      Initialize();
      Reset(shoe);
    }

    /**
     * `handle_key_event`: the command of the key press, applied to the table.
     * `drawn` is the number of cards the dealer draws when a stand ends the round.
     */
    method HandleKeyEvent(isPress: bool, controlOnly: bool, code: char, card: Card, hole: Card, shoe: Shoe)
      returns (ghost drawn: nat)
      requires card.IsVisible() && hole.IsVisible() && ShoeVisible(shoe)
      requires Input.KeyCommand(isPress, controlOnly, code) == Input.Hit ==> ActiveValid()
      requires Input.KeyCommand(isPress, controlOnly, code) == Input.Stand ==>
                 ActiveValid() && (AllFinished(StoodPlayers(players, activeHandIndex)) ==> |dealerHand.contains| > 0)
      modifies this
      ensures exit == (old(exit) || Input.KeyCommand(isPress, controlOnly, code) == Input.Exit)
      ensures Input.KeyCommand(isPress, controlOnly, code) in {Input.Exit, Input.Ignore} ==>
                players == old(players) && dealerHand == old(dealerHand) && activeHandIndex == old(activeHandIndex)
      ensures Input.KeyCommand(isPress, controlOnly, code) == Input.Hit ==>
                players == HitPlayers(old(players), old(activeHandIndex), card) &&
                dealerHand == old(dealerHand) && activeHandIndex == old(activeHandIndex)
      ensures Input.KeyCommand(isPress, controlOnly, code) == Input.Stand ==>
                activeHandIndex == NextIndex(old(players), old(activeHandIndex)) &&
                var stood := StoodPlayers(old(players), old(activeHandIndex));
                (AllFinished(stood) ==> var revealed := Revealed(old(dealerHand), hole);
                                        DealerStopsAt(revealed, shoe, drawn) &&
                                        dealerHand == AfterDraws(revealed, shoe, drawn) &&
                                        players == SettledPlayers(stood, Total(dealerHand))) &&
                (!AllFinished(stood) ==> players == stood && dealerHand == old(dealerHand))
      ensures Input.KeyCommand(isPress, controlOnly, code) == Input.Reset ==>
                activeHandIndex == (0, 0) && players == DealtPlayers(old(players), shoe) &&
                dealerHand == DealtDealer(shoe(4 * |old(players)|))
      ensures old(Valid()) ==> Valid()
    {
      drawn := 0;
      match Input.KeyCommand(isPress, controlOnly, code)
      case Exit => exit := true;
      case Hit => Hit(card);
      case Stand => ghost var ended;
                    ended, drawn := Stay(hole, shoe);
      case Reset => Reset(shoe);
      case Ignore =>
    }
  }
}
