/**
 * A Blackjack hand: its cards in draw order, the cached raw total and ace
 * count, the wager and the settlement outcome; and the ace-reduction that
 * yields the hand's real value.
 *
 * The source's `u8` counters are `nat` here; RawTotalFitsInByte and
 * DealerDrawFitsInByte show that hitting a player hand below 21, or drawing to
 * a dealer hand below 17, never gets near 256.
 */
module Hands {
  import opened Cards

  /** Settlement state of a hand; settled variants carry (dealer, player) totals. */
  datatype Outcome =
    | NotFinished
    | Stand
    | DealerWins(dealer: nat, player: nat)
    | DealerBusts(dealer: nat, player: nat)
    | PlayerWins(dealer: nat, player: nat)
    | PlayerBusts(dealer: nat, player: nat)
    | DealerBlackjack(total: nat)
    | PlayerBlackjack(total: nat)
    | Push(total: nat)

  /** `value` and `numberOfAces` are caches of Sum and CountAces over `contains`. */
  datatype Hand = Hand(contains: seq<Card>, numberOfAces: nat, value: nat, bet: int, outcome: Outcome)

  /** Raw total: Ace as 11, faces as 10, hidden as 0. */
  function Sum(cards: seq<Card>): nat
  {
    if cards == [] then 0 else NumericalValue(cards[0]) + Sum(cards[1..])
  }

  function CountAces(cards: seq<Card>): nat
  {
    if cards == [] then 0 else (if cards[0].value == Ace then 1 else 0) + CountAces(cards[1..])
  }

  /** Both caches agree with the cards. */
  predicate CacheConsistent(h: Hand)
  {
    h.value == Sum(h.contains) && h.numberOfAces == CountAces(h.contains)
  }

  lemma {:induction false} SumAppend(cards: seq<Card>, c: Card)
    ensures Sum(cards + [c]) == Sum(cards) + NumericalValue(c)
    ensures CountAces(cards + [c]) == CountAces(cards) + (if c.value == Ace then 1 else 0)
  {
    if cards != [] {
      assert (cards + [c])[1..] == cards[1..] + [c];
      SumAppend(cards[1..], c);
    } else {
      assert [c][1..] == [];
    }
  }

  /** Every ace contributes 11, every card at most 11. */
  lemma {:induction false} SumBounds(cards: seq<Card>)
    ensures 11 * CountAces(cards) <= Sum(cards) <= 11 * |cards|
    ensures CountAces(cards) <= |cards|
  {
    if cards != [] {
      SumBounds(cards[1..]);
    }
  }

  /** Counting each ace as 1, every visible card adds at least 1. */
  lemma {:induction false} HardTotalGrows(base: seq<Card>, drawn: seq<Card>)
    requires forall i :: 0 <= i < |drawn| ==> drawn[i].IsVisible()
    ensures Sum(base + drawn) - 10 * CountAces(base + drawn) >= Sum(base) - 10 * CountAces(base) + |drawn|
  {
    if drawn != [] {
      var init := drawn[..|drawn| - 1];
      var last := drawn[|drawn| - 1];
      assert drawn == init + [last];
      assert base + drawn == (base + init) + [last];
      HardTotalGrows(base, init);
      SumAppend(base + init, last);
      assert last.IsVisible();
    } else {
      assert base + drawn == base;
    }
  }

  /** An empty hand with no wager, not yet played. */
  function NewHand(): (h: Hand)
    ensures h.contains == [] && h.bet == 0 && h.outcome == NotFinished
    ensures CacheConsistent(h)
  {
    Hand([], 0, 0, 0, NotFinished)
  }

  /**
   * Real value of a hand with cached raw total `value` and `aces` aces:
   * the total after turning aces from 11 into 1 only while the hand is over
   * 21, and whether an ace is still counted as 11 (soft).
   */
  function RealValue(value: nat, aces: nat): (r: (nat, bool))
    decreases aces
    // the total is the raw total with at most `aces` aces reduced
    ensures value - 10 * aces <= r.0 <= value
    // soft exactly when fewer than `aces` reductions were made, and a soft total never busts
    ensures r.1 <==> value - r.0 < 10 * aces
    ensures r.1 ==> r.0 <= 21
    // busting only once every ace is reduced
    ensures r.0 > 21 ==> r.0 == value - 10 * aces && !r.1
    // reductions happen only above 21 and each one was needed
    ensures value <= 21 ==> r.0 == value
    ensures r.0 < value ==> 11 < r.0 && r.0 + 10 > 21
  {
    if value > 21 && aces > 0 then RealValue(value - 10, aces - 1) else (value, aces > 0)
  }

  /** The reduction turns whole aces from 11 into 1: it subtracts ten a number of times, at most once per ace. */
  lemma {:induction false} RealValueDropsWholeAces(value: nat, aces: nat)
    ensures exists k: nat :: k <= aces && RealValue(value, aces).0 == value - 10 * k
  {
    if value > 21 && aces > 0 {
      RealValueDropsWholeAces(value - 10, aces - 1);
      var k: nat :| k <= aces - 1 && RealValue(value - 10, aces - 1).0 == value - 10 - 10 * k;
      assert RealValue(value, aces).0 == value - 10 * (k + 1);
    } else {
      assert RealValue(value, aces).0 == value - 10 * 0;
    }
  }

  /** The real value is the best total reachable by reducing aces: the largest that does not bust. */
  lemma {:induction false} RealValueIsBestTotal(value: nat, aces: nat, j: nat)
    requires j <= aces
    ensures value - 10 * j <= 21 ==> value - 10 * j <= RealValue(value, aces).0
    ensures RealValue(value, aces).0 > 21 ==> value - 10 * j > 21
  {
    if value > 21 && aces > 0 && j > 0 {
      RealValueIsBestTotal(value - 10, aces - 1, j - 1);
    }
  }

  /** Loop of `get_value`: the raw total, recomputed from the cards. */
  method GetValue(h: Hand) returns (v: nat)
    ensures v == Sum(h.contains)
  {
    v := 0;
    var i := 0;
    while i < |h.contains|
      invariant 0 <= i <= |h.contains|
      invariant v == Sum(h.contains[..i])
    {
      assert h.contains[..i + 1] == h.contains[..i] + [h.contains[i]];
      SumAppend(h.contains[..i], h.contains[i]);
      v := v + NumericalValue(h.contains[i]);
      i := i + 1;
    }
    assert h.contains[..i] == h.contains;
  }

  /** Loop of `get_number_of_aces`: the aces among the cards. */
  method GetNumberOfAces(h: Hand) returns (aces: nat)
    ensures aces == CountAces(h.contains)
  {
    aces := 0;
    var i := 0;
    while i < |h.contains|
      invariant 0 <= i <= |h.contains|
      invariant aces == CountAces(h.contains[..i])
    {
      assert h.contains[..i + 1] == h.contains[..i] + [h.contains[i]];
      SumAppend(h.contains[..i], h.contains[i]);
      if h.contains[i].value == Ace {
        aces := aces + 1;
      }
      i := i + 1;
    }
    assert h.contains[..i] == h.contains;
  }

  /** Loop of `get_real_value`, run on the cached fields. */
  method GetRealValue(h: Hand) returns (value: nat, soft: bool)
    ensures (value, soft) == RealValue(h.value, h.numberOfAces)
  {
    value := h.value;
    var aces: nat := h.numberOfAces;
    soft := false;
    while value > 21 && aces > 0
      invariant RealValue(value, aces) == RealValue(h.value, h.numberOfAces)
      decreases aces
    {
      aces := aces - 1;
      value := value - 10;
    }
    if aces > 0 {
      soft := true;
    }
  }

  /** The hand after `add_card`: the card appended and both caches recomputed. */
  function Added(h: Hand, c: Card): (r: Hand)
    ensures CacheConsistent(r)
    ensures CacheConsistent(h) ==>
              r.value == h.value + NumericalValue(c) &&
              r.numberOfAces == h.numberOfAces + (if c.value == Ace then 1 else 0)
  {
    SumAppend(h.contains, c);
    h.(contains := h.contains + [c], value := Sum(h.contains + [c]), numberOfAces := CountAces(h.contains + [c]))
  }

  /** `add_card`, with the drawn card supplied by the caller. */
  method AddCard(h: Hand, c: Card) returns (r: Hand)
    requires c.IsVisible()
    ensures r.contains == h.contains + [c]
    ensures CacheConsistent(r)
    ensures r.bet == h.bet && r.outcome == h.outcome
    ensures r == Added(h, c)
  {
    r := h.(contains := h.contains + [c]);
    var v := GetValue(r);
    r := r.(value := v);
    var aces := GetNumberOfAces(r);
    r := r.(numberOfAces := aces);
  }

  /** `add_hidden_card`: appends the hole card and leaves both caches as they are. */
  function AddHiddenCard(h: Hand): (r: Hand)
    ensures r.contains == h.contains + [NewHidden()]
    ensures r.value == h.value && r.numberOfAces == h.numberOfAces
    ensures r.bet == h.bet && r.outcome == h.outcome
    ensures CacheConsistent(h) ==> CacheConsistent(r)
  {
    SumAppend(h.contains, NewHidden());
    h.(contains := h.contains + [NewHidden()])
  }

  /** A consistent hand that may still be hit stays far below the `u8` limit after the hit. */
  lemma RawTotalFitsInByte(cards: seq<Card>, c: Card)
    requires RealValue(Sum(cards), CountAces(cards)).0 < 21
    ensures Sum(cards + [c]) <= 231
  {
    SumBounds(cards);
    SumAppend(cards, c);
  }

  /** A consistent dealer hand below 17, the only kind the dealer draws to, stays below the `u8` limit after the draw. */
  lemma DealerDrawFitsInByte(cards: seq<Card>, c: Card)
    requires RealValue(Sum(cards), CountAces(cards)).0 < 17
    ensures Sum(cards + [c]) <= 187
  {
    SumBounds(cards);
    SumAppend(cards, c);
  }

  /** Real values of concrete hands. */
  lemma RealValueExamples()
    ensures var h := [Card(Ace, Heart), Card(Six, Club)];
            RealValue(Sum(h), CountAces(h)) == (17, true)
    ensures var h := [Card(Ten, Heart), Card(Seven, Club), Card(Ace, Spade)];
            RealValue(Sum(h), CountAces(h)) == (18, false)
    ensures var h := [Card(Ten, Heart), Card(King, Club), Card(Five, Spade)];
            RealValue(Sum(h), CountAces(h)) == (25, false)
    ensures var h := [Card(Ace, Heart), Card(Six, Club), Card(Ten, Diamond)];
            RealValue(Sum(h), CountAces(h)) == (17, false)
  {
  }
}
