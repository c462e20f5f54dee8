/**
 * Playing cards of the Blackjack engine: ranks, suits, the face-down
 * sentinel, numerical values, and the index-to-rank/suit maps that turn a
 * uniformly drawn index into a card.
 *
 * Randomness itself is not modelled: a draw is an index (or a visible card)
 * supplied by the caller.
 */
module Cards {

  datatype CardValue =
    | Two | Three | Four | Five | Six | Seven | Eight | Nine | Ten
    | Jack | Queen | King | Ace
    | Hidden

  datatype CardSuit = Heart | Spade | Club | Diamond | Hidden

  datatype Card = Card(value: CardValue, suit: CardSuit) {

    /** Neither rank nor suit is the face-down sentinel. */
    predicate IsVisible() {
      value != CardValue.Hidden && suit != CardSuit.Hidden
    }

    /** Rank and suit are both the face-down sentinel. */
    predicate IsFullyHidden() {
      value == CardValue.Hidden && suit == CardSuit.Hidden
    }
  }

  /** Blackjack value of a card: Ace counts 11, faces 10, the hidden card 0. */
  function NumericalValue(c: Card): (r: nat)
    ensures r <= 11
    ensures r == 0 <==> c.value == CardValue.Hidden
    ensures r == 11 <==> c.value == Ace
    ensures r == 10 <==> c.value in {Ten, Jack, Queen, King}
    ensures c.value != CardValue.Hidden ==> 2 <= r
  {
    match c.value
    case Two => 2
    case Three => 3
    case Four => 4
    case Five => 5
    case Six => 6
    case Seven => 7
    case Eight => 8
    case Nine => 9
    case Ten => 10
    case Jack => 10
    case Queen => 10
    case King => 10
    case Ace => 11
    case Hidden => 0
  }

  /** The dealer's hole card, face down. */
  function NewHidden(): (c: Card)
    ensures c.IsFullyHidden() && !c.IsVisible()
    ensures NumericalValue(c) == 0
  {
    Card(CardValue.Hidden, CardSuit.Hidden)
  }

  /** Suit for an index drawn uniformly from 0..=3. */
  function SampleSuit(index: nat): (s: CardSuit)
    requires index <= 3
    ensures s != CardSuit.Hidden
  {
    match index
    case 0 => Heart
    case 1 => Spade
    case 2 => Club
    case 3 => Diamond
  }

  /** Rank for an index drawn uniformly from 0..=12. */
  function SampleValue(index: nat): (v: CardValue)
    requires index <= 12
    ensures v != CardValue.Hidden
  {
    match index
    case 0 => Two
    case 1 => Three
    case 2 => Four
    case 3 => Five
    case 4 => Six
    case 5 => Seven
    case 6 => Eight
    case 7 => Nine
    case 8 => Ten
    case 9 => Jack
    case 10 => Queen
    case 11 => King
    case 12 => Ace
  }

  /** A freshly drawn card; also what a flipped hole card becomes. */
  function NewCard(valueIndex: nat, suitIndex: nat): (c: Card)
    requires valueIndex <= 12 && suitIndex <= 3
    ensures c.IsVisible()
  {
    Card(SampleValue(valueIndex), SampleSuit(suitIndex))
  }

  /** The index that SampleSuit maps to a visible suit. */
  function SuitIndex(s: CardSuit): (i: nat)
    requires s != CardSuit.Hidden
    ensures i <= 3 && SampleSuit(i) == s
  {
    match s
    case Heart => 0
    case Spade => 1
    case Club => 2
    case Diamond => 3
  }

  /** The index that SampleValue maps to a visible rank. */
  function ValueIndex(v: CardValue): (i: nat)
    requires v != CardValue.Hidden
    ensures i <= 12 && SampleValue(i) == v
  {
    match v
    case Two => 0
    case Three => 1
    case Four => 2
    case Five => 3
    case Six => 4
    case Seven => 5
    case Eight => 6
    case Nine => 7
    case Ten => 8
    case Jack => 9
    case Queen => 10
    case King => 11
    case Ace => 12
  }

  /** The sampling maps are one-to-one: distinct indices give distinct ranks and suits. */
  lemma SamplingIsInjective(i: nat, j: nat)
    requires i <= 12 && j <= 12
    ensures SampleValue(i) == SampleValue(j) ==> i == j
    ensures i <= 3 && j <= 3 ==> (SampleSuit(i) == SampleSuit(j) ==> i == j)
  {
    if SampleValue(i) == SampleValue(j) {
      assert ValueIndex(SampleValue(i)) == i;
      assert ValueIndex(SampleValue(j)) == j;
    }
    if i <= 3 && j <= 3 && SampleSuit(i) == SampleSuit(j) {
      assert SuitIndex(SampleSuit(i)) == i;
      assert SuitIndex(SampleSuit(j)) == j;
    }
  }

  /** Drawing reaches exactly the visible cards: 13 ranks times 4 suits. */
  lemma DrawnCardsAreTheVisibleCards(c: Card)
    ensures c.IsVisible() <==>
            exists vi: nat, si: nat :: vi <= 12 && si <= 3 && NewCard(vi, si) == c
  {
    if c.IsVisible() {
      var vi, si := ValueIndex(c.value), SuitIndex(c.suit);
      assert NewCard(vi, si) == c;
    }
  }

  /** The value of a drawn card as a function of the rank index. */
  lemma DrawnValue(vi: nat, si: nat)
    requires vi <= 12 && si <= 3
    ensures NumericalValue(NewCard(vi, si)) ==
            if vi <= 8 then vi + 2 else if vi <= 11 then 10 else 11
  {
  }
}
