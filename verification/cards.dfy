/** Cards and the value of a blackjack hand. The table writes a card as its
    rank text followed by one suit symbol ("10♠", "A♥"); the model keeps the
    rank and suit as a datatype and gives the text through CardText. */
module Cards {

  datatype Rank = Two | Three | Four | Five | Six | Seven | Eight | Nine | Ten
                | Jack | Queen | King | Ace

  datatype Suit = Spades | Hearts | Diamonds | Clubs

  datatype Card = Card(rank: Rank, suit: Suit)

  /** The rank as the deck writes it. */
  function RankText(r: Rank): string {
    match r
    case Two => "2"
    case Three => "3"
    case Four => "4"
    case Five => "5"
    case Six => "6"
    case Seven => "7"
    case Eight => "8"
    case Nine => "9"
    case Ten => "10"
    case Jack => "J"
    case Queen => "Q"
    case King => "K"
    case Ace => "A"
  }

  function SuitSymbol(s: Suit): char {
    match s
    case Spades => '♠'
    case Hearts => '♥'
    case Diamonds => '♦'
    case Clubs => '♣'
  }

  /** The text dealCard produces: the rank followed by the suit symbol. */
  function CardText(c: Card): string {
    RankText(c.rank) + [SuitSymbol(c.suit)]
  }

  /** rankOf: the card text without its last character (the suit). */
  function RankOf(card: string): (r: string)
    requires |card| > 0
    ensures |r| == |card| - 1 && r + [card[|card| - 1]] == card
  {
    card[..|card| - 1]
  }

  /** rankOf recovers the rank text of every card the deck produces. */
  lemma RankOfCardText(c: Card)
    ensures RankOf(CardText(c)) == RankText(c.rank)
  {
    assert CardText(c)[..|CardText(c)| - 1] == RankText(c.rank);
  }

  lemma RankTextInjective(r1: Rank, r2: Rank)
    ensures RankText(r1) == RankText(r2) <==> r1 == r2
  {
    if RankText(r1) == RankText(r2) {
      assert RankText(r1)[0] == RankText(r2)[0];
    }
  }

  /** sameRank, comparing the rank texts as the source does. */
  predicate SameRank(c1: Card, c2: Card) {
    RankOf(CardText(c1)) == RankOf(CardText(c2))
  }

  /** Two cards have the same rank text exactly when they have the same rank;
      the suit plays no part. */
  lemma SameRankIff(c1: Card, c2: Card)
    ensures SameRank(c1, c2) <==> c1.rank == c2.rank
  {
    RankOfCardText(c1);
    RankOfCardText(c2);
    RankTextInjective(c1.rank, c2.rank);
  }

  /** What a card adds before any ace is downgraded: faces 10, aces 11,
      number cards their number. */
  function PipValue(r: Rank): nat {
    match r
    case Two => 2
    case Three => 3
    case Four => 4
    case Five => 5
    case Six => 6
    case Seven => 7
    case Eight => 8
    case Nine => 9
    case Ten => 10
    case Jack => 10
    case Queen => 10
    case King => 10
    case Ace => 11
  }

  /** The total with every ace counted as 11. */
  function SoftTotal(cards: seq<Card>): nat
    decreases |cards|
  {
    if |cards| == 0 then 0
    else SoftTotal(cards[..|cards| - 1]) + PipValue(cards[|cards| - 1].rank)
  }

  function AceCount(cards: seq<Card>): nat
    decreases |cards|
  {
    if |cards| == 0 then 0
    else AceCount(cards[..|cards| - 1]) + (if cards[|cards| - 1].rank == Ace then 1 else 0)
  }

  /** The total with every ace counted as 1. */
  function HardTotal(cards: seq<Card>): int {
    SoftTotal(cards) - 10 * AceCount(cards)
  }

  /** Downgrades aces one at a time, 10 each, while the total is over 21. */
  function Downgrade(value: int, aces: nat): int
    decreases aces
  {
    if value > 21 && aces > 0 then Downgrade(value - 10, aces - 1) else value
  }

  /** handValue */
  function HandValue(cards: seq<Card>): int {
    Downgrade(SoftTotal(cards), AceCount(cards))
  }

  /** Each ace is worth at least 1, so the aces never outweigh the total. */
  lemma {:induction false} HardTotalAtLeastCards(cards: seq<Card>)
    ensures HardTotal(cards) >= |cards|
    decreases |cards|
  {
    if |cards| > 0 {
      HardTotalAtLeastCards(cards[..|cards| - 1]);
    }
  }

  /** Downgrading stops at the first total that is at most 21, or when no
      ace is left to downgrade. */
  lemma {:induction false} DowngradeShape(value: int, aces: nat)
    ensures exists k :: (0 <= k <= aces && Downgrade(value, aces) == value - 10 * k
                         && (Downgrade(value, aces) <= 21 || k == aces)
                         && (k > 0 ==> Downgrade(value, aces) + 10 > 21))
    decreases aces
  {
    if value > 21 && aces > 0 {
      DowngradeShape(value - 10, aces - 1);
      var k :| 0 <= k <= aces - 1 && Downgrade(value - 10, aces - 1) == value - 10 - 10 * k
        && (Downgrade(value - 10, aces - 1) <= 21 || k == aces - 1)
        && (k > 0 ==> Downgrade(value - 10, aces - 1) + 10 > 21);
      assert Downgrade(value, aces) == value - 10 * (k + 1);
    } else {
      assert Downgrade(value, aces) == value - 10 * 0;
    }
  }

  /** The value of a hand is its soft total less 10 for each of the first k
      aces downgraded, where k is the least number that brings the total to
      21 or below, or every ace when none does. So the value exceeds 21 only
      when every ace already counts as 1, and every downgrade was needed. */
  lemma HandValueShape(cards: seq<Card>)
    ensures exists k :: (0 <= k <= AceCount(cards)
                         && HandValue(cards) == SoftTotal(cards) - 10 * k
                         && (HandValue(cards) <= 21 || k == AceCount(cards))
                         && (k > 0 ==> HandValue(cards) + 10 > 21))
    ensures HardTotal(cards) <= HandValue(cards) <= SoftTotal(cards)
    ensures HandValue(cards) > 21 ==> HandValue(cards) == HardTotal(cards)
  {
    DowngradeShape(SoftTotal(cards), AceCount(cards));
  }

  /** handValue's two loops: the first sums the cards and counts the aces,
      the second downgrades aces while the total is over 21. */
  method ComputeHandValue(hand: seq<Card>) returns (value: int)
    ensures value == HandValue(hand)
  {
    value := 0;
    var aces: nat := 0;
    for k := 0 to |hand|
      invariant value == SoftTotal(hand[..k])
      invariant aces == AceCount(hand[..k])
    {
      assert hand[..k + 1][..k] == hand[..k];
      var card := hand[k];
      match card.rank
      case Jack | Queen | King => value := value + 10;
      case Ace => value := value + 11; aces := aces + 1;
      case _ => value := value + PipValue(card.rank);
    }
    assert hand[..|hand|] == hand;
    while value > 21 && aces > 0
      invariant Downgrade(value, aces) == HandValue(hand)
      decreases aces
    {
      value := value - 10;
      aces := aces - 1;
    }
  }

  /** Adding a card raises the all-aces-low total by at least one. */
  lemma AddCardRaisesHardTotal(cards: seq<Card>, c: Card)
    ensures HardTotal(cards + [c]) >= HardTotal(cards) + 1
  {
    assert (cards + [c])[..|cards|] == cards;
  }

  /** The worked values: [A,A] is 12, [A,K] is 21, [A,A,9] is 21. */
  lemma HandValueExamples()
    ensures HandValue([Card(Ace, Spades), Card(Ace, Hearts)]) == 12
    ensures HandValue([Card(Ace, Spades), Card(King, Hearts)]) == 21
    ensures HandValue([Card(Ace, Spades), Card(Ace, Hearts), Card(Nine, Clubs)]) == 21
  {
    var a := [Card(Ace, Spades)];
    assert a[..0] == [];
    var aa := a + [Card(Ace, Hearts)];
    assert aa[..1] == a;
    assert SoftTotal(aa) == 22 && AceCount(aa) == 2;
    var ak := a + [Card(King, Hearts)];
    assert ak[..1] == a;
    assert SoftTotal(ak) == 21 && AceCount(ak) == 1;
    var aa9 := aa + [Card(Nine, Clubs)];
    assert aa9[..2] == aa;
    assert SoftTotal(aa9) == 31 && AceCount(aa9) == 2;
    assert aa == [Card(Ace, Spades), Card(Ace, Hearts)];
    assert ak == [Card(Ace, Spades), Card(King, Hearts)];
    assert aa9 == [Card(Ace, Spades), Card(Ace, Hearts), Card(Nine, Clubs)];
  }
}
