/** A player's hands during a round: eligibility for DOUBLE and SPLIT, what
    each action does to the hand list, the natural-blackjack payout and the
    per-hand settlement against the dealer. */
module Hands {
  import opened Cards

  datatype Phase = Lobby | Betting | Playing | Results

  datatype Action = Hit | Stand | Double | Split

  /** HandState: the cards, the stake already debited, and whether play on
      the hand is over. */
  datatype Hand = Hand(cards: seq<Card>, bet: int, resolved: bool)

  /** canDouble: in PLAYING, with the round active, for the player whose turn
      it is, on a two-card hand, with the balance covering the bet again. */
  predicate CanDouble(phase: Phase, roundActive: bool, isCurrent: bool, h: Hand, balance: int) {
    phase == Playing && roundActive && isCurrent && |h.cards| == 2 && balance >= h.bet
  }

  /** canSplit: the same, and the two cards have the same rank text. */
  predicate CanSplit(phase: Phase, roundActive: bool, isCurrent: bool, h: Hand, balance: int) {
    phase == Playing && roundActive && isCurrent && |h.cards| == 2
    && SameRank(h.cards[0], h.cards[1]) && balance >= h.bet
  }

  /** Splitting needs exactly two cards of one rank, whatever their suits,
      and is allowed exactly when doubling is allowed and the ranks match. */
  lemma CanSplitIff(phase: Phase, roundActive: bool, isCurrent: bool, h: Hand, balance: int)
    ensures CanSplit(phase, roundActive, isCurrent, h, balance) <==>
            CanDouble(phase, roundActive, isCurrent, h, balance) && h.cards[0].rank == h.cards[1].rank
  {
    if |h.cards| == 2 {
      SameRankIff(h.cards[0], h.cards[1]);
    }
  }

  /** The natural test of takePlayerTurns: the first and only hand, two
      cards, value 21. */
  predicate IsNatural(hands: seq<Hand>, i: nat) {
    i == 0 && |hands| == 1 && |hands[0].cards| == 2 && HandValue(hands[0].cards) == 21
  }

  /** Math.round(bet * 2.5): the nearest integer, halves rounded up. */
  function NaturalPayout(bet: int): (r: int)
    ensures 2 * r <= 5 * bet + 1 < 2 * r + 2
  {
    (5 * bet + 1) / 2
  }

  /** Math.round(bet * 1.5), what a natural adds to the round net. */
  function NaturalNet(bet: int): (r: int)
    ensures 2 * r <= 3 * bet + 1 < 2 * r + 2
  {
    (3 * bet + 1) / 2
  }

  /** The round net of a natural is its payout less the stake. */
  lemma NaturalNetIsPayoutLessBet(bet: int)
    ensures NaturalNet(bet) == NaturalPayout(bet) - bet
  {
  }

  /** A HIT adds one card and leaves the hand in play. */
  function HitHand(h: Hand, c: Card): (r: Hand)
    ensures r.cards == h.cards + [c] && r.bet == h.bet && r.resolved == h.resolved
  {
    h.(cards := h.cards + [c])
  }

  /** A DOUBLE doubles the stake, adds exactly one card and ends play on the hand. */
  function Doubled(h: Hand, c: Card): (r: Hand)
    ensures r.cards == h.cards + [c] && r.bet == 2 * h.bet && r.resolved
  {
    Hand(h.cards + [c], 2 * h.bet, true)
  }

  /** What one more card adds to the all-aces-low total: its pip value,
      with an ace counted as 1. */
  lemma HardTotalSnoc(cards: seq<Card>, c: Card)
    ensures HardTotal(cards + [c]) == HardTotal(cards) + PipValue(c.rank) - (if c.rank == Ace then 10 else 0)
  {
    assert (cards + [c])[..|cards|] == cards;
  }

  /** A HIT on hand i leaves the stakes on the table as they were and
      raises the hand's all-aces-low total by the new card's value. */
  lemma HitKeepsStakes(hands: seq<Hand>, i: nat, c: Card)
    requires i < |hands|
    ensures TotalBet(hands[i := HitHand(hands[i], c)]) == TotalBet(hands)
    ensures HardTotal(HitHand(hands[i], c).cards)
         == HardTotal(hands[i].cards) + PipValue(c.rank) - (if c.rank == Ace then 10 else 0)
  {
    TotalBetUpdate(hands, i, HitHand(hands[i], c));
    HardTotalSnoc(hands[i].cards, c);
  }

  /** A DOUBLE on hand i puts the hand's stake down a second time, raises
      its all-aces-low total by the new card's value, and ends it. */
  lemma DoubleAddsStake(hands: seq<Hand>, i: nat, c: Card)
    requires i < |hands|
    ensures TotalBet(hands[i := Doubled(hands[i], c)]) == TotalBet(hands) + hands[i].bet
    ensures HardTotal(Doubled(hands[i], c).cards)
         == HardTotal(hands[i].cards) + PipValue(c.rank) - (if c.rank == Ace then 10 else 0)
    ensures Doubled(hands[i], c).resolved
  {
    TotalBetUpdate(hands, i, Doubled(hands[i], c));
    HardTotalSnoc(hands[i].cards, c);
  }

  /** A SPLIT of hand i: the first card with a new card stays at i, the
      second card with another new card goes right after it, both with the
      original stake and in play; every other hand keeps its place. */
  function SplitHands(hands: seq<Hand>, i: nat, d1: Card, d2: Card): (r: seq<Hand>)
    requires i < |hands| && |hands[i].cards| >= 2
    ensures |r| == |hands| + 1
    ensures r[..i] == hands[..i] && r[i + 2..] == hands[i + 1..]
    ensures r[i] == Hand([hands[i].cards[0], d1], hands[i].bet, false)
    ensures r[i + 1] == Hand([hands[i].cards[1], d2], hands[i].bet, false)
  {
    hands[..i] + [Hand([hands[i].cards[0], d1], hands[i].bet, false),
                  Hand([hands[i].cards[1], d2], hands[i].bet, false)] + hands[i + 1..]
  }

  /** The stakes on a list of hands. */
  function TotalBet(hands: seq<Hand>): int
    decreases |hands|
  {
    if |hands| == 0 then 0 else TotalBet(hands[..|hands| - 1]) + hands[|hands| - 1].bet
  }

  lemma {:induction false} TotalBetAppend(a: seq<Hand>, b: seq<Hand>)
    ensures TotalBet(a + b) == TotalBet(a) + TotalBet(b)
    decreases |b|
  {
    if |b| == 0 {
      assert a + b == a;
    } else {
      assert (a + b)[..|a + b| - 1] == a + b[..|b| - 1];
      TotalBetAppend(a, b[..|b| - 1]);
    }
  }

  /** Replacing one hand changes the stakes by the difference of the two bets. */
  lemma TotalBetUpdate(hands: seq<Hand>, i: nat, h: Hand)
    requires i < |hands|
    ensures TotalBet(hands[i := h]) == TotalBet(hands) - hands[i].bet + h.bet
  {
    assert hands == hands[..i] + [hands[i]] + hands[i + 1..];
    assert hands[i := h] == hands[..i] + [h] + hands[i + 1..];
    TotalBetAppend(hands[..i] + [hands[i]], hands[i + 1..]);
    TotalBetAppend(hands[..i] + [h], hands[i + 1..]);
    TotalBetAppend(hands[..i], [hands[i]]);
    TotalBetAppend(hands[..i], [h]);
  }

  /** A split puts exactly one more stake of the split hand's size on the table. */
  lemma TotalBetSplit(hands: seq<Hand>, i: nat, d1: Card, d2: Card)
    requires i < |hands| && |hands[i].cards| >= 2
    ensures TotalBet(SplitHands(hands, i, d1, d2)) == TotalBet(hands) + hands[i].bet
  {
    var pre, post := hands[..i], hands[i + 1..];
    var h1 := Hand([hands[i].cards[0], d1], hands[i].bet, false);
    var h2 := Hand([hands[i].cards[1], d2], hands[i].bet, false);
    assert hands == pre + [hands[i]] + post;
    assert SplitHands(hands, i, d1, d2) == pre + [h1, h2] + post;
    TotalBetAppend(pre + [hands[i]], post);
    TotalBetAppend(pre, [hands[i]]);
    TotalBetAppend(pre + [h1, h2], post);
    TotalBetAppend(pre, [h1, h2]);
    assert [h1, h2][..1] == [h1];
  }

  /** How settleRound classifies a hand against the dealer. */
  datatype Outcome = LossBust | Win | Push | Loss

  /** The outcome chain of settleRound: bust first, then dealer bust or a
      higher total wins, equal totals push, anything else loses. */
  function SettleOutcome(total: int, dealerTotal: int): Outcome {
    if total > 21 then LossBust
    else if dealerTotal > 21 || total > dealerTotal then Win
    else if total == dealerTotal then Push
    else Loss
  }

  /** What settleRound credits to the balance for a hand. */
  function Credit(o: Outcome, bet: int): int {
    match o
    case Win => 2 * bet
    case Push => bet
    case _ => 0
  }

  /** The per-hand net of settleRound, computed by its own if-chain; it is
      always the credit less the stake already debited. */
  function HandNet(total: int, dealerTotal: int, bet: int): (net: int)
    ensures net == Credit(SettleOutcome(total, dealerTotal), bet) - bet
  {
    if total > 21 then -bet
    else if dealerTotal > 21 || total > dealerTotal then bet
    else if total == dealerTotal then 0
    else -bet
  }

  /** A hand wins exactly when it is not bust and the dealer busts or is
      beaten; it pushes exactly on equal totals of at most 21. */
  lemma OutcomeIff(total: int, dealerTotal: int)
    ensures SettleOutcome(total, dealerTotal) == Win <==> total <= 21 && (dealerTotal > 21 || total > dealerTotal)
    ensures SettleOutcome(total, dealerTotal) == Push <==> total <= 21 && dealerTotal <= 21 && total == dealerTotal
    ensures SettleOutcome(total, dealerTotal) == LossBust <==> total > 21
  {
  }

  function HandOutcome(h: Hand, dealerTotal: int): Outcome {
    SettleOutcome(HandValue(h.cards), dealerTotal)
  }

  /** What settlement credits over a list of hands. */
  function SumCredit(hands: seq<Hand>, dealerTotal: int): int
    decreases |hands|
  {
    if |hands| == 0 then 0
    else SumCredit(hands[..|hands| - 1], dealerTotal)
         + Credit(HandOutcome(hands[|hands| - 1], dealerTotal), hands[|hands| - 1].bet)
  }

  /** What settlement adds to the round net over a list of hands. */
  function SumNet(hands: seq<Hand>, dealerTotal: int): int
    decreases |hands|
  {
    if |hands| == 0 then 0
    else SumNet(hands[..|hands| - 1], dealerTotal)
         + HandNet(HandValue(hands[|hands| - 1].cards), dealerTotal, hands[|hands| - 1].bet)
  }

  function WinCount(hands: seq<Hand>, dealerTotal: int): nat
    decreases |hands|
  {
    if |hands| == 0 then 0
    else WinCount(hands[..|hands| - 1], dealerTotal)
         + (if HandOutcome(hands[|hands| - 1], dealerTotal) == Win then 1 else 0)
  }

  function LossCount(hands: seq<Hand>, dealerTotal: int): nat
    decreases |hands|
  {
    if |hands| == 0 then 0
    else LossCount(hands[..|hands| - 1], dealerTotal)
         + (if HandOutcome(hands[|hands| - 1], dealerTotal) in {LossBust, Loss} then 1 else 0)
  }

  /** The round net settlement records is what it credits less the stakes. */
  lemma {:induction false} SumNetIsCreditLessStakes(hands: seq<Hand>, dealerTotal: int)
    ensures SumNet(hands, dealerTotal) == SumCredit(hands, dealerTotal) - TotalBet(hands)
    decreases |hands|
  {
    if |hands| > 0 {
      SumNetIsCreditLessStakes(hands[..|hands| - 1], dealerTotal);
    }
  }

  /** Every hand is counted once: as a win, as a loss, or as a push. */
  lemma {:induction false} WinsAndLossesAtMostHands(hands: seq<Hand>, dealerTotal: int)
    ensures WinCount(hands, dealerTotal) + LossCount(hands, dealerTotal) <= |hands|
    decreases |hands|
  {
    if |hands| > 0 {
      WinsAndLossesAtMostHands(hands[..|hands| - 1], dealerTotal);
    }
  }

  /** Settlement never checks whether a hand was already paid as a natural:
      a natural (value 21, never bust) is credited again, twice its stake
      unless the dealer also has 21, when its stake comes back as a push. */
  lemma NaturalSettledAgain(h: Hand, dealerTotal: int)
    requires |h.cards| == 2 && HandValue(h.cards) == 21
    ensures Credit(HandOutcome(h, dealerTotal), h.bet) == (if dealerTotal == 21 then h.bet else 2 * h.bet)
  {
  }

  /** Worked payouts for a stake of 20: a natural pays 50 (net 30), a
      doubled 20 becomes 40, a win pays 2x, a push returns the stake. */
  lemma PayoutExamples()
    ensures NaturalPayout(20) == 50 && NaturalNet(20) == 30
    ensures NaturalPayout(5) == 13
    ensures Credit(SettleOutcome(19, 18), 10) == 20 && Credit(SettleOutcome(19, 22), 10) == 20
    ensures Credit(SettleOutcome(18, 18), 10) == 10 && Credit(SettleOutcome(17, 18), 10) == 0
  {
  }
}
