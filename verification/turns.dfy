/** One player's turn and one player's settlement, on values: the loops of
    takePlayerTurns and of the per-hand part of settleRound. The table class
    reads the player's state out of its maps, runs these, and writes the
    result back. */
module Turns {
  import opened Wrappers
  import opened Cards
  import opened Hands
  import opened Bounded
  import opened Accounts

  /** The type strings of ledger entries; the four settlement types are the
      outcomes of the hand. */
  datatype EntryKind = AdminFunds | BuyInTopUp | BetStake | WinBlackjack | DoubleBet | SplitBet
                     | Settled(outcome: Outcome)

  /** LedgerEntry without its timestamp. */
  datatype LedgerEntry = LedgerEntry(kind: EntryKind, delta: int, balanceAfter: int)

  /** One line of a round log: whose hand, which of their hands, its cards,
      total and stake, and how it settled. */
  datatype HandLine = HandLine(user: UserId, handIndex: nat, cards: seq<Card>, total: int, bet: int,
                               outcome: Outcome)

  /** What a player's turn works on: their hands, balance and ledger, the
      actions already queued for them, the actions that arrive while the turn
      waits (None: the 45 second poll timed out), and how many cards the shoe
      has dealt. */
  datatype Turn = Turn(hands: seq<Hand>, balance: int, entries: seq<LedgerEntry>,
                       queue: seq<Action>, arrivals: seq<Option<Action>>, drawn: nat)

  /** The actions still to come. */
  function Pending(t: Turn): nat {
    |t.queue| + |t.arrivals|
  }

  /** pollAction: nothing without a queue; otherwise the oldest queued
      action, else the next arrival. An exhausted arrival list times out. */
  function Poll(hasQueue: bool, t: Turn): (r: (Option<Action>, Turn))
    ensures r.1 == t.(queue := r.1.queue, arrivals := r.1.arrivals)
    ensures r.0.Some? ==> Pending(r.1) == Pending(t) - 1
    ensures r.0.None? ==> Pending(r.1) <= Pending(t)
    ensures |r.1.queue| <= |t.queue|
    ensures !hasQueue || Pending(t) == 0 ==> r.0.None? && r.1 == t
    ensures hasQueue && |t.queue| > 0 ==> r.0 == Some(t.queue[0]) && r.1.queue == t.queue[1..]
  {
    if !hasQueue then (None, t)
    else if |t.queue| > 0 then (Some(t.queue[0]), t.(queue := t.queue[1..]))
    else if |t.arrivals| > 0 then (t.arrivals[0], t.(arrivals := t.arrivals[1..]))
    else (None, t)
  }

  /** The action a poll yields: a timeout counts as STAND. */
  function Taken(o: Option<Action>): Action {
    if o.Some? then o.value else Stand
  }

  /** The polled action applied to the state the poll leaves, on hand i
      holding `h`: HIT adds the next card of the shoe; STAND resolves; an
      allowed DOUBLE debits the stake once more, logs a DOUBLE_BET entry,
      doubles the stake, adds one card and resolves; an allowed SPLIT debits
      the stake once more, logs a SPLIT_BET entry and splits the hand over
      the next two cards; a DOUBLE or SPLIT that is not allowed only uses up
      the action. The flag says whether play on the hand is over. */
  function Applied(draw: nat -> Card, phase: Phase, roundActive: bool, t: Turn, i: nat, h: Hand, act: Action)
    : (r: (Turn, bool))
    requires i < |t.hands| && t.hands[i] == h
  {
    var bal := t.balance - h.bet;
    match act
    case Hit => (t.(hands := t.hands[i := HitHand(h, draw(t.drawn))], drawn := t.drawn + 1), false)
    case Stand => (t.(hands := t.hands[i := h.(resolved := true)]), true)
    case Double =>
      if CanDouble(phase, roundActive, true, h, t.balance) then
        (t.(hands := t.hands[i := Doubled(h, draw(t.drawn))], balance := bal,
            entries := NewestFirst(t.entries, LedgerEntry(DoubleBet, -h.bet, bal), LedgerCap),
            drawn := t.drawn + 1), true)
      else (t, false)
    case Split =>
      if CanSplit(phase, roundActive, true, h, t.balance) then
        (t.(hands := SplitHands(t.hands, i, draw(t.drawn), draw(t.drawn + 1)), balance := bal,
            entries := NewestFirst(t.entries, LedgerEntry(SplitBet, -h.bet, bal), LedgerCap),
            drawn := t.drawn + 2), false)
      else (t, false)
  }

  /** One pass of the inner loop of takePlayerTurns on hand i, as a value:
      the state after the pass and whether play on the hand is over. A bust
      hand is resolved without polling; otherwise the polled action is
      applied to the state the poll leaves. Play ends only on a resolved
      hand, and a pass that does not end it has used up an action. */
  function Step(draw: nat -> Card, phase: Phase, roundActive: bool, hasQueue: bool, t: Turn, i: nat)
    : (r: (Turn, bool))
    requires i < |t.hands|
    ensures i < |r.0.hands| && |t.hands| <= |r.0.hands|
    ensures r.1 ==> r.0.hands[i].resolved
    ensures r.1 || Pending(r.0) < Pending(t)
    ensures Pending(r.0) <= Pending(t) && (Pending(r.0) == Pending(t) ==> |r.0.hands| == |t.hands|)
  {
    var h := t.hands[i];
    if HandValue(h.cards) > 21 then (t.(hands := t.hands[i := h.(resolved := true)]), true)
    else
      var p := Poll(hasQueue, t);
      Applied(draw, phase, roundActive, p.1, i, h, Taken(p.0))
  }

  /** What a turn keeps from `t` to `r` while it works on hand i: the hands
      before i, the money on the balance and the stakes together, a
      non-negative balance and the ledger cap; the shoe and the queue only
      move forward. */
  ghost predicate Keeps(t: Turn, r: Turn, i: nat)
    requires i <= |t.hands| && i <= |r.hands|
  {
    r.hands[..i] == t.hands[..i] && r.balance + TotalBet(r.hands) == t.balance + TotalBet(t.hands)
    && (t.balance >= 0 ==> r.balance >= 0) && r.drawn >= t.drawn && |r.queue| <= |t.queue|
    && (|t.entries| <= LedgerCap ==> |r.entries| <= LedgerCap)
  }

  /** Replacing hand i while moving its change of stake off the balance
      keeps what a turn keeps. */
  lemma UpdateKeeps(t: Turn, i: nat, h: Hand, bal: int, es: seq<LedgerEntry>, d: nat)
    requires i < |t.hands| && bal + h.bet == t.balance + t.hands[i].bet && (t.balance >= 0 ==> bal >= 0)
    requires d >= t.drawn && (|t.entries| <= LedgerCap ==> |es| <= LedgerCap)
    ensures Keeps(t, t.(hands := t.hands[i := h], balance := bal, entries := es, drawn := d), i)
  {
    TotalBetUpdate(t.hands, i, h);
  }

  /** Splitting hand i while moving the second stake off the balance keeps
      what a turn keeps. */
  lemma SplitKeeps(t: Turn, i: nat, d1: Card, d2: Card, es: seq<LedgerEntry>)
    requires i < |t.hands| && |t.hands[i].cards| >= 2 && t.balance >= t.hands[i].bet
    requires |t.entries| <= LedgerCap ==> |es| <= LedgerCap
    ensures Keeps(t, t.(hands := SplitHands(t.hands, i, d1, d2), balance := t.balance - t.hands[i].bet, entries := es,
                        drawn := t.drawn + 2), i)
  {
    TotalBetSplit(t.hands, i, d1, d2);
  }

  /** Every action keeps what a turn keeps. */
  lemma AppliedKeeps(draw: nat -> Card, phase: Phase, roundActive: bool, t: Turn, i: nat, h: Hand, act: Action)
    requires i < |t.hands| && t.hands[i] == h
    ensures Keeps(t, Applied(draw, phase, roundActive, t, i, h, act).0, i)
  {
    var bal := t.balance - h.bet;
    match act
    case Hit => UpdateKeeps(t, i, HitHand(h, draw(t.drawn)), t.balance, t.entries, t.drawn + 1);
    case Stand => UpdateKeeps(t, i, h.(resolved := true), t.balance, t.entries, t.drawn);
    case Double =>
      if CanDouble(phase, roundActive, true, h, t.balance) {
        UpdateKeeps(t, i, Doubled(h, draw(t.drawn)), bal,
                    NewestFirst(t.entries, LedgerEntry(DoubleBet, -h.bet, bal), LedgerCap), t.drawn + 1);
      } else {
        UpdateKeeps(t, i, h, t.balance, t.entries, t.drawn);
      }
    case Split =>
      if CanSplit(phase, roundActive, true, h, t.balance) {
        SplitKeeps(t, i, draw(t.drawn), draw(t.drawn + 1),
                   NewestFirst(t.entries, LedgerEntry(SplitBet, -h.bet, bal), LedgerCap));
      } else {
        UpdateKeeps(t, i, h, t.balance, t.entries, t.drawn);
      }
  }

  /** One pass keeps what a turn keeps. Without a queue, or with no action
      left, it just resolves the hand. */
  lemma StepKeeps(draw: nat -> Card, phase: Phase, roundActive: bool, hasQueue: bool, t: Turn, i: nat)
    requires i < |t.hands|
    ensures Keeps(t, Step(draw, phase, roundActive, hasQueue, t, i).0, i)
    ensures !hasQueue || Pending(t) == 0 ==>
              Step(draw, phase, roundActive, hasQueue, t, i) == (t.(hands := t.hands[i := t.hands[i].(resolved := true)]), true)
  {
    var h := t.hands[i];
    if HandValue(h.cards) > 21 {
      TotalBetUpdate(t.hands, i, h.(resolved := true));
    } else {
      var p := Poll(hasQueue, t);
      AppliedKeeps(draw, phase, roundActive, p.1, i, h, Taken(p.0));
    }
  }

  /** The switch of takePlayerTurns on a polled action, as Applied
      describes it, action by action. */
  method Apply(draw: nat -> Card, phase: Phase, roundActive: bool, t: Turn, i: nat, h: Hand, act: Action)
    returns (r: Turn, done: bool)
    requires i < |t.hands| && t.hands[i] == h
    ensures (r, done) == Applied(draw, phase, roundActive, t, i, h, act)
    ensures act == Hit ==> !done && r == t.(hands := t.hands[i := HitHand(h, draw(t.drawn))], drawn := t.drawn + 1)
    ensures act == Stand ==> done && r == t.(hands := t.hands[i := h.(resolved := true)])
    ensures act == Double && CanDouble(phase, roundActive, true, h, t.balance) ==>
              done && r == t.(hands := t.hands[i := Doubled(h, draw(t.drawn))], balance := t.balance - h.bet,
                              entries := NewestFirst(t.entries, LedgerEntry(DoubleBet, -h.bet, t.balance - h.bet),
                                                     LedgerCap),
                              drawn := t.drawn + 1)
    ensures act == Split && CanSplit(phase, roundActive, true, h, t.balance) ==>
              !done && r == t.(hands := SplitHands(t.hands, i, draw(t.drawn), draw(t.drawn + 1)),
                               balance := t.balance - h.bet,
                               entries := NewestFirst(t.entries, LedgerEntry(SplitBet, -h.bet, t.balance - h.bet),
                                                      LedgerCap),
                               drawn := t.drawn + 2)
    ensures (act == Double && !CanDouble(phase, roundActive, true, h, t.balance))
            || (act == Split && !CanSplit(phase, roundActive, true, h, t.balance)) ==>
              !done && r == t
  {
    r, done := t, false;
    match act
    case Hit =>
      r := r.(hands := r.hands[i := HitHand(h, draw(r.drawn))], drawn := r.drawn + 1);
    case Stand =>
      r := r.(hands := r.hands[i := h.(resolved := true)]);
      done := true;
    case Double =>
      if CanDouble(phase, roundActive, true, h, r.balance) {
        var bal := r.balance - h.bet;
        var es := PushFront(r.entries, LedgerEntry(DoubleBet, -h.bet, bal), LedgerCap);
        r := r.(hands := r.hands[i := Doubled(h, draw(r.drawn))], balance := bal, entries := es, drawn := r.drawn + 1);
        done := true;
      }
    case Split =>
      if CanSplit(phase, roundActive, true, h, r.balance) {
        var bal := r.balance - h.bet;
        var es := PushFront(r.entries, LedgerEntry(SplitBet, -h.bet, bal), LedgerCap);
        var c1 := draw(r.drawn);
        var c2 := draw(r.drawn + 1);
        r := r.(hands := SplitHands(r.hands, i, c1, c2), balance := bal, entries := es, drawn := r.drawn + 2);
      }
  }

  /** One pass of the inner loop of takePlayerTurns on hand i, as Step
      describes it: a bust hand is resolved and nothing is polled; otherwise
      one action is polled, a timeout counting as STAND, and applied as Apply
      says to the state the poll leaves. `done` says whether play on the hand
      is over. Money only moves between the balance and the stakes. */
  method HandStep(draw: nat -> Card, phase: Phase, roundActive: bool, hasQueue: bool, t: Turn, i: nat)
    returns (r: Turn, done: bool)
    requires i < |t.hands|
    ensures (r, done) == Step(draw, phase, roundActive, hasQueue, t, i)
    ensures HandValue(t.hands[i].cards) > 21 ==> done && r == t.(hands := t.hands[i := t.hands[i].(resolved := true)])
    ensures Keeps(t, r, i)
    ensures !hasQueue || Pending(t) == 0 ==> done && r == t.(hands := t.hands[i := t.hands[i].(resolved := true)])
  {
    StepKeeps(draw, phase, roundActive, hasQueue, t, i);
    var h := t.hands[i];
    if HandValue(h.cards) > 21 {
      return t.(hands := t.hands[i := h.(resolved := true)]), true;
    }
    var polled := Poll(hasQueue, t);
    r, done := Apply(draw, phase, roundActive, polled.1, i, h, Taken(polled.0));
  }

  /** The inner loop of takePlayerTurns on hand i as a value: passes are
      taken until play on the hand is over. */
  function Played(draw: nat -> Card, phase: Phase, roundActive: bool, hasQueue: bool, t: Turn, i: nat): (r: Turn)
    requires i < |t.hands|
    ensures i < |r.hands| && |t.hands| <= |r.hands| && r.hands[i].resolved
    ensures Pending(r) <= Pending(t) && (Pending(r) == Pending(t) ==> |r.hands| == |t.hands|)
    decreases Pending(t)
  {
    var s := Step(draw, phase, roundActive, hasQueue, t, i);
    if s.1 then s.0 else Played(draw, phase, roundActive, hasQueue, s.0, i)
  }

  /** Playing a hand out keeps what every pass keeps; without a queue, or
      with no action left, it just resolves the hand. */
  lemma {:induction false} PlayedKeeps(draw: nat -> Card, phase: Phase, roundActive: bool, hasQueue: bool, t: Turn,
                                       i: nat)
    requires i < |t.hands|
    ensures Keeps(t, Played(draw, phase, roundActive, hasQueue, t, i), i)
    ensures !hasQueue || Pending(t) == 0 ==>
              Played(draw, phase, roundActive, hasQueue, t, i) == t.(hands := t.hands[i := t.hands[i].(resolved := true)])
    decreases Pending(t)
  {
    var s := Step(draw, phase, roundActive, hasQueue, t, i);
    StepKeeps(draw, phase, roundActive, hasQueue, t, i);
    if !s.1 {
      PlayedKeeps(draw, phase, roundActive, hasQueue, s.0, i);
    }
  }

  /** The inner loop of takePlayerTurns on hand i, run until play on the
      hand is over, as Played describes; the action list shrinks with every
      pass that does not end it, so the loop ends. */
  method PlayHand(draw: nat -> Card, phase: Phase, roundActive: bool, hasQueue: bool, t: Turn, i: nat)
    returns (r: Turn)
    requires i < |t.hands|
    ensures r == Played(draw, phase, roundActive, hasQueue, t, i)
    ensures i < |r.hands| && |t.hands| <= |r.hands| && r.hands[i].resolved && Keeps(t, r, i)
    ensures Pending(r) <= Pending(t) && (Pending(r) == Pending(t) ==> |r.hands| == |t.hands|)
    ensures !hasQueue || Pending(t) == 0 ==> r == t.(hands := t.hands[i := t.hands[i].(resolved := true)])
  {
    PlayedKeeps(draw, phase, roundActive, hasQueue, t, i);
    r := t;
    var done := false;
    while !done
      invariant i < |r.hands|
      invariant if done then r == Played(draw, phase, roundActive, hasQueue, t, i)
                else Played(draw, phase, roundActive, hasQueue, r, i) == Played(draw, phase, roundActive, hasQueue, t, i)
      decreases Pending(r) + (if done then 0 else 1)
    {
      r, done := HandStep(draw, phase, roundActive, hasQueue, r, i);
    }
  }

  /** The state after a natural: the sole hand resolved, round(2.5 x bet)
      credited and logged. */
  function AfterNatural(t: Turn): Turn
    requires |t.hands| > 0
  {
    var payout := NaturalPayout(t.hands[0].bet);
    t.(hands := [t.hands[0].(resolved := true)], balance := t.balance + payout,
       entries := NewestFirst(t.entries, LedgerEntry(WinBlackjack, payout, t.balance + payout), LedgerCap))
  }

  /** takePlayerTurns over the hand list from hand i, as a value: the state
      at the end and the index of the last hand visited. A natural on the
      sole first hand is paid without polling; any other hand is played out
      while the table is running, and a stopped table ends the walk at it. */
  function PlayedFrom(draw: nat -> Card, phase: Phase, roundActive: bool, running: bool, hasQueue: bool, t: Turn,
                      i: nat, last: nat): (r: (Turn, nat))
    requires i <= |t.hands|
    decreases Pending(t), |t.hands| - i
  {
    if i == |t.hands| then (t, last)
    else if IsNatural(t.hands, i) then PlayedFrom(draw, phase, roundActive, running, hasQueue, AfterNatural(t), i + 1, i)
    else if !running then (t, i)
    else PlayedFrom(draw, phase, roundActive, running, hasQueue, Played(draw, phase, roundActive, hasQueue, t, i),
                    i + 1, i)
  }

  /** A natural on the sole first hand is paid and ends the walk. */
  lemma NaturalWalk(draw: nat -> Card, phase: Phase, roundActive: bool, running: bool, hasQueue: bool, t: Turn,
                    last: nat)
    requires IsNatural(t.hands, 0)
    ensures PlayedFrom(draw, phase, roundActive, running, hasQueue, t, 0, last) == (AfterNatural(t), 0)
  {
    assert PlayedFrom(draw, phase, roundActive, running, hasQueue, AfterNatural(t), 1, 0) == (AfterNatural(t), 0);
  }

  /** The shape of the walk from hand i: the hand list only grows, the
      hands before i stay and the last hand visited is one of the list. */
  lemma {:induction false} PlayedFromShape(draw: nat -> Card, phase: Phase, roundActive: bool, running: bool,
                                           hasQueue: bool, t: Turn, i: nat, last: nat)
    requires i <= |t.hands| && (i > 0 ==> last < |t.hands|)
    ensures var res := PlayedFrom(draw, phase, roundActive, running, hasQueue, t, i, last);
            |t.hands| <= |res.0.hands| && res.0.hands[..i] == t.hands[..i] && (|t.hands| > 0 ==> res.1 < |res.0.hands|)
    decreases Pending(t), |t.hands| - i
  {
    if i < |t.hands| && running && !IsNatural(t.hands, i) {
      var p := Played(draw, phase, roundActive, hasQueue, t, i);
      assert p.hands[..i] == t.hands[..i] by {
        PlayedKeeps(draw, phase, roundActive, hasQueue, t, i);
      }
      PlayedFromShape(draw, phase, roundActive, running, hasQueue, p, i + 1, i);
      var r := PlayedFrom(draw, phase, roundActive, running, hasQueue, p, i + 1, i).0;
      assert r.hands[..i + 1][..i] == r.hands[..i];
      assert p.hands[..i + 1][..i] == p.hands[..i];
    }
  }

  /** On a running table the walk from hand i resolves every hand from i on. */
  lemma {:induction false} PlayedFromResolves(draw: nat -> Card, phase: Phase, roundActive: bool, running: bool,
                                              hasQueue: bool, t: Turn, i: nat, last: nat)
    requires i <= |t.hands| && (i > 0 ==> last < |t.hands|)
    ensures var r := PlayedFrom(draw, phase, roundActive, running, hasQueue, t, i, last).0;
            running ==> forall j :: i <= j < |r.hands| ==> r.hands[j].resolved
    decreases Pending(t), |t.hands| - i
  {
    if i < |t.hands| && running && !IsNatural(t.hands, i) {
      var p := Played(draw, phase, roundActive, hasQueue, t, i);
      PlayedFromShape(draw, phase, roundActive, running, hasQueue, p, i + 1, i);
      PlayedFromResolves(draw, phase, roundActive, running, hasQueue, p, i + 1, i);
      var r := PlayedFrom(draw, phase, roundActive, running, hasQueue, p, i + 1, i).0;
      assert r.hands[i] == r.hands[..i + 1][i];
    }
  }

  /** The money over the walk from hand i: balance and stakes together only
      gain a natural's payout and a non-negative balance stays so. */
  lemma {:induction false} PlayedFromMoney(draw: nat -> Card, phase: Phase, roundActive: bool, running: bool,
                                           hasQueue: bool, t: Turn, i: nat, last: nat)
    requires i <= |t.hands|
    ensures var r := PlayedFrom(draw, phase, roundActive, running, hasQueue, t, i, last).0;
            r.balance + TotalBet(r.hands)
            == t.balance + TotalBet(t.hands) + (if IsNatural(t.hands, i) then NaturalPayout(t.hands[0].bet) else 0)
    ensures var r := PlayedFrom(draw, phase, roundActive, running, hasQueue, t, i, last).0;
            t.balance >= 0 && (IsNatural(t.hands, i) ==> t.hands[0].bet >= 0) ==> r.balance >= 0
    decreases Pending(t), |t.hands| - i
  {
    if i == |t.hands| || (!running && !IsNatural(t.hands, i)) {
    } else if IsNatural(t.hands, i) {
      NaturalWalk(draw, phase, roundActive, running, hasQueue, t, last);
      assert TotalBet(t.hands) == t.hands[0].bet;
    } else {
      PlayedKeeps(draw, phase, roundActive, hasQueue, t, i);
      PlayedFromMoney(draw, phase, roundActive, running, hasQueue, Played(draw, phase, roundActive, hasQueue, t, i),
                      i + 1, i);
    }
  }

  /** Over the walk from hand i the shoe and the queue only move forward and
      the ledger keeps its cap. */
  lemma {:induction false} PlayedFromProgress(draw: nat -> Card, phase: Phase, roundActive: bool, running: bool,
                                              hasQueue: bool, t: Turn, i: nat, last: nat)
    requires i <= |t.hands|
    ensures var r := PlayedFrom(draw, phase, roundActive, running, hasQueue, t, i, last).0;
            r.drawn >= t.drawn && |r.queue| <= |t.queue| && (|t.entries| <= LedgerCap ==> |r.entries| <= LedgerCap)
    decreases Pending(t), |t.hands| - i
  {
    if i == |t.hands| || (!running && !IsNatural(t.hands, i)) {
    } else if IsNatural(t.hands, i) {
      NaturalWalk(draw, phase, roundActive, running, hasQueue, t, last);
      assert |AfterNatural(t).entries| <= LedgerCap;
    } else {
      var p := Played(draw, phase, roundActive, hasQueue, t, i);
      assert p.drawn >= t.drawn && |p.queue| <= |t.queue| && (|t.entries| <= LedgerCap ==> |p.entries| <= LedgerCap) by {
        PlayedKeeps(draw, phase, roundActive, hasQueue, t, i);
      }
      PlayedFromProgress(draw, phase, roundActive, running, hasQueue, p, i + 1, i);
    }
  }

  /** Without a queue, or with no action left, the walk from a hand other
      than a natural changes nothing but the resolved flags. */
  lemma {:induction false} PlayedFromIdle(draw: nat -> Card, phase: Phase, roundActive: bool, running: bool,
                                          hasQueue: bool, t: Turn, i: nat, last: nat)
    requires i <= |t.hands| && !IsNatural(t.hands, i) && (!hasQueue || Pending(t) == 0)
    ensures var r := PlayedFrom(draw, phase, roundActive, running, hasQueue, t, i, last).0;
            r.balance == t.balance && |r.hands| == |t.hands|
            && forall j :: 0 <= j < |r.hands| ==> r.hands[j].cards == t.hands[j].cards && r.hands[j].bet == t.hands[j].bet
    decreases |t.hands| - i
  {
    if i < |t.hands| && running {
      var p := Played(draw, phase, roundActive, hasQueue, t, i);
      assert p == t.(hands := t.hands[i := t.hands[i].(resolved := true)]) by {
        PlayedKeeps(draw, phase, roundActive, hasQueue, t, i);
      }
      PlayedFromIdle(draw, phase, roundActive, running, hasQueue, p, i + 1, i);
    }
  }

  /** The walk over all hands, from the first: its facts in one place. */
  lemma PlayedFromFacts(draw: nat -> Card, phase: Phase, roundActive: bool, running: bool, hasQueue: bool, t: Turn)
    ensures var res := PlayedFrom(draw, phase, roundActive, running, hasQueue, t, 0, 0);
            |t.hands| <= |res.0.hands| && (|t.hands| > 0 ==> res.1 < |res.0.hands|)
    ensures IsNatural(t.hands, 0) ==> PlayedFrom(draw, phase, roundActive, running, hasQueue, t, 0, 0).0 == AfterNatural(t)
    ensures var r := PlayedFrom(draw, phase, roundActive, running, hasQueue, t, 0, 0).0;
            running ==> forall j :: 0 <= j < |r.hands| ==> r.hands[j].resolved
    ensures var r := PlayedFrom(draw, phase, roundActive, running, hasQueue, t, 0, 0).0;
            r.balance + TotalBet(r.hands)
            == t.balance + TotalBet(t.hands) + (if IsNatural(t.hands, 0) then NaturalPayout(t.hands[0].bet) else 0)
    ensures var r := PlayedFrom(draw, phase, roundActive, running, hasQueue, t, 0, 0).0;
            t.balance >= 0 && (|t.hands| > 0 ==> t.hands[0].bet >= 0) ==> r.balance >= 0
    ensures var r := PlayedFrom(draw, phase, roundActive, running, hasQueue, t, 0, 0).0;
            r.drawn >= t.drawn && |r.queue| <= |t.queue| && (|t.entries| <= LedgerCap ==> |r.entries| <= LedgerCap)
    ensures var r := PlayedFrom(draw, phase, roundActive, running, hasQueue, t, 0, 0).0;
            !IsNatural(t.hands, 0) && (!hasQueue || Pending(t) == 0) ==>
              r.balance == t.balance && |r.hands| == |t.hands|
              && forall j :: 0 <= j < |r.hands| ==> r.hands[j].cards == t.hands[j].cards && r.hands[j].bet == t.hands[j].bet
  {
    if IsNatural(t.hands, 0) {
      NaturalWalk(draw, phase, roundActive, running, hasQueue, t, 0);
    }
    PlayedFromShape(draw, phase, roundActive, running, hasQueue, t, 0, 0);
    PlayedFromResolves(draw, phase, roundActive, running, hasQueue, t, 0, 0);
    PlayedFromMoney(draw, phase, roundActive, running, hasQueue, t, 0, 0);
    PlayedFromProgress(draw, phase, roundActive, running, hasQueue, t, 0, 0);
    if !IsNatural(t.hands, 0) && (!hasQueue || Pending(t) == 0) {
      PlayedFromIdle(draw, phase, roundActive, running, hasQueue, t, 0, 0);
    }
  }

  /** One visit of the hand loop of takePlayerTurns, at hand i: a natural is
      paid; otherwise a stopped table ends the walk (`stop`) and a running one
      plays the hand out. Each visit is one step of PlayedFrom. */
  method VisitHand(draw: nat -> Card, phase: Phase, roundActive: bool, running: bool, hasQueue: bool, t: Turn,
                   i: nat, ghost last: nat)
    returns (r: Turn, natural: bool, stop: bool)
    requires i < |t.hands|
    ensures natural <==> IsNatural(t.hands, i)
    ensures stop <==> !natural && !running
    ensures stop ==> r == t && PlayedFrom(draw, phase, roundActive, running, hasQueue, t, i, last) == (t, i)
    ensures !stop ==> i < |r.hands| && Pending(r) <= Pending(t) && (Pending(r) == Pending(t) ==> |r.hands| <= |t.hands|)
    ensures !stop ==> PlayedFrom(draw, phase, roundActive, running, hasQueue, t, i, last)
                      == PlayedFrom(draw, phase, roundActive, running, hasQueue, r, i + 1, i)
  {
    var h := t.hands[i];
    if i == 0 && |t.hands| == 1 && |h.cards| == 2 && HandValue(h.cards) == 21 {
      var payout := NaturalPayout(h.bet);
      var bal := t.balance + payout;
      var es := PushFront(t.entries, LedgerEntry(WinBlackjack, payout, bal), LedgerCap);
      r, natural, stop := t.(hands := [h.(resolved := true)], balance := bal, entries := es), true, false;
    } else if !running {
      r, natural, stop := t, false, true;
    } else {
      r := PlayHand(draw, phase, roundActive, hasQueue, t, i);
      natural, stop := false, false;
    }
  }

  /** takePlayerTurns over the hand list, which splits grow while it is
      walked, as PlayedFrom describes. `last` is the index of the last hand
      visited (currentHandIndex). Money only moves between the balance and
      the stakes, besides a natural's payout, and a running table leaves
      every hand resolved. */
  method PlayHands(draw: nat -> Card, phase: Phase, roundActive: bool, running: bool, hasQueue: bool, t: Turn)
    returns (r: Turn, natural: bool, last: nat)
    ensures (r, last) == PlayedFrom(draw, phase, roundActive, running, hasQueue, t, 0, 0)
    ensures natural <==> IsNatural(t.hands, 0)
    ensures natural ==> r == AfterNatural(t)
    ensures r.balance + TotalBet(r.hands)
            == t.balance + TotalBet(t.hands) + (if natural then NaturalPayout(t.hands[0].bet) else 0)
    ensures running ==> forall j :: 0 <= j < |r.hands| ==> r.hands[j].resolved
    ensures t.balance >= 0 && (|t.hands| > 0 ==> t.hands[0].bet >= 0) ==> r.balance >= 0
    ensures |t.hands| <= |r.hands| && (|t.hands| > 0 ==> last < |r.hands|)
    ensures r.drawn >= t.drawn && |r.queue| <= |t.queue|
    ensures |t.entries| <= LedgerCap ==> |r.entries| <= LedgerCap
    ensures !natural && (!hasQueue || Pending(t) == 0) ==>
              r.balance == t.balance && |r.hands| == |t.hands|
              && forall j :: 0 <= j < |r.hands| ==> r.hands[j].cards == t.hands[j].cards && r.hands[j].bet == t.hands[j].bet
  {
    PlayedFromFacts(draw, phase, roundActive, running, hasQueue, t);
    r, natural, last := WalkHands(draw, phase, roundActive, running, hasQueue, t);
  }

  /** The loop of takePlayerTurns over the growing hand list. */
  method WalkHands(draw: nat -> Card, phase: Phase, roundActive: bool, running: bool, hasQueue: bool, t: Turn)
    returns (r: Turn, natural: bool, last: nat)
    ensures (r, last) == PlayedFrom(draw, phase, roundActive, running, hasQueue, t, 0, 0)
    ensures natural <==> IsNatural(t.hands, 0)
  {
    ghost var goal := PlayedFrom(draw, phase, roundActive, running, hasQueue, t, 0, 0);
    r := t;
    natural := false;
    last := 0;
    var i := 0;
    while i < |r.hands|
      invariant 0 <= i <= |r.hands|
      invariant PlayedFrom(draw, phase, roundActive, running, hasQueue, r, i, last) == goal
      invariant i == 0 ==> r == t
      invariant natural <==> i > 0 && IsNatural(t.hands, 0)
      decreases Pending(r), |r.hands| - i
    {
      var r', isNatural, stop := VisitHand(draw, phase, roundActive, running, hasQueue, r, i, last);
      last := i;
      if stop {
        return;
      }
      r, natural, i := r', natural || isNatural, i + 1;
    }
  }

  /** The running sums of settleRound for one player. */
  datatype Tally = Tally(balance: int, wins: int, losses: int, net: int, entries: seq<LedgerEntry>,
                         lines: seq<HandLine>)

  /** The log lines of a player's hands, in hand order. */
  function HandLines(u: UserId, hands: seq<Hand>, dealerTotal: int): (ls: seq<HandLine>)
    ensures |ls| == |hands|
    decreases |hands|
  {
    if |hands| == 0 then []
    else
      var n := |hands| - 1;
      HandLines(u, hands[..n], dealerTotal)
      + [HandLine(u, n, hands[n].cards, HandValue(hands[n].cards), hands[n].bet, HandOutcome(hands[n], dealerTotal))]
  }

  /** The ledger entry settling hand h when the balance before it is
      `balance`: its outcome, what it credits, and the balance after. */
  function SettleEntry(h: Hand, dealerTotal: int, balance: int): LedgerEntry {
    var o := HandOutcome(h, dealerTotal);
    LedgerEntry(Settled(o), Credit(o, h.bet), balance + Credit(o, h.bet))
  }

  /** The ledger entries settling `hands` in order from `balance`, oldest
      first. */
  function SettleEntries(hands: seq<Hand>, dealerTotal: int, balance: int): (es: seq<LedgerEntry>)
    ensures |es| == |hands|
    decreases |hands|
  {
    if |hands| == 0 then []
    else
      var n := |hands| - 1;
      SettleEntries(hands[..n], dealerTotal, balance)
      + [SettleEntry(hands[n], dealerTotal, balance + SumCredit(hands[..n], dealerTotal))]
  }

  lemma SettleEntriesSnoc(hands: seq<Hand>, k: nat, dealerTotal: int, balance: int)
    requires k < |hands|
    ensures SettleEntries(hands[..k + 1], dealerTotal, balance)
            == SettleEntries(hands[..k], dealerTotal, balance)
               + [SettleEntry(hands[k], dealerTotal, balance + SumCredit(hands[..k], dealerTotal))]
  {
    assert hands[..k + 1][..k] == hands[..k];
  }

  /** The j-th settlement entry: a bust records LOSS_BUST and a loss LOSS,
      both crediting nothing; a win records WIN with twice the stake and a
      push PUSH with the stake; each records the balance once it and the
      hands before it are credited. */
  lemma {:induction false} SettleEntriesAt(hands: seq<Hand>, dealerTotal: int, balance: int, j: nat)
    requires j < |hands|
    ensures var e, h := SettleEntries(hands, dealerTotal, balance)[j], hands[j];
            var total := HandValue(h.cards);
            e.balanceAfter == balance + SumCredit(hands[..j + 1], dealerTotal)
            && (total > 21 ==> e.kind == Settled(LossBust) && e.delta == 0)
            && (total <= 21 && (dealerTotal > 21 || total > dealerTotal) ==> e.kind == Settled(Win) && e.delta == 2 * h.bet)
            && (total <= 21 && dealerTotal <= 21 && total == dealerTotal ==> e.kind == Settled(Push) && e.delta == h.bet)
            && (total <= 21 && dealerTotal <= 21 && total < dealerTotal ==> e.kind == Settled(Loss) && e.delta == 0)
    decreases |hands|
  {
    var n := |hands| - 1;
    if j < n {
      SettleEntriesAt(hands[..n], dealerTotal, balance, j);
      assert hands[..n][..j + 1] == hands[..j + 1];
    } else {
      assert hands[..n + 1] == hands;
    }
  }

  /** The running sums after settling hand k of user u. */
  function SettleStep(u: UserId, k: nat, h: Hand, dealerTotal: int, s: Tally): Tally {
    var o := HandOutcome(h, dealerTotal);
    s.(balance := s.balance + Credit(o, h.bet),
       wins := s.wins + (if o == Win then 1 else 0),
       losses := s.losses + (if o in {LossBust, Loss} then 1 else 0),
       net := s.net + HandNet(HandValue(h.cards), dealerTotal, h.bet),
       entries := NewestFirst(s.entries, SettleEntry(h, dealerTotal, s.balance), LedgerCap),
       lines := s.lines + [HandLine(u, k, h.cards, HandValue(h.cards), h.bet, o)])
  }

  /** The running sums after settling `hands` in order. */
  function SettledTally(u: UserId, hands: seq<Hand>, dealerTotal: int, s: Tally): Tally
    decreases |hands|
  {
    if |hands| == 0 then s
    else
      var n := |hands| - 1;
      SettleStep(u, n, hands[n], dealerTotal, SettledTally(u, hands[..n], dealerTotal, s))
  }

  /** Settling a list of hands credits what each hand earns, counts its wins
      and losses, records its net, adds one ledger entry per hand in order
      and one log line per hand. */
  lemma {:induction false} SettledTallySums(u: UserId, hands: seq<Hand>, dealerTotal: int, s: Tally)
    ensures var r := SettledTally(u, hands, dealerTotal, s);
            r.balance == s.balance + SumCredit(hands, dealerTotal)
            && r.wins == s.wins + WinCount(hands, dealerTotal)
            && r.losses == s.losses + LossCount(hands, dealerTotal)
            && r.net == s.net + SumNet(hands, dealerTotal)
            && r.lines == s.lines + HandLines(u, hands, dealerTotal)
    decreases |hands|
  {
    if |hands| > 0 {
      SettledTallySums(u, hands[..|hands| - 1], dealerTotal, s);
    }
  }

  /** Settling a list of hands puts their ledger entries in front, in order. */
  lemma {:induction false} SettledTallyEntries(u: UserId, hands: seq<Hand>, dealerTotal: int, s: Tally)
    ensures SettledTally(u, hands, dealerTotal, s).entries
            == NewestFirstAll(s.entries, SettleEntries(hands, dealerTotal, s.balance), LedgerCap)
    decreases |hands|
  {
    if |hands| > 0 {
      var n := |hands| - 1;
      var prev := SettledTally(u, hands[..n], dealerTotal, s);
      SettledTallyEntries(u, hands[..n], dealerTotal, s);
      assert prev.balance == s.balance + SumCredit(hands[..n], dealerTotal) by {
        SettledTallySums(u, hands[..n], dealerTotal, s);
      }
      SettleEntriesSnoc(hands, n, dealerTotal, s.balance);
      assert hands[..n + 1] == hands;
      NewestFirstAllSnoc(s.entries, SettleEntries(hands[..n], dealerTotal, s.balance),
                         SettleEntry(hands[n], dealerTotal, prev.balance), LedgerCap);
    }
  }

  /** One pass of the per-hand loop of settleRound, on hand k of user u:
      the round net moves by the hand's net, the balance by its credit, a
      win or a loss is counted, and the hand's ledger entry and log line are
      added. */
  method SettleHand(u: UserId, k: nat, h: Hand, dealerTotal: int, s: Tally) returns (r: Tally)
    ensures r == SettleStep(u, k, h, dealerTotal, s)
  {
    r := s;
    var t := ComputeHandValue(h.cards);
    var net;
    if t > 21 {
      net := -h.bet;
    } else if dealerTotal > 21 || t > dealerTotal {
      net := h.bet;
    } else if t == dealerTotal {
      net := 0;
    } else {
      net := -h.bet;
    }
    r := r.(net := r.net + net);
    var outcome;
    if t > 21 {
      r := r.(losses := r.losses + 1);
      var es := PushFront(r.entries, LedgerEntry(Settled(LossBust), 0, r.balance), LedgerCap);
      r := r.(entries := es);
      outcome := LossBust;
    } else if dealerTotal > 21 || t > dealerTotal {
      var payout := h.bet * 2;
      r := r.(balance := r.balance + payout, wins := r.wins + 1);
      var es := PushFront(r.entries, LedgerEntry(Settled(Win), payout, r.balance), LedgerCap);
      r := r.(entries := es);
      outcome := Win;
    } else if t == dealerTotal {
      var payout := h.bet;
      r := r.(balance := r.balance + payout);
      var es := PushFront(r.entries, LedgerEntry(Settled(Push), payout, r.balance), LedgerCap);
      r := r.(entries := es);
      outcome := Push;
    } else {
      r := r.(losses := r.losses + 1);
      var es := PushFront(r.entries, LedgerEntry(Settled(Loss), 0, r.balance), LedgerCap);
      r := r.(entries := es);
      outcome := Loss;
    }
    r := r.(lines := r.lines + [HandLine(u, k, h.cards, t, h.bet, outcome)]);
  }

  /** The per-hand loop of settleRound: each hand adds its net to the round
      net and is settled against the dealer's total: a bust loses, beating
      the dealer or a dealer bust pays twice the stake, equal totals return
      the stake, anything else loses; every hand gets a ledger entry and a
      log line. */
  method SettleHands(u: UserId, hands: seq<Hand>, dealerTotal: int, s: Tally) returns (r: Tally)
    ensures r.balance == s.balance + SumCredit(hands, dealerTotal)
    ensures r.wins == s.wins + WinCount(hands, dealerTotal)
    ensures r.losses == s.losses + LossCount(hands, dealerTotal)
    ensures r.net == s.net + SumNet(hands, dealerTotal)
    ensures r.net == s.net + SumCredit(hands, dealerTotal) - TotalBet(hands)
    ensures r.lines == s.lines + HandLines(u, hands, dealerTotal)
    ensures r.entries == NewestFirstAll(s.entries, SettleEntries(hands, dealerTotal, s.balance), LedgerCap)
    ensures |s.entries| <= LedgerCap ==> |r.entries| <= LedgerCap
  {
    r := s;
    for k := 0 to |hands|
      invariant r == SettledTally(u, hands[..k], dealerTotal, s)
    {
      assert hands[..k + 1][..k] == hands[..k];
      r := SettleHand(u, k, hands[k], dealerTotal, r);
    }
    assert hands[..|hands|] == hands;
    SettledTallySums(u, hands, dealerTotal, s);
    SettledTallyEntries(u, hands, dealerTotal, s);
    SumNetIsCreditLessStakes(hands, dealerTotal);
  }
}
