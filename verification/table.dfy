/** The shared blackjack table: seating, betting, the deal, the players'
    turns, the dealer, settlement and the round history, as a class whose
    methods update its fields the way the game's static state is updated.
    Cards come from `draw`, the shoe read in order: the n-th card dealt is
    draw(n). */
module Table {
  import opened Wrappers
  import opened Cards
  import opened Hands
  import opened Bounded
  import opened Accounts
  import opened Turns

  const BuyInAmount: int := 100
  const BuyInBelow: int := 50
  const BetOptions: seq<int> := [5, 10, 25, 50, 100, 500, 1000]
  const QueueCap: nat := 16

  /** A finished round: the dealer's cards and total and one line per hand. */
  datatype RoundLog = RoundLog(dealer: seq<Card>, dealerTotal: int, lines: seq<HandLine>)

  /** A user's ledger, empty when they have none yet. */
  function LedgerOf(ledger: map<UserId, seq<LedgerEntry>>, u: UserId): seq<LedgerEntry> {
    if u in ledger then ledger[u] else []
  }

  /** The ledgers after appendLedger(u, e). */
  function Appended(ledger: map<UserId, seq<LedgerEntry>>, u: UserId, e: LedgerEntry): map<UserId, seq<LedgerEntry>> {
    ledger[u := NewestFirst(LedgerOf(ledger, u), e, LedgerCap)]
  }

  /** The log lines of a round: the hands of each user in seating order. */
  function RoundLines(users: seq<UserId>, hands: map<UserId, seq<Hand>>, dealerTotal: int): seq<HandLine>
    decreases |users|
  {
    if |users| == 0 then []
    else
      var u := users[|users| - 1];
      RoundLines(users[..|users| - 1], hands, dealerTotal)
      + (if u in hands then HandLines(u, hands[u], dealerTotal) else [])
  }

  /** Seated players are distinct and none is also waiting; everyone at
      the table has a balance, counters, a ledger and an action queue; no
      ledger outgrows 100 entries and no queue 16 actions. */
  ghost predicate Consistent(seated: seq<UserId>, waiting: set<UserId>, balance: set<UserId>, wins: set<UserId>,
                             losses: set<UserId>, ledger: map<UserId, seq<LedgerEntry>>,
                             mailbox: map<UserId, seq<Action>>)
  {
    NoDup(seated)
    && (forall v :: v in seated ==> v !in waiting)
    && (forall v :: v in seated || v in waiting ==>
          v in balance && v in wins && v in losses && v in ledger && v in mailbox)
    && (forall v :: v in ledger ==> |ledger[v]| <= LedgerCap)
    && (forall v :: v in mailbox ==> |mailbox[v]| <= QueueCap)
  }

  /** The history holds at most 20 rounds and the page shown is one of them. */
  predicate HistoryPaged(size: nat, page: int) {
    size <= HistoryCap && 0 <= page && (page == 0 || page < size)
  }

  /** putIfAbsent. */
  function PutIfAbsent<V>(m: map<UserId, V>, k: UserId, v: V): (r: map<UserId, V>)
    ensures r.Keys == m.Keys + {k} && r[k] == (if k in m then m[k] else v)
    ensures forall j :: j in m ==> r[j] == m[j]
  {
    if k in m then m else m[k := v]
  }

  /** Giving a user their entries, then seating them or letting them wait
      when they were at neither, keeps the table consistent. */
  lemma JoinKeeps(seated: seq<UserId>, waiting: set<UserId>, balance: set<UserId>, wins: set<UserId>,
                  losses: set<UserId>, ledger: map<UserId, seq<LedgerEntry>>, mailbox: map<UserId, seq<Action>>,
                  u: UserId)
    requires Consistent(seated, waiting, balance, wins, losses, ledger, mailbox)
    ensures var ledger', mailbox' := PutIfAbsent(ledger, u, []), PutIfAbsent(mailbox, u, []);
            Consistent(seated, waiting, balance + {u}, wins + {u}, losses + {u}, ledger', mailbox')
            && (u !in seated && u !in waiting ==>
                  Consistent(seated + [u], waiting, balance + {u}, wins + {u}, losses + {u}, ledger', mailbox')
                  && Consistent(seated, waiting + {u}, balance + {u}, wins + {u}, losses + {u}, ledger', mailbox'))
  {
    assert forall v :: v in seated + [u] <==> v in seated || v == u;
  }

  /** Taking a user off the table, queue included, keeps it consistent. */
  lemma LeaveKeeps(seated: seq<UserId>, waiting: set<UserId>, balance: set<UserId>, wins: set<UserId>,
                   losses: set<UserId>, ledger: map<UserId, seq<LedgerEntry>>, mailbox: map<UserId, seq<Action>>,
                   u: UserId)
    requires Consistent(seated, waiting, balance, wins, losses, ledger, mailbox)
    ensures u !in RemoveFirst(seated, u)
    ensures Consistent(RemoveFirst(seated, u), waiting - {u}, balance, wins, losses, ledger, mailbox - {u})
  {
    RemoveFirstNoDup(seated, u);
    forall v | v in RemoveFirst(seated, u) ensures v in seated {
      RemoveFirstIn(seated, u, v);
    }
  }

  /** Seating every waiting user, each once, keeps the table consistent. */
  lemma AdmitKeeps(seated: seq<UserId>, waiting: set<UserId>, seated': seq<UserId>, balance: set<UserId>,
                   wins: set<UserId>, losses: set<UserId>, ledger: map<UserId, seq<LedgerEntry>>,
                   mailbox: map<UserId, seq<Action>>)
    requires Consistent(seated, waiting, balance, wins, losses, ledger, mailbox)
    requires NoDup(seated') && forall v :: v in seated' <==> v in seated || v in waiting
    ensures Consistent(seated', {}, balance, wins, losses, ledger, mailbox)
  {
  }

  /** Replacing a seated player's balance, ledger and queue, the last two
      within their caps, keeps the table consistent. */
  lemma TurnKeeps(seated: seq<UserId>, waiting: set<UserId>, balance: map<UserId, int>, wins: set<UserId>,
                  losses: set<UserId>, ledger: map<UserId, seq<LedgerEntry>>, mailbox: map<UserId, seq<Action>>,
                  u: UserId, b: int, entries: seq<LedgerEntry>, queue: seq<Action>)
    requires Consistent(seated, waiting, balance.Keys, wins, losses, ledger, mailbox)
    requires u in seated && |entries| <= LedgerCap && |queue| <= QueueCap
    ensures Consistent(seated, waiting, balance[u := b].Keys, wins, losses, ledger[u := entries], mailbox[u := queue])
  {
  }

  /** Keeping a duplicate-free part of the seats and replacing the ledgers
      by capped ones over the same users keeps the table consistent. */
  lemma NarrowKeeps(seated: seq<UserId>, waiting: set<UserId>, seated': seq<UserId>, balance: set<UserId>,
                    wins: set<UserId>, losses: set<UserId>, ledger: map<UserId, seq<LedgerEntry>>,
                    ledger': map<UserId, seq<LedgerEntry>>, mailbox: map<UserId, seq<Action>>)
    requires Consistent(seated, waiting, balance, wins, losses, ledger, mailbox)
    requires NoDup(seated') && forall v :: v in seated' ==> v in seated
    requires ledger'.Keys == ledger.Keys && forall v :: v in ledger' ==> |ledger'[v]| <= LedgerCap
    ensures Consistent(seated', waiting, balance, wins, losses, ledger', mailbox)
  {
  }

  predicate AllResolved(hands: seq<Hand>) {
    forall j :: 0 <= j < |hands| ==> hands[j].resolved
  }

  /** Every listed user who holds hands has played them out. */
  ghost predicate ResolvedFor(users: seq<UserId>, hands: map<UserId, seq<Hand>>) {
    forall v :: v in users && v in hands ==> AllResolved(hands[v])
  }

  /** A player's turns that leave the other players' hands alone and their
      own resolved extend ResolvedFor by that player. */
  lemma ResolvedForStep(users: seq<UserId>, k: nat, hands: map<UserId, seq<Hand>>, hands': map<UserId, seq<Hand>>)
    requires k < |users| && NoDup(users) && ResolvedFor(users[..k], hands)
    requires (users[k] !in hands && hands' == hands)
             || (users[k] in hands' && hands' == hands[users[k] := hands'[users[k]]] && AllResolved(hands'[users[k]]))
    ensures ResolvedFor(users[..k + 1], hands')
  {
    forall v | v in users[..k + 1] && v in hands' ensures AllResolved(hands'[v]) {
      if v != users[k] {
        assert v in users[..k];
      }
    }
  }

  /** What the players' turns work on: the hands, balances, ledgers and
      queues, the cards dealt, the wins and round nets, and the turn marker. */
  datatype Play = Play(hands: map<UserId, seq<Hand>>, balance: map<UserId, int>,
                       ledger: map<UserId, seq<LedgerEntry>>, mailbox: map<UserId, seq<Action>>, drawn: nat,
                       wins: map<UserId, int>, net: map<UserId, int>, current: Option<UserId>, handIndex: nat)

  /** A user's own part of the play state, as a turn over their hands. */
  function TurnOf(p: Play, u: UserId, arrivals: seq<Option<Action>>): Turn
    requires u in p.hands
  {
    Turn(p.hands[u], Get(p.balance, u, 0), LedgerOf(p.ledger, u), if u in p.mailbox then p.mailbox[u] else [],
         arrivals, p.drawn)
  }

  /** takePlayerTurns for user u as a value: nothing happens to a player
      without hands or not seated; otherwise their hands are walked as
      PlayedFrom says with the queue and `arrivals` as the actions, a
      natural counts a win and round(1.5 x bet) of round net, and the turn
      marker is left on the last hand visited. */
  function PlayerTurns(draw: nat -> Card, phase: Phase, roundActive: bool, running: bool, seated: seq<UserId>,
                       p: Play, u: UserId, arrivals: seq<Option<Action>>): (r: Play)
    ensures u !in p.hands || u !in seated ==> r == p
    ensures r.hands.Keys == p.hands.Keys
  {
    if u !in p.hands || u !in seated then p
    else
      var t := TurnOf(p, u, arrivals);
      TurnWritten(p, u, t.hands, PlayedFrom(draw, phase, roundActive, running, true, t, 0, 0))
  }

  /** The play state once user u's turns over `hands` ended in `res`: the
      turn written back, a natural counted, the marker on the last hand. */
  function TurnWritten(p: Play, u: UserId, hands: seq<Hand>, res: (Turn, nat)): Play {
    var natural := IsNatural(hands, 0);
    Play(p.hands[u := res.0.hands], p.balance[u := res.0.balance], p.ledger[u := res.0.entries],
         p.mailbox[u := res.0.queue], res.0.drawn,
         if natural then Merge(p.wins, u, 1) else p.wins,
         if natural then Merge(p.net, u, NaturalNet(hands[0].bet)) else p.net,
         if |hands| > 0 then Some(u) else p.current,
         if |hands| > 0 then res.1 else p.handIndex)
  }

  /** The play state after the players' turns of a round: every seated
      player in seating order when the game is running, nothing otherwise. */
  function TurnsPlayed(draw: nat -> Card, phase: Phase, roundActive: bool, running: bool, seated: seq<UserId>,
                       p: Play, arrivals: map<UserId, seq<Option<Action>>>): Play {
    if running then AllTurns(draw, phase, roundActive, running, seated, p, seated, arrivals) else p
  }

  /** A player's turns touch only their own hands, balance, ledger and
      queue, and only deal cards forward. */
  lemma PlayerTurnsKeeps(draw: nat -> Card, phase: Phase, roundActive: bool, running: bool, seated: seq<UserId>,
                         p: Play, u: UserId, arrivals: seq<Option<Action>>)
    ensures var r := PlayerTurns(draw, phase, roundActive, running, seated, p, u, arrivals);
            r.drawn >= p.drawn
            && forall v :: v != u ==>
                 Get(r.balance, v, 0) == Get(p.balance, v, 0) && LedgerOf(r.ledger, v) == LedgerOf(p.ledger, v)
                 && (v in p.hands ==> r.hands[v] == p.hands[v])
  {
    if u in p.hands && u in seated {
      var t := TurnOf(p, u, arrivals);
      var res := PlayedFrom(draw, phase, roundActive, running, true, t, 0, 0);
      assert PlayerTurns(draw, phase, roundActive, running, seated, p, u, arrivals) == TurnWritten(p, u, t.hands, res);
      PlayedFromProgress(draw, phase, roundActive, running, true, t, 0, 0);
    }
  }

  /** Over a player's own turns their hand list only grows, a running table
      leaves it resolved, balance and stakes together gain only a natural's
      payout, a non-negative balance stays so, the ledger keeps its cap and
      the queue only shrinks. */
  lemma PlayerTurnsOwn(draw: nat -> Card, phase: Phase, roundActive: bool, running: bool, seated: seq<UserId>,
                       p: Play, u: UserId, arrivals: seq<Option<Action>>)
    requires u in p.hands && u in seated
    ensures var r, t := PlayerTurns(draw, phase, roundActive, running, seated, p, u, arrivals), TurnOf(p, u, arrivals);
            u in r.hands && u in r.balance && u in r.ledger && u in r.mailbox
            && r.hands == p.hands[u := r.hands[u]] && r.balance == p.balance[u := r.balance[u]]
            && r.ledger == p.ledger[u := r.ledger[u]] && r.mailbox == p.mailbox[u := r.mailbox[u]]
            && |t.hands| <= |r.hands[u]| && (running ==> AllResolved(r.hands[u]))
            && r.balance[u] + TotalBet(r.hands[u])
               == t.balance + TotalBet(t.hands) + (if IsNatural(t.hands, 0) then NaturalPayout(t.hands[0].bet) else 0)
            && (t.balance >= 0 && (|t.hands| > 0 ==> t.hands[0].bet >= 0) ==> r.balance[u] >= 0)
            && (|t.entries| <= LedgerCap ==> |r.ledger[u]| <= LedgerCap) && |r.mailbox[u]| <= |t.queue|
  {
    var t := TurnOf(p, u, arrivals);
    var res := PlayedFrom(draw, phase, roundActive, running, true, t, 0, 0);
    PlayedFromFacts(draw, phase, roundActive, running, true, t);
    assert PlayerTurns(draw, phase, roundActive, running, seated, p, u, arrivals) == TurnWritten(p, u, t.hands, res);
  }

  /** A natural is paid without polling: the player's one hand is resolved,
      a win is counted and round(1.5 x bet) added to the round net; the turn
      marker is left on a hand of the player when they had any. */
  lemma PlayerTurnsMarks(draw: nat -> Card, phase: Phase, roundActive: bool, running: bool, seated: seq<UserId>,
                         p: Play, u: UserId, arrivals: seq<Option<Action>>)
    requires u in p.hands && u in seated
    ensures var r, hs := PlayerTurns(draw, phase, roundActive, running, seated, p, u, arrivals), p.hands[u];
            u in r.hands
            && (IsNatural(hs, 0) ==>
                  r.hands[u] == [hs[0].(resolved := true)] && r.wins == Merge(p.wins, u, 1)
                  && r.net == Merge(p.net, u, NaturalNet(hs[0].bet)))
            && (!IsNatural(hs, 0) ==> r.wins == p.wins && r.net == p.net)
            && (|hs| > 0 ==> r.current == Some(u) && r.handIndex < |r.hands[u]|)
            && (|hs| == 0 ==> r.current == p.current && r.handIndex == p.handIndex)
  {
    var t := TurnOf(p, u, arrivals);
    var res := PlayedFrom(draw, phase, roundActive, running, true, t, 0, 0);
    assert PlayerTurns(draw, phase, roundActive, running, seated, p, u, arrivals) == TurnWritten(p, u, t.hands, res);
    PlayedFromShape(draw, phase, roundActive, running, true, t, 0, 0);
    if IsNatural(t.hands, 0) {
      NaturalWalk(draw, phase, roundActive, running, true, t, 0);
    }
  }

  /** The actions that arrive for user u while they play. */
  function ArrivalsFor(arrivals: map<UserId, seq<Option<Action>>>, u: UserId): seq<Option<Action>> {
    if u in arrivals then arrivals[u] else []
  }

  /** The turn loop of playRound as a value: the listed players take their
      turns one after the other. */
  function AllTurns(draw: nat -> Card, phase: Phase, roundActive: bool, running: bool, seated: seq<UserId>,
                    p: Play, users: seq<UserId>, arrivals: map<UserId, seq<Option<Action>>>): (r: Play)
    ensures r.hands.Keys == p.hands.Keys
    decreases |users|
  {
    if |users| == 0 then p
    else
      var n := |users| - 1;
      var q := AllTurns(draw, phase, roundActive, running, seated, p, users[..n], arrivals);
      PlayerTurns(draw, phase, roundActive, running, seated, q, users[n], ArrivalsFor(arrivals, users[n]))
  }

  /** The turn loop leaves the players it does not list as they were, and
      only deals cards forward. */
  lemma {:induction false} AllTurnsKeeps(draw: nat -> Card, phase: Phase, roundActive: bool, running: bool,
                                         seated: seq<UserId>, p: Play, users: seq<UserId>,
                                         arrivals: map<UserId, seq<Option<Action>>>)
    ensures var r := AllTurns(draw, phase, roundActive, running, seated, p, users, arrivals);
            r.drawn >= p.drawn
            && forall v :: v !in users ==>
                 Get(r.balance, v, 0) == Get(p.balance, v, 0) && LedgerOf(r.ledger, v) == LedgerOf(p.ledger, v)
                 && (v in p.hands ==> r.hands[v] == p.hands[v])
    decreases |users|
  {
    if |users| > 0 {
      var n := |users| - 1;
      var q := AllTurns(draw, phase, roundActive, running, seated, p, users[..n], arrivals);
      AllTurnsKeeps(draw, phase, roundActive, running, seated, p, users[..n], arrivals);
      PlayerTurnsKeeps(draw, phase, roundActive, running, seated, q, users[n], ArrivalsFor(arrivals, users[n]));
      assert forall v :: v !in users ==> v !in users[..n] && v != users[n];
    }
  }

  /** On a running table the turn loop over distinct seated players leaves
      the hands of every one of them resolved. */
  lemma {:induction false} AllTurnsResolved(draw: nat -> Card, phase: Phase, roundActive: bool,
                                            seated: seq<UserId>, p: Play, users: seq<UserId>,
                                            arrivals: map<UserId, seq<Option<Action>>>)
    requires NoDup(users) && forall v :: v in users ==> v in seated
    ensures ResolvedFor(users, AllTurns(draw, phase, roundActive, true, seated, p, users, arrivals).hands)
    decreases |users|
  {
    if |users| > 0 {
      var n := |users| - 1;
      var u := users[n];
      var q := AllTurns(draw, phase, roundActive, true, seated, p, users[..n], arrivals);
      var r := AllTurns(draw, phase, roundActive, true, seated, p, users, arrivals);
      SplitLast(users);
      AllTurnsResolved(draw, phase, roundActive, seated, p, users[..n], arrivals);
      PlayerTurnsKeeps(draw, phase, roundActive, true, seated, q, u, ArrivalsFor(arrivals, u));
      if u in q.hands {
        PlayerTurnsOwn(draw, phase, roundActive, true, seated, q, u, ArrivalsFor(arrivals, u));
      }
      forall v | v in users && v in r.hands ensures AllResolved(r.hands[v]) {
        if v != u {
          assert v in users[..n];
        }
      }
    }
  }

  /** What the deal works on: the seats, balances, ledgers and hands, and
      how many cards have been dealt. */
  datatype Stakes = Stakes(seated: seq<UserId>, balance: map<UserId, int>, ledger: map<UserId, seq<LedgerEntry>>,
                           hands: map<UserId, seq<Hand>>, drawn: nat)

  /** The entry the deal logs for a player's stake, against the balance
      they had before the deal. */
  function StakeEntry(balance: map<UserId, int>, pending: map<UserId, int>, v: UserId): LedgerEntry {
    LedgerEntry(BetStake, -BetOf(pending, v), Get(balance, v, StartBalance) - BetOf(pending, v))
  }

  /** One player at the deal: unable to cover the stake, they lose their
      seat; otherwise the stake is debited and logged and they get a hand
      of the next two cards. */
  function StakeOne(draw: nat -> Card, pending: map<UserId, int>, st: Stakes, v: UserId): Stakes {
    var bet := BetOf(pending, v);
    var b := Get(st.balance, v, StartBalance);
    if b < bet then st.(seated := RemoveFirst(st.seated, v))
    else st.(balance := st.balance[v := b - bet],
             ledger := Appended(st.ledger, v, StakeEntry(st.balance, pending, v)),
             hands := st.hands[v := [Hand([draw(st.drawn), draw(st.drawn + 1)], bet, false)]],
             drawn := st.drawn + 2)
  }

  /** The deal over the seating snapshot, in order. */
  function StakeAll(draw: nat -> Card, pending: map<UserId, int>, st: Stakes, users: seq<UserId>): Stakes
    decreases |users|
  {
    if |users| == 0 then st
    else StakeOne(draw, pending, StakeAll(draw, pending, st, users[..|users| - 1]), users[|users| - 1])
  }

  lemma StakeAllSnoc(draw: nat -> Card, pending: map<UserId, int>, st0: Stakes, snap: seq<UserId>, k: nat)
    requires k < |snap|
    ensures StakeAll(draw, pending, st0, snap[..k + 1])
            == StakeOne(draw, pending, StakeAll(draw, pending, st0, snap[..k]), snap[k])
  {
    assert snap[..k + 1][..k] == snap[..k];
  }

  lemma StakeAllAppend(draw: nat -> Card, pending: map<UserId, int>, st0: Stakes, p: seq<UserId>, u: UserId)
    ensures StakeAll(draw, pending, st0, p + [u]) == StakeOne(draw, pending, StakeAll(draw, pending, st0, p), u)
  {
    assert (p + [u])[..|p|] == p;
  }

  /** One pass of the deal loop: a player who cannot cover the stake is
      unseated; otherwise the stake is debited and logged and two cards are
      dealt to a fresh hand. */
  method StakeStep(draw: nat -> Card, pending: map<UserId, int>, s: seq<UserId>, bal: map<UserId, int>,
                   led: map<UserId, seq<LedgerEntry>>, hs: map<UserId, seq<Hand>>, d: nat, v: UserId)
    returns (s': seq<UserId>, bal': map<UserId, int>, led': map<UserId, seq<LedgerEntry>>,
             hs': map<UserId, seq<Hand>>, d': nat)
    ensures Stakes(s', bal', led', hs', d') == StakeOne(draw, pending, Stakes(s, bal, led, hs, d), v)
  {
    var bet := BetOf(pending, v);
    var b := Get(bal, v, StartBalance);
    if b < bet {
      s', bal', led', hs', d' := RemoveFirst(s, v), bal, led, hs, d;
    } else {
      var entries := PushFront(LedgerOf(led, v), StakeEntry(bal, pending, v), LedgerCap);
      s', bal', led' := s, bal[v := b - bet], led[v := entries];
      hs', d' := hs[v := [Hand([draw(d), draw(d + 1)], bet, false)]], d + 2;
    }
  }

  /** The staking loop of the deal over the seating snapshot. */
  method StakeSeats(draw: nat -> Card, pending: map<UserId, int>, st0: Stakes) returns (st: Stakes)
    ensures st == StakeAll(draw, pending, st0, st0.seated)
  {
    var snap := st0.seated;
    var s, bal, led, hs, d := snap, st0.balance, st0.ledger, st0.hands, st0.drawn;
    for k := 0 to |snap|
      invariant Stakes(s, bal, led, hs, d) == StakeAll(draw, pending, st0, snap[..k])
    {
      StakeAllSnoc(draw, pending, st0, snap, k);
      s, bal, led, hs, d := StakeStep(draw, pending, s, bal, led, hs, d, snap[k]);
    }
    assert snap[..|snap|] == snap;
    st := Stakes(s, bal, led, hs, d);
  }

  /** At the deal a player's balance loses their stake exactly when they
      could cover it; the balance read is the one from before the deal,
      since each player appears once. */
  lemma {:induction false} StakeAllBalanceAt(draw: nat -> Card, pending: map<UserId, int>, st0: Stakes,
                                             users: seq<UserId>, v: UserId)
    requires NoDup(users)
    ensures var st, a := StakeAll(draw, pending, st0, users), Affordable(users, st0.balance, pending);
            (v in st.balance <==> v in st0.balance || v in a)
            && Get(st.balance, v, StartBalance)
               == Get(st0.balance, v, StartBalance) - (if v in a then BetOf(pending, v) else 0)
    decreases |users|
  {
    if |users| > 0 {
      var p, u := users[..|users| - 1], users[|users| - 1];
      SplitLast(users);
      StakeAllBalanceAt(draw, pending, st0, p, v);
      StakeAllBalanceAt(draw, pending, st0, p, u);
      AffordableLast(users, st0.balance, pending, v);
      AffordableIn(p, st0.balance, pending, u);
    }
  }

  /** One player at the deal, for the seats and the cards dealt: with `a`
      the players kept so far and `d0` the cards dealt before the deal, the
      player keeps their seat after `a` exactly when the balance they came
      in with (`bal0`) covers the stake, and then two more cards are dealt. */
  lemma SeatStep(draw: nat -> Card, pending: map<UserId, int>, prev: Stakes, a: seq<UserId>, u: UserId,
                 rest: seq<UserId>, bal0: map<UserId, int>, d0: nat)
    requires prev.seated == a + ([u] + rest) && u !in a && prev.drawn == d0 + 2 * |a|
    requires Get(prev.balance, u, StartBalance) == Get(bal0, u, StartBalance)
    ensures var st, a' := StakeOne(draw, pending, prev, u), a + if Affords(bal0, pending, u) then [u] else [];
            st.seated == a' + rest && st.drawn == d0 + 2 * |a'|
  {
    if !Affords(prev.balance, pending, u) {
      RemoveFirstAppend(a, [u] + rest, u);
      assert RemoveFirst([u] + rest, u) == rest;
      assert a + [] == a;
    } else {
      assert a + ([u] + rest) == (a + [u]) + rest;
    }
  }

  /** The seats and the cards dealt after staking the given users, as
      StakeAllSeats states them. */
  ghost predicate SeatsAfterStakes(draw: nat -> Card, pending: map<UserId, int>, st0: Stakes, users: seq<UserId>,
                                   rest: seq<UserId>)
  {
    var st, a := StakeAll(draw, pending, st0, users), Affordable(users, st0.balance, pending);
    st.seated == a + rest && st.drawn == st0.drawn + 2 * |a|
  }

  /** Staking one more user after the others, given how the others went. */
  lemma StakeSeatsLast(draw: nat -> Card, pending: map<UserId, int>, st0: Stakes, p: seq<UserId>, u: UserId,
                       rest: seq<UserId>)
    requires u !in Affordable(p, st0.balance, pending)
    requires Get(StakeAll(draw, pending, st0, p).balance, u, StartBalance) == Get(st0.balance, u, StartBalance)
    requires SeatsAfterStakes(draw, pending, st0, p, [u] + rest)
    ensures SeatsAfterStakes(draw, pending, st0, p + [u], rest)
  {
    StakeAllAppend(draw, pending, st0, p, u);
    AffordableAppend(p, st0.balance, pending, u);
    SeatStep(draw, pending, StakeAll(draw, pending, st0, p), Affordable(p, st0.balance, pending), u, rest,
             st0.balance, st0.drawn);
  }

  lemma {:induction false} StakeSeatsFrom(draw: nat -> Card, pending: map<UserId, int>, st0: Stakes,
                                          users: seq<UserId>, rest: seq<UserId>)
    requires NoDup(users) && st0.seated == users + rest
    ensures SeatsAfterStakes(draw, pending, st0, users, rest)
    decreases |users|
  {
    if |users| == 0 {
      assert users + rest == rest;
    } else {
      var p, u := users[..|users| - 1], users[|users| - 1];
      SplitLast(users);
      assert users + rest == p + ([u] + rest);
      StakeSeatsFrom(draw, pending, st0, p, [u] + rest);
      StakeAllBalanceAt(draw, pending, st0, p, u);
      AffordableIn(p, st0.balance, pending, u);
      StakeSeatsLast(draw, pending, st0, p, u, rest);
    }
  }

  /** The players who could cover their stake keep their seats, in order,
      the players after them are untouched, and two cards went to each
      staked player. */
  lemma StakeAllSeats(draw: nat -> Card, pending: map<UserId, int>, st0: Stakes, users: seq<UserId>,
                      rest: seq<UserId>)
    requires NoDup(users) && st0.seated == users + rest
    ensures var st, a := StakeAll(draw, pending, st0, users), Affordable(users, st0.balance, pending);
            st.seated == a + rest && st.drawn == st0.drawn + 2 * |a|
  {
    StakeSeatsFrom(draw, pending, st0, users, rest);
  }

  lemma StakeOneLedger(draw: nat -> Card, pending: map<UserId, int>, st: Stakes, v: UserId)
    ensures StakeOne(draw, pending, st, v).ledger
            == if Affords(st.balance, pending, v)
               then Appended(st.ledger, v, StakeEntry(st.balance, pending, v))
               else st.ledger
  {
  }

  lemma LedgerOfAppended(ledger: map<UserId, seq<LedgerEntry>>, u: UserId, e: LedgerEntry, v: UserId)
    ensures v in Appended(ledger, u, e) <==> v in ledger || v == u
    ensures LedgerOf(Appended(ledger, u, e), v)
            == if v == u then NewestFirst(LedgerOf(ledger, u), e, LedgerCap) else LedgerOf(ledger, v)
  {
  }

  /** The deal creates a ledger for each staked player who had none and
      removes none. */
  lemma {:induction false} StakeAllLedgerKeys(draw: nat -> Card, pending: map<UserId, int>, st0: Stakes,
                                              users: seq<UserId>, v: UserId)
    requires NoDup(users)
    ensures v in StakeAll(draw, pending, st0, users).ledger
            <==> v in st0.ledger || v in Affordable(users, st0.balance, pending)
    decreases |users|
  {
    if |users| > 0 {
      var p, u := users[..|users| - 1], users[|users| - 1];
      SplitLast(users);
      var prev := StakeAll(draw, pending, st0, p);
      var e := StakeEntry(prev.balance, pending, u);
      StakeAllLedgerKeys(draw, pending, st0, p, v);
      StakeAllBalanceAt(draw, pending, st0, p, u);
      StakeOneLedger(draw, pending, prev, u);
      LedgerOfAppended(prev.ledger, u, e, v);
      AffordableLast(users, st0.balance, pending, v);
      AffordableIn(p, st0.balance, pending, u);
    }
  }

  /** A player's ledger after staking the given users, as StakeAllLedgerAt
      states it. */
  ghost predicate LedgerAfterStakes(draw: nat -> Card, pending: map<UserId, int>, st0: Stakes, users: seq<UserId>,
                                    v: UserId)
  {
    LedgerOf(StakeAll(draw, pending, st0, users).ledger, v)
    == if v in Affordable(users, st0.balance, pending)
       then NewestFirst(LedgerOf(st0.ledger, v), StakeEntry(st0.balance, pending, v), LedgerCap)
       else LedgerOf(st0.ledger, v)
  }

  /** The last player of the snapshot: their ledger is untouched before
      their turn, and their turn logs the stake against the balance they
      came in with. */
  lemma StakeLedgerLast(draw: nat -> Card, pending: map<UserId, int>, st0: Stakes, users: seq<UserId>)
    requires NoDup(users) && |users| > 0
    requires LedgerAfterStakes(draw, pending, st0, users[..|users| - 1], users[|users| - 1])
    ensures LedgerAfterStakes(draw, pending, st0, users, users[|users| - 1])
  {
    var p, u := users[..|users| - 1], users[|users| - 1];
    SplitLast(users);
    var prev := StakeAll(draw, pending, st0, p);
    StakeAllBalanceAt(draw, pending, st0, p, u);
    AffordableIn(p, st0.balance, pending, u);
    assert StakeEntry(prev.balance, pending, u) == StakeEntry(st0.balance, pending, u);
    StakeOneLedger(draw, pending, prev, u);
    LedgerOfAppended(prev.ledger, u, StakeEntry(prev.balance, pending, u), u);
    AffordableLast(users, st0.balance, pending, u);
  }

  /** Any other player: the last player's turn leaves their ledger alone. */
  lemma StakeLedgerOther(draw: nat -> Card, pending: map<UserId, int>, st0: Stakes, users: seq<UserId>, v: UserId)
    requires NoDup(users) && |users| > 0 && v != users[|users| - 1]
    requires LedgerAfterStakes(draw, pending, st0, users[..|users| - 1], v)
    ensures LedgerAfterStakes(draw, pending, st0, users, v)
  {
    var p, u := users[..|users| - 1], users[|users| - 1];
    var prev := StakeAll(draw, pending, st0, p);
    StakeOneLedger(draw, pending, prev, u);
    LedgerOfAppended(prev.ledger, u, StakeEntry(prev.balance, pending, u), v);
    AffordableLast(users, st0.balance, pending, v);
  }

  /** The deal's effect on one ledger, player by player. */
  lemma {:induction false} StakeLedgers(draw: nat -> Card, pending: map<UserId, int>, st0: Stakes,
                                        users: seq<UserId>, v: UserId)
    requires NoDup(users)
    ensures LedgerAfterStakes(draw, pending, st0, users, v)
    decreases |users|
  {
    if |users| > 0 {
      var p, u := users[..|users| - 1], users[|users| - 1];
      SplitLast(users);
      StakeLedgers(draw, pending, st0, p, v);
      if v == u {
        StakeLedgerLast(draw, pending, st0, users);
      } else {
        StakeLedgerOther(draw, pending, st0, users, v);
      }
    }
  }

  /** A staked player's ledger gains the stake entry, with the balance after
      it, newest first and capped; every other ledger stays as it was. */
  lemma StakeAllLedgerAt(draw: nat -> Card, pending: map<UserId, int>, st0: Stakes, users: seq<UserId>, v: UserId)
    requires NoDup(users)
    ensures LedgerOf(StakeAll(draw, pending, st0, users).ledger, v)
            == if v in Affordable(users, st0.balance, pending)
               then NewestFirst(LedgerOf(st0.ledger, v), StakeEntry(st0.balance, pending, v), LedgerCap)
               else LedgerOf(st0.ledger, v)
  {
    StakeLedgers(draw, pending, st0, users, v);
  }

  /** What the deal leaves in a player's hands, given the hands before it
      and the players staked so far. */
  ghost predicate HandsAfter(pending: map<UserId, int>, hands0: map<UserId, seq<Hand>>, a: seq<UserId>,
                             hands: map<UserId, seq<Hand>>, v: UserId)
  {
    (v in hands <==> v in hands0 || v in a)
    && (v in a ==> |hands[v]| == 1 && hands[v][0].bet == BetOf(pending, v)
                   && |hands[v][0].cards| == 2 && !hands[v][0].resolved)
    && (v !in a && v in hands0 ==> hands[v] == hands0[v])
  }

  /** One player at the deal, for the hands. */
  lemma HandsStep(draw: nat -> Card, pending: map<UserId, int>, prev: Stakes, a: seq<UserId>, u: UserId,
                  hands0: map<UserId, seq<Hand>>, bal0: map<UserId, int>, v: UserId)
    requires u !in a && Get(prev.balance, u, StartBalance) == Get(bal0, u, StartBalance)
    requires HandsAfter(pending, hands0, a, prev.hands, v)
    ensures HandsAfter(pending, hands0, a + (if Affords(bal0, pending, u) then [u] else []),
                       StakeOne(draw, pending, prev, u).hands, v)
  {
  }

  lemma {:induction false} StakeHands(draw: nat -> Card, pending: map<UserId, int>, st0: Stakes,
                                      users: seq<UserId>, v: UserId)
    requires NoDup(users)
    ensures HandsAfter(pending, st0.hands, Affordable(users, st0.balance, pending),
                       StakeAll(draw, pending, st0, users).hands, v)
    decreases |users|
  {
    if |users| > 0 {
      var p, u := users[..|users| - 1], users[|users| - 1];
      SplitLast(users);
      StakeHands(draw, pending, st0, p, v);
      StakeAllBalanceAt(draw, pending, st0, p, u);
      AffordableIn(p, st0.balance, pending, u);
      assert users == p + [u];
      StakeAllAppend(draw, pending, st0, p, u);
      AffordableAppend(p, st0.balance, pending, u);
      HandsStep(draw, pending, StakeAll(draw, pending, st0, p), Affordable(p, st0.balance, pending), u,
                st0.hands, st0.balance, v);
    }
  }

  /** A staked player holds one fresh, unresolved two-card hand of their
      stake; everyone else keeps what they held. */
  lemma StakeAllHandsAt(draw: nat -> Card, pending: map<UserId, int>, st0: Stakes, users: seq<UserId>, v: UserId)
    requires NoDup(users)
    ensures var st, a := StakeAll(draw, pending, st0, users), Affordable(users, st0.balance, pending);
            (v in st.hands <==> v in st0.hands || v in a)
            && (v in a ==> |st.hands[v]| == 1 && st.hands[v][0].bet == BetOf(pending, v)
                           && |st.hands[v][0].cards| == 2 && !st.hands[v][0].resolved)
            && (v !in a && v in st0.hands ==> st.hands[v] == st0.hands[v])
  {
    StakeHands(draw, pending, st0, users, v);
  }

  /** The deal keeps the table consistent: the seats shrink to the players
      who could cover their stake, no balance or ledger appears or
      disappears, and no ledger outgrows its cap. */
  lemma DealKeeps(draw: nat -> Card, pending: map<UserId, int>, st0: Stakes, waiting: set<UserId>,
                  wins: set<UserId>, losses: set<UserId>, mailbox: map<UserId, seq<Action>>, st: Stakes)
    requires Consistent(st0.seated, waiting, st0.balance.Keys, wins, losses, st0.ledger, mailbox)
    requires st == StakeAll(draw, pending, st0, st0.seated)
    ensures st.seated == Affordable(st0.seated, st0.balance, pending)
    ensures st.balance.Keys == st0.balance.Keys && st.ledger.Keys == st0.ledger.Keys
    ensures Consistent(st.seated, waiting, st.balance.Keys, wins, losses, st.ledger, mailbox)
  {
    var snap := st0.seated;
    StakeAllSeats(draw, pending, st0, snap, []);
    assert snap + [] == snap;
    AffordableNoDup(snap, st0.balance, pending);
    forall v ensures (v in st.balance <==> v in st0.balance) && (v in st.ledger <==> v in st0.ledger) {
      StakeAllBalanceAt(draw, pending, st0, snap, v);
      StakeAllLedgerKeys(draw, pending, st0, snap, v);
      AffordableIn(snap, st0.balance, pending, v);
    }
    forall v | v in st.ledger ensures |st.ledger[v]| <= LedgerCap {
      StakeAllLedgerAt(draw, pending, st0, snap, v);
    }
    forall v | v in st.seated ensures v in snap {
      AffordableIn(snap, st0.balance, pending, v);
    }
    NarrowKeeps(snap, waiting, st.seated, st0.balance.Keys, wins, losses, st0.ledger, st.ledger, mailbox);
  }

  /** `r` is `cards` followed by the shoe's cards from position d on, each
      drawn while the hand was worth less than 17, and d' counts them. */
  ghost predicate DealerDrew(draw: nat -> Card, cards: seq<Card>, d: nat, r: seq<Card>, d': nat) {
    |cards| <= |r| && r[..|cards|] == cards && d' == d + (|r| - |cards|)
    && (forall k :: |cards| <= k < |r| ==> r[k] == draw(d + (k - |cards|)))
    && (forall k :: |cards| <= k < |r| ==> HandValue(r[..k]) < 17)
  }

  /** Drawing one more card to a hand worth less than 17 keeps DealerDrew
      and raises the all-aces-low total, which stays below 17 until then. */
  lemma DealerDrawStep(draw: nat -> Card, cards: seq<Card>, d: nat, r: seq<Card>, d': nat)
    requires DealerDrew(draw, cards, d, r, d') && HandValue(r) < 17
    ensures DealerDrew(draw, cards, d, r + [draw(d')], d' + 1)
    ensures HardTotal(r) < 17 && HardTotal(r + [draw(d')]) > HardTotal(r)
  {
    HandValueShape(r);
    AddCardRaisesHardTotal(r, draw(d'));
    var r' := r + [draw(d')];
    assert r'[..|r|] == r;
    assert r'[..|cards|] == r[..|cards|];
    forall k | |cards| <= k < |r'| ensures HandValue(r'[..k]) < 17 {
      if k < |r| {
        assert r'[..k] == r[..k];
      }
    }
  }

  /** The dealer's loop: cards are drawn from the shoe, in order, until the
      hand is worth 17 or more; every card drawn went to a hand still worth
      less than 17. */
  method DealerDraws(draw: nat -> Card, cards: seq<Card>, d: nat) returns (r: seq<Card>, d': nat)
    ensures HandValue(r) >= 17 && DealerDrew(draw, cards, d, r, d')
  {
    r, d' := cards, d;
    assert r[..|cards|] == cards;
    var v := ComputeHandValue(r);
    while v < 17
      invariant v == HandValue(r) && DealerDrew(draw, cards, d, r, d')
      decreases 17 - HardTotal(r)
    {
      DealerDrawStep(draw, cards, d, r, d');
      r, d' := r + [draw(d')], d' + 1;
      v := ComputeHandValue(r);
    }
  }

  /** The books settleRound writes: balances, wins, losses and round nets,
      the ledgers, and the log lines of the round so far. */
  datatype Books = Books(balance: map<UserId, int>, wins: map<UserId, int>, losses: map<UserId, int>,
                         net: map<UserId, int>, ledger: map<UserId, seq<LedgerEntry>>, lines: seq<HandLine>)

  lemma RoundLinesSnoc(users: seq<UserId>, n: nat, hands: map<UserId, seq<Hand>>, dealerTotal: int)
    requires n < |users|
    ensures RoundLines(users[..n + 1], hands, dealerTotal)
            == RoundLines(users[..n], hands, dealerTotal)
               + (if users[n] in hands then HandLines(users[n], hands[users[n]], dealerTotal) else [])
  {
    assert users[..n + 1][..n] == users[..n];
  }

  /** No ledger outgrows its cap. */
  ghost predicate LedgersCapped(ledger: map<UserId, seq<LedgerEntry>>) {
    forall v :: v in ledger ==> |ledger[v]| <= LedgerCap
  }

  /** A user's ledgers once settleRound has settled their hands from
      `balance`: the settlement entries go in front, oldest first, and the
      oldest beyond 100 drop off; a player without hands keeps their ledger. */
  function SettleLedger(ledger: map<UserId, seq<LedgerEntry>>, u: UserId, hands: map<UserId, seq<Hand>>,
                        dealerTotal: int, balance: int): map<UserId, seq<LedgerEntry>>
  {
    if u in hands && |hands[u]| > 0
    then ledger[u := NewestFirstAll(LedgerOf(ledger, u), SettleEntries(hands[u], dealerTotal, balance), LedgerCap)]
    else ledger
  }

  /** The ledgers after settling the players of a list in order, each from
      the balance the players before them left. */
  function SettledLedgers(users: seq<UserId>, hands: map<UserId, seq<Hand>>, dealerTotal: int,
                          balance0: map<UserId, int>, ledger0: map<UserId, seq<LedgerEntry>>)
    : map<UserId, seq<LedgerEntry>>
    decreases |users|
  {
    if |users| == 0 then ledger0
    else
      var n := |users| - 1;
      SettleLedger(SettledLedgers(users[..n], hands, dealerTotal, balance0, ledger0), users[n], hands, dealerTotal,
                   Get(Accumulate(users[..n], hands, balance0, Credits, dealerTotal), users[n], 0))
  }

  /** Over distinct players, each player's ledger gains the entries settling
      their own hands, starting from their balance before the round; the
      ledgers of everyone else stay as they were. */
  lemma {:induction false} SettledLedgerAt(users: seq<UserId>, hands: map<UserId, seq<Hand>>, dealerTotal: int,
                                           balance0: map<UserId, int>, ledger0: map<UserId, seq<LedgerEntry>>,
                                           v: UserId)
    requires NoDup(users)
    ensures LedgerOf(SettledLedgers(users, hands, dealerTotal, balance0, ledger0), v)
            == if Plays(users, hands, v)
               then NewestFirstAll(LedgerOf(ledger0, v), SettleEntries(hands[v], dealerTotal, Get(balance0, v, 0)),
                                   LedgerCap)
               else LedgerOf(ledger0, v)
    decreases |users|
  {
    if |users| > 0 {
      var n := |users| - 1;
      var prefix, u := users[..n], users[n];
      SplitLast(users);
      SettledLedgerAt(prefix, hands, dealerTotal, balance0, ledger0, v);
      assert v in users <==> v in prefix || v == u;
      if v == u {
        AccumulateAt(prefix, hands, balance0, Credits, dealerTotal, v);
      }
    }
  }

  /** What settling one player does to the books: a player holding hands
      has their credits, wins, losses and net merged into their entries and
      their log lines added; only their ledger may change, and it stays
      within its cap. */
  ghost predicate SettledOne(u: UserId, hands: map<UserId, seq<Hand>>, dealerTotal: int, b: Books, b': Books) {
    b'.balance == AddMeasure(b.balance, u, hands, Credits, dealerTotal)
    && b'.wins == AddMeasure(b.wins, u, hands, Wins, dealerTotal)
    && b'.losses == AddMeasure(b.losses, u, hands, Losses, dealerTotal)
    && b'.net == AddMeasure(b.net, u, hands, Net, dealerTotal)
    && b'.lines == b.lines + (if u in hands then HandLines(u, hands[u], dealerTotal) else [])
    && b'.ledger == SettleLedger(b.ledger, u, hands, dealerTotal, Get(b.balance, u, 0))
    && (|LedgerOf(b.ledger, u)| <= LedgerCap ==> |LedgerOf(b'.ledger, u)| <= LedgerCap)
  }

  /** What settling the players of a list in order does to the books. */
  ghost predicate SettledAll(users: seq<UserId>, hands: map<UserId, seq<Hand>>, dealerTotal: int, b0: Books, b: Books) {
    b.balance == Accumulate(users, hands, b0.balance, Credits, dealerTotal)
    && b.wins == Accumulate(users, hands, b0.wins, Wins, dealerTotal)
    && b.losses == Accumulate(users, hands, b0.losses, Losses, dealerTotal)
    && b.net == Accumulate(users, hands, b0.net, Net, dealerTotal)
    && b.lines == b0.lines + RoundLines(users, hands, dealerTotal)
    && b.ledger == SettledLedgers(users, hands, dealerTotal, b0.balance, b0.ledger)
    && b0.balance.Keys <= b.balance.Keys && b0.wins.Keys <= b.wins.Keys && b0.losses.Keys <= b.losses.Keys
    && b0.ledger.Keys <= b.ledger.Keys
    && (LedgersCapped(b0.ledger) ==> LedgersCapped(b.ledger))
  }

  /** One settlement of a round: the players in order, their hands, the
      dealer's total, and the books before and after. */
  datatype Settlement = Settlement(users: seq<UserId>, hands: map<UserId, seq<Hand>>, dealerTotal: int,
                                   before: Books, after: Books)

  /** The books after are the players' settlement from the books before. */
  ghost predicate Settles(s: Settlement) {
    SettledAll(s.users, s.hands, s.dealerTotal, s.before, s.after)
  }

  /** Settling one more player extends the settlement of the players before. */
  lemma SettledAllStep(users: seq<UserId>, k: nat, hands: map<UserId, seq<Hand>>, dealerTotal: int,
                       b0: Books, b: Books, b': Books)
    requires k < |users|
    requires SettledAll(users[..k], hands, dealerTotal, b0, b) && SettledOne(users[k], hands, dealerTotal, b, b')
    ensures SettledAll(users[..k + 1], hands, dealerTotal, b0, b')
  {
    AccumulateSnoc(users, k, hands, b0.balance, Credits, dealerTotal);
    AccumulateSnoc(users, k, hands, b0.wins, Wins, dealerTotal);
    AccumulateSnoc(users, k, hands, b0.losses, Losses, dealerTotal);
    AccumulateSnoc(users, k, hands, b0.net, Net, dealerTotal);
    RoundLinesSnoc(users, k, hands, dealerTotal);
    assert users[..k + 1][..k] == users[..k];
  }

  /** Writing a player's settled tally back into the books settles them. */
  lemma SettledOneHands(u: UserId, hands: map<UserId, seq<Hand>>, dealerTotal: int, b: Books, t: Tally,
                        ledger': map<UserId, seq<LedgerEntry>>)
    requires u in hands && |hands[u]| > 0
    requires t.balance == Get(b.balance, u, 0) + MeasureOf(Credits, hands[u], dealerTotal)
    requires t.wins == Get(b.wins, u, 0) + MeasureOf(Wins, hands[u], dealerTotal)
    requires t.losses == Get(b.losses, u, 0) + MeasureOf(Losses, hands[u], dealerTotal)
    requires t.net == Get(b.net, u, 0) + MeasureOf(Net, hands[u], dealerTotal)
    requires t.lines == b.lines + HandLines(u, hands[u], dealerTotal)
    requires ledger' == SettleLedger(b.ledger, u, hands, dealerTotal, Get(b.balance, u, 0))
    requires |LedgerOf(b.ledger, u)| <= LedgerCap ==> |LedgerOf(ledger', u)| <= LedgerCap
    ensures SettledOne(u, hands, dealerTotal, b,
                       Books(b.balance[u := t.balance], b.wins[u := t.wins], b.losses[u := t.losses],
                             b.net[u := t.net], ledger', t.lines))
  {
  }

  /** settleRound for one player: a player holding hands has them settled
      as SettleHands does; anyone else is skipped. */
  method SettleUser(u: UserId, hands: map<UserId, seq<Hand>>, dealerTotal: int, b: Books) returns (b': Books)
    ensures SettledOne(u, hands, dealerTotal, b, b')
  {
    if u in hands && |hands[u]| > 0 {
      var t := SettleHands(u, hands[u], dealerTotal,
                           Tally(Get(b.balance, u, 0), Get(b.wins, u, 0), Get(b.losses, u, 0), Get(b.net, u, 0),
                                 LedgerOf(b.ledger, u), b.lines));
      assert b.ledger[u := t.entries] == SettleLedger(b.ledger, u, hands, dealerTotal, Get(b.balance, u, 0));
      MeasuresOf(hands[u], dealerTotal);
      SettledOneHands(u, hands, dealerTotal, b, t, b.ledger[u := t.entries]);
      b' := Books(b.balance[u := t.balance], b.wins[u := t.wins], b.losses[u := t.losses], b.net[u := t.net],
                  b.ledger[u := t.entries], t.lines);
    } else {
      assert u in hands ==> HandLines(u, hands[u], dealerTotal) == [];
      b' := b;
    }
  }

  /** The player loop of settleRound over the seating snapshot: every player
      holding hands has them settled, which adds their credits, wins, losses
      and nets to their entries and their log lines to the round's; players
      without hands are skipped. */
  method SettleAll(users: seq<UserId>, hands: map<UserId, seq<Hand>>, dealerTotal: int, b0: Books)
    returns (b: Books)
    ensures SettledAll(users, hands, dealerTotal, b0, b)
  {
    b := b0;
    for k := 0 to |users|
      invariant SettledAll(users[..k], hands, dealerTotal, b0, b)
    {
      var b' := SettleUser(users[k], hands, dealerTotal, b);
      SettledAllStep(users, k, hands, dealerTotal, b0, b, b');
      b := b';
    }
    assert users[..|users|] == users;
  }

  /** Giving balances, counters and ledgers to more users, and replacing the
      ledgers by capped ones, keeps the table consistent. */
  lemma WidenKeeps(seated: seq<UserId>, waiting: set<UserId>, balance: set<UserId>, wins: set<UserId>,
                   losses: set<UserId>, ledger: map<UserId, seq<LedgerEntry>>, mailbox: map<UserId, seq<Action>>,
                   balance': set<UserId>, wins': set<UserId>, losses': set<UserId>,
                   ledger': map<UserId, seq<LedgerEntry>>)
    requires Consistent(seated, waiting, balance, wins, losses, ledger, mailbox)
    requires balance <= balance' && wins <= wins' && losses <= losses' && ledger.Keys <= ledger'.Keys
    requires forall v :: v in ledger' ==> |ledger'[v]| <= LedgerCap
    ensures Consistent(seated, waiting, balance', wins', losses', ledger', mailbox)
  {
  }

  class Table {
    var seated: seq<UserId>
    var waiting: set<UserId>
    var balance: map<UserId, int>
    var wins: map<UserId, int>
    var losses: map<UserId, int>
    var ledger: map<UserId, seq<LedgerEntry>>
    /** The action queue of each user who has one, oldest action first. */
    var mailbox: map<UserId, seq<Action>>
    var playerHands: map<UserId, seq<Hand>>
    var running: bool
    var roundActive: bool
    var currentPlayer: Option<UserId>
    var currentHandIndex: nat
    var dealer: seq<Card>
    var dealerHidden: bool
    var phase: Phase
    var pendingBet: map<UserId, int>
    var roundNet: map<UserId, int>
    var history: seq<RoundLog>
    var historyPage: int
    const draw: nat -> Card
    var drawn: nat

    /** Seated players are distinct and none is also waiting; everyone at
        the table has a balance, counters, a ledger and an action queue;
        ledgers, queues and the history stay within their caps and the
        history page is a page of the history. */
    ghost predicate Valid()
      reads this`seated, this`waiting, this`balance, this`wins, this`losses, this`ledger, this`mailbox
    {
      Consistent(seated, waiting, balance.Keys, wins.Keys, losses.Keys, ledger, mailbox)
    }

    /** The history page shown is one of the at most 20 rounds kept. */
    ghost predicate Paged()
      reads this`history, this`historyPage
    {
      HistoryPaged(|history|, historyPage)
    }

    /** The fields the players' turns work on. */
    function PlayState(): Play
      reads this`playerHands, this`balance, this`ledger, this`mailbox, this`drawn, this`wins, this`roundNet,
            this`currentPlayer, this`currentHandIndex
    {
      Play(playerHands, balance, ledger, mailbox, drawn, wins, roundNet, currentPlayer, currentHandIndex)
    }

    /** The table as the class initialiser leaves it, with the balances,
        wins and losses loadState read back. */
    constructor (draw: nat -> Card, balances: map<UserId, int>, wins: map<UserId, int>, losses: map<UserId, int>)
      ensures Valid() && Paged()
      ensures seated == [] && waiting == {} && phase == Lobby && !running && !roundActive
      ensures balance == balances && this.wins == wins && this.losses == losses && ledger == map[]
      ensures this.draw == draw && drawn == 0 && history == [] && historyPage == 0
      ensures mailbox == map[] && playerHands == map[] && pendingBet == map[] && roundNet == map[]
      ensures currentPlayer == None && currentHandIndex == 0 && dealer == [] && dealerHidden
    {
      seated := [];
      waiting := {};
      balance := balances;
      this.wins := wins;
      this.losses := losses;
      ledger := map[];
      mailbox := map[];
      playerHands := map[];
      running := false;
      roundActive := false;
      currentPlayer := None;
      currentHandIndex := 0;
      dealer := [];
      dealerHidden := true;
      phase := Lobby;
      pendingBet := map[];
      roundNet := map[];
      history := [];
      historyPage := 0;
      this.draw := draw;
      drawn := 0;
    }

    /** appendLedger: the entry goes in front, the oldest beyond 100 drop off. */
    method AppendLedger(u: UserId, e: LedgerEntry)
      modifies this`ledger
      ensures ledger == Appended(old(ledger), u, e)
      ensures |ledger[u]| <= LedgerCap && ledger[u][0] == e
    {
      var entries := PushFront(LedgerOf(ledger, u), e, LedgerCap);
      ledger := ledger[u := entries];
    }

    /** addBalance: the balance (100 when unknown) grows by the amount, logged. */
    method AddBalance(u: UserId, amount: int)
      requires Valid()
      modifies this`balance, this`ledger
      ensures Valid()
      ensures balance == old(balance)[u := Get(old(balance), u, StartBalance) + amount]
      ensures ledger == Appended(old(ledger), u, LedgerEntry(AdminFunds, amount, balance[u]))
    {
      if u !in balance {
        balance := balance[u := StartBalance];
      }
      balance := Merge(balance, u, amount);
      AppendLedger(u, LedgerEntry(AdminFunds, amount, balance[u]));
    }

    /** buyIn: only below 50 is the balance reset to 100; the ledger records
        the negated top-up as the delta. */
    method BuyIn(u: UserId)
      requires Valid()
      modifies this`balance, this`ledger
      ensures Valid()
      ensures Get(old(balance), u, StartBalance) >= BuyInBelow ==> balance == old(balance) && ledger == old(ledger)
      ensures Get(old(balance), u, StartBalance) < BuyInBelow ==>
                balance == old(balance)[u := BuyInAmount]
                && ledger == Appended(old(ledger), u,
                                      LedgerEntry(BuyInTopUp, -(BuyInAmount - Get(old(balance), u, StartBalance)), BuyInAmount))
    {
      var bal := Get(balance, u, StartBalance);
      if bal >= BuyInBelow {
        return;
      }
      balance := balance[u := BuyInAmount];
      AppendLedger(u, LedgerEntry(BuyInTopUp, -(BuyInAmount - bal), BuyInAmount));
    }

    /** clearBet: during betting, a seated player's pending bet is dropped. */
    method ClearBet(u: UserId)
      requires Valid()
      modifies this`pendingBet
      ensures Valid()
      ensures pendingBet == if phase == Betting && u in seated then old(pendingBet) - {u} else old(pendingBet)
    {
      if phase != Betting || u !in seated {
        return;
      }
      pendingBet := pendingBet - {u};
    }

    /** placeBet: a bet is recorded only during betting, for a seated
        player, for one of the offered amounts the balance covers. */
    method PlaceBet(u: UserId, amount: int)
      requires Valid()
      modifies this`pendingBet
      ensures Valid()
      ensures pendingBet
              == if phase == Betting && u in seated && amount in BetOptions && Get(balance, u, StartBalance) >= amount
                 then old(pendingBet)[u := amount] else old(pendingBet)
    {
      if phase != Betting || u !in seated {
        return;
      }
      var ok := false;
      for k := 0 to |BetOptions|
        invariant ok <==> amount in BetOptions[..k]
      {
        if BetOptions[k] == amount {
          ok := true;
          break;
        }
      }
      assert BetOptions[..|BetOptions|] == BetOptions;
      if !ok {
        return;
      }
      var bal := Get(balance, u, StartBalance);
      if bal < amount {
        return;
      }
      pendingBet := pendingBet[u := amount];
    }

    /** The accounts half of join: the user gets a balance of 100, zero
        wins and losses, an empty ledger and an empty queue unless they
        already have them. */
    method Register(u: UserId)
      requires Valid()
      modifies this`balance, this`wins, this`losses, this`ledger, this`mailbox
      ensures Valid()
      ensures balance == PutIfAbsent(old(balance), u, StartBalance)
      ensures wins == PutIfAbsent(old(wins), u, 0) && losses == PutIfAbsent(old(losses), u, 0)
      ensures ledger == PutIfAbsent(old(ledger), u, []) && mailbox == PutIfAbsent(old(mailbox), u, [])
    {
      JoinKeeps(seated, waiting, balance.Keys, wins.Keys, losses.Keys, ledger, mailbox, u);
      balance := PutIfAbsent(balance, u, StartBalance);
      wins := PutIfAbsent(wins, u, 0);
      losses := PutIfAbsent(losses, u, 0);
      ledger := PutIfAbsent(ledger, u, []);
      mailbox := PutIfAbsent(mailbox, u, []);
    }

    /** The seating half of join, for a registered user: one already at the
        table stays where they are; otherwise they are seated with a default
        bet of 5 during betting, wait while a round is on, and are seated
        otherwise. The game is started. */
    method Seat(u: UserId)
      requires Valid() && u in balance && u in wins && u in losses && u in ledger && u in mailbox
      modifies this`seated, this`waiting, this`pendingBet, this`running
      ensures Valid()
      ensures running && ((u in seated) != (u in waiting))
      ensures old(u in seated || u in waiting) ==>
                seated == old(seated) && waiting == old(waiting) && pendingBet == old(pendingBet)
      ensures !old(u in seated || u in waiting) && phase == Betting ==>
                seated == old(seated) + [u] && waiting == old(waiting)
                && pendingBet == PutIfAbsent(old(pendingBet), u, DefaultBet)
      ensures !old(u in seated || u in waiting) && phase != Betting && roundActive ==>
                seated == old(seated) && waiting == old(waiting) + {u} && pendingBet == old(pendingBet)
      ensures !old(u in seated || u in waiting) && phase != Betting && !roundActive ==>
                seated == old(seated) + [u] && waiting == old(waiting) && pendingBet == old(pendingBet)
    {
      if u in seated || u in waiting {
        running := true;
        return;
      }
      if phase == Betting {
        SeatAt(u);
        pendingBet := PutIfAbsent(pendingBet, u, DefaultBet);
      } else if roundActive {
        WaitAt(u);
      } else {
        SeatAt(u);
      }
      running := true;
    }

    /** A registered user not yet at the table takes the last seat. */
    method SeatAt(u: UserId)
      requires Valid() && u in balance && u in wins && u in losses && u in ledger && u in mailbox
      requires u !in seated && u !in waiting
      modifies this`seated
      ensures Valid() && seated == old(seated) + [u]
    {
      JoinKeeps(seated, waiting, balance.Keys, wins.Keys, losses.Keys, ledger, mailbox, u);
      seated := seated + [u];
    }

    /** A registered user not yet at the table waits for the next round. */
    method WaitAt(u: UserId)
      requires Valid() && u in balance && u in wins && u in losses && u in ledger && u in mailbox
      requires u !in seated && u !in waiting
      modifies this`waiting
      ensures Valid() && waiting == old(waiting) + {u}
    {
      JoinKeeps(seated, waiting, balance.Keys, wins.Keys, losses.Keys, ledger, mailbox, u);
      waiting := waiting + {u};
    }

    /** join: the user is registered as Register says, then seated or put
        waiting as Seat says, and the game is started. */
    method Join(u: UserId)
      requires Valid()
      modifies this`balance, this`wins, this`losses, this`ledger, this`mailbox, this`seated, this`waiting,
               this`pendingBet, this`running
      ensures Valid()
      ensures balance == PutIfAbsent(old(balance), u, StartBalance)
      ensures wins == PutIfAbsent(old(wins), u, 0) && losses == PutIfAbsent(old(losses), u, 0)
      ensures ledger == PutIfAbsent(old(ledger), u, []) && mailbox == PutIfAbsent(old(mailbox), u, [])
      ensures running && ((u in seated) != (u in waiting))
      ensures old(u in seated || u in waiting) ==>
                seated == old(seated) && waiting == old(waiting) && pendingBet == old(pendingBet)
      ensures !old(u in seated || u in waiting) && phase == Betting ==>
                seated == old(seated) + [u] && waiting == old(waiting)
                && pendingBet == PutIfAbsent(old(pendingBet), u, DefaultBet)
      ensures !old(u in seated || u in waiting) && phase != Betting && roundActive ==>
                seated == old(seated) && waiting == old(waiting) + {u} && pendingBet == old(pendingBet)
      ensures !old(u in seated || u in waiting) && phase != Betting && !roundActive ==>
                seated == old(seated) + [u] && waiting == old(waiting) && pendingBet == old(pendingBet)
    {
      Register(u);
      Seat(u);
    }

    /** offerAction: queued only when the user has a queue with room left. */
    method Offer(u: UserId, a: Action)
      requires Valid()
      modifies this`mailbox
      ensures Valid()
      ensures mailbox == if u in old(mailbox) && |old(mailbox)[u]| < QueueCap
                         then old(mailbox)[u := old(mailbox)[u] + [a]] else old(mailbox)
    {
      if u in mailbox && |mailbox[u]| < QueueCap {
        mailbox := mailbox[u := mailbox[u] + [a]];
      }
    }

    /** The seating half of leave: the user leaves the seats, the waiting
        set and loses their queue. */
    method Unseat(u: UserId)
      requires Valid()
      modifies this`seated, this`waiting, this`mailbox
      ensures Valid()
      ensures u !in seated && u !in waiting
      ensures seated == RemoveFirst(old(seated), u) && waiting == old(waiting) - {u}
      ensures mailbox == old(mailbox) - {u}
    {
      LeaveKeeps(seated, waiting, balance.Keys, wins.Keys, losses.Keys, ledger, mailbox, u);
      seated, waiting, mailbox := RemoveFirst(seated, u), waiting - {u}, mailbox - {u};
    }

    /** leave: the user is taken off the seats and the waiting set, and
        loses their queue, hands and pending bet. The STAND offered for a
        leaving current player finds no queue, so nothing is queued. When
        the table is empty the current player is cleared. */
    method Leave(u: UserId)
      requires Valid()
      modifies this`seated, this`waiting, this`mailbox, this`playerHands, this`pendingBet, this`currentPlayer,
               this`currentHandIndex
      ensures Valid()
      ensures u !in seated && u !in waiting
      ensures seated == RemoveFirst(old(seated), u) && waiting == old(waiting) - {u}
      ensures mailbox == old(mailbox) - {u}
      ensures playerHands == old(playerHands) - {u} && pendingBet == old(pendingBet) - {u}
      ensures |seated| == 0 && waiting == {} ==> currentPlayer == None && currentHandIndex == 0
      ensures !(|seated| == 0 && waiting == {}) ==>
                currentPlayer == old(currentPlayer) && currentHandIndex == old(currentHandIndex)
    {
      Unseat(u);
      if currentPlayer == Some(u) {
        Offer(u, Stand);
      }
      ForgetPlayer(u);
    }

    /** The rest of leave: the user's hands and pending bet are dropped and,
        once nobody is seated or waiting, the current player is cleared. */
    method ForgetPlayer(u: UserId)
      modifies this`playerHands, this`pendingBet, this`currentPlayer, this`currentHandIndex
      ensures playerHands == old(playerHands) - {u} && pendingBet == old(pendingBet) - {u}
      ensures |seated| == 0 && waiting == {} ==> currentPlayer == None && currentHandIndex == 0
      ensures !(|seated| == 0 && waiting == {}) ==>
                currentPlayer == old(currentPlayer) && currentHandIndex == old(currentHandIndex)
    {
      playerHands, pendingBet := playerHands - {u}, pendingBet - {u};
      if |seated| == 0 && waiting == {} {
        currentPlayer, currentHandIndex := None, 0;
      }
    }

    /** action: queued only for the current player while a round is being
        played. */
    method Act(u: UserId, a: Action)
      requires Valid()
      modifies this`mailbox
      ensures Valid()
      ensures mailbox == if phase == Playing && roundActive && currentPlayer == Some(u)
                            && u in old(mailbox) && |old(mailbox)[u]| < QueueCap
                         then old(mailbox)[u := old(mailbox)[u] + [a]] else old(mailbox)
    {
      if phase != Playing || !roundActive || currentPlayer != Some(u) {
        return;
      }
      Offer(u, a);
    }

    /** historyPrev: one page older, not past the oldest; nothing on an
        empty history. */
    method HistoryPrev()
      requires Paged()
      modifies this`historyPage
      ensures Paged()
      ensures |history| == 0 ==> historyPage == old(historyPage)
      ensures |history| > 0 ==> historyPage == Min(|history| - 1, old(historyPage) + 1)
    {
      if |history| == 0 {
        return;
      }
      historyPage := OlderPage(|history|, historyPage);
    }

    /** historyNext: one page newer, not before the newest. */
    method HistoryNext()
      requires Paged()
      modifies this`historyPage
      ensures Paged()
      ensures historyPage == if old(historyPage) - 1 <= 0 then 0 else old(historyPage) - 1
    {
      historyPage := NewerPage(historyPage);
    }

    /** The waiting users join the seated ones, in no particular order. */
    method AdmitWaiting()
      requires Valid()
      modifies this`seated, this`waiting
      ensures Valid() && waiting == {}
      ensures |seated| == |old(seated)| + |old(waiting)| && seated[..|old(seated)|] == old(seated)
      ensures forall v :: v in seated <==> v in old(seated) || v in old(waiting)
    {
      var s := seated;
      var w := waiting;
      while w != {}
        invariant w <= waiting
        invariant |s| + |w| == |seated| + |waiting| && s[..|seated|] == seated
        invariant forall v :: v in s <==> v in seated || v in waiting - w
        invariant forall v :: v in w ==> v !in s
        invariant NoDup(s)
        decreases |w|
      {
        var v :| v in w;
        s := s + [v];
        w := w - {v};
      }
      AdmitKeeps(seated, waiting, s, balance.Keys, wins.Keys, losses.Keys, ledger, mailbox);
      seated := s;
      waiting := {};
    }

    /** The start of playRound: the round opens for betting, the waiting
        users are seated, and the hands, the dealer, the current player, the
        pending bets and the round nets are cleared. */
    method OpenBetting()
      requires Valid()
      modifies this`roundActive, this`phase, this`seated, this`waiting, this`playerHands, this`dealer,
               this`dealerHidden, this`currentPlayer, this`currentHandIndex, this`pendingBet, this`roundNet
      ensures Valid()
      ensures roundActive && phase == Betting && waiting == {}
      ensures |seated| == |old(seated)| + |old(waiting)| && seated[..|old(seated)|] == old(seated)
      ensures forall v :: v in seated <==> v in old(seated) || v in old(waiting)
      ensures playerHands == map[] && dealer == [] && dealerHidden && currentPlayer == None
      ensures currentHandIndex == 0 && pendingBet == map[] && roundNet == map[]
    {
      ClearRound();
      AdmitWaiting();
    }

    /** The round opens for betting and the hands, the dealer, the current
        player, the pending bets and the round nets of the previous round
        are cleared. */
    method ClearRound()
      modifies this`roundActive, this`phase, this`playerHands, this`dealer, this`dealerHidden, this`currentPlayer, this`currentHandIndex,
               this`pendingBet, this`roundNet
      ensures playerHands == map[] && dealer == [] && dealerHidden && currentPlayer == None
      ensures currentHandIndex == 0 && pendingBet == map[] && roundNet == map[]
      ensures roundActive && phase == Betting
    {
      roundActive, phase := true, Betting;
      playerHands := map[];
      dealer := [];
      dealerHidden := true;
      currentPlayer := None;
      currentHandIndex := 0;
      pendingBet := map[];
      roundNet := map[];
    }

    /** The early exit of the betting wait: every seated player has a bet. */
    method AllSeatedHaveBet() returns (allBet: bool)
      ensures allBet <==> forall v :: v in seated ==> v in pendingBet
    {
      allBet := true;
      for k := 0 to |seated|
        invariant allBet <==> forall j :: 0 <= j < k ==> seated[j] in pendingBet
      {
        if seated[k] !in pendingBet {
          allBet := false;
          break;
        }
      }
    }

    /** A player's turns are written back: their hands, balance, ledger and
        queue, and the cards dealt. */
    method StoreTurn(u: UserId, r: Turn)
      requires Valid() && u in seated && |r.entries| <= LedgerCap && |r.queue| <= QueueCap
      modifies this`playerHands, this`balance, this`ledger, this`mailbox, this`drawn
      ensures Valid()
      ensures playerHands == old(playerHands)[u := r.hands] && balance == old(balance)[u := r.balance]
      ensures ledger == old(ledger)[u := r.entries] && mailbox == old(mailbox)[u := r.queue] && drawn == r.drawn
    {
      playerHands, balance, ledger, mailbox, drawn := playerHands[u := r.hands], balance[u := r.balance],
                                                     ledger[u := r.entries], mailbox[u := r.queue], r.drawn;
      TurnKeeps(seated, waiting, old(balance), wins.Keys, losses.Keys, old(ledger), old(mailbox),
                u, r.balance, r.entries, r.queue);
    }

    /** The end of a player's turns: the turn marker stays on the last hand
        visited, if there was any, and a natural counts one more win and
        adds round(1.5 x bet) to the round net. */
    method CloseTurn(u: UserId, hands: seq<Hand>, last: nat, natural: bool)
      requires Valid() && u in seated && (natural ==> |hands| > 0)
      modifies this`wins, this`roundNet, this`currentPlayer, this`currentHandIndex
      ensures Valid()
      ensures wins == if natural then Merge(old(wins), u, 1) else old(wins)
      ensures roundNet == if natural then Merge(old(roundNet), u, NaturalNet(hands[0].bet)) else old(roundNet)
      ensures |hands| > 0 ==> currentPlayer == Some(u) && currentHandIndex == last
      ensures |hands| == 0 ==> currentPlayer == old(currentPlayer) && currentHandIndex == old(currentHandIndex)
    {
      if |hands| > 0 {
        currentPlayer, currentHandIndex := Some(u), last;
      }
      if natural {
        wins, roundNet := Merge(wins, u, 1), Merge(roundNet, u, NaturalNet(hands[0].bet));
      }
    }

    /** The turns of a player over `hands` that ended in `r` are written
        back and closed, as TurnWritten says. */
    method WriteTurn(u: UserId, hands: seq<Hand>, r: Turn, last: nat, natural: bool)
      requires Valid() && u in seated && |r.entries| <= LedgerCap && |r.queue| <= QueueCap
      requires natural == IsNatural(hands, 0)
      modifies this`playerHands, this`balance, this`ledger, this`mailbox, this`drawn, this`wins, this`roundNet,
               this`currentPlayer, this`currentHandIndex
      ensures Valid()
      ensures PlayState() == TurnWritten(old(PlayState()), u, hands, (r, last))
    {
      StoreTurn(u, r);
      CloseTurn(u, hands, last, natural);
    }

    /** takePlayerTurns: nothing happens to a player without hands or not
        seated. Otherwise each of their hands is played in turn, the list
        growing with splits: a natural is paid round(2.5 x bet), counted as a
        win and added to the round net without polling; every other hand is
        played from the actions polled (queued ones first, then `arrivals`,
        a timeout counting as STAND) while the table runs: PlayerTurns, whose
        properties PlayerTurnsKeeps and PlayerTurnsMarks state. */
    method TakePlayerTurns(u: UserId, arrivals: seq<Option<Action>>)
      requires Valid()
      modifies this`playerHands, this`balance, this`ledger, this`mailbox, this`drawn, this`wins, this`roundNet,
               this`currentPlayer, this`currentHandIndex
      ensures Valid()
      ensures PlayState() == PlayerTurns(draw, phase, roundActive, running, seated, old(PlayState()), u, arrivals)
    {
      if u !in playerHands || u !in seated {
        return;
      }
      PlayerTurn(u, arrivals);
    }

    /** The turns of a seated player holding hands, as TakePlayerTurns
        describes. */
    method PlayerTurn(u: UserId, arrivals: seq<Option<Action>>)
      requires Valid() && u in playerHands && u in seated
      modifies this`playerHands, this`balance, this`ledger, this`mailbox, this`drawn, this`wins, this`roundNet,
               this`currentPlayer, this`currentHandIndex
      ensures Valid()
      ensures PlayState() == PlayerTurns(draw, phase, roundActive, running, seated, old(PlayState()), u, arrivals)
    {
      var t := Turn(playerHands[u], balance[u], ledger[u], mailbox[u], arrivals, drawn);
      assert t == TurnOf(PlayState(), u, arrivals);
      var r, natural, last := PlayHands(draw, phase, roundActive, running, true, t);
      WriteTurn(u, t.hands, r, last, natural);
    }

    /** One pass of the turn loop of playRound: the k-th seated player takes
        their turns. */
    method NextTurn(k: nat, arrivals: map<UserId, seq<Option<Action>>>, ghost p0: Play)
      requires Valid() && k < |seated|
      requires PlayState() == AllTurns(draw, phase, roundActive, running, seated, p0, seated[..k], arrivals)
      modifies this`playerHands, this`balance, this`ledger, this`mailbox, this`drawn, this`wins, this`roundNet,
               this`currentPlayer, this`currentHandIndex
      ensures Valid()
      ensures PlayState() == AllTurns(draw, phase, roundActive, running, seated, p0, seated[..k + 1], arrivals)
    {
      assert seated[..k + 1][..k] == seated[..k];
      TakePlayerTurns(seated[k], ArrivalsFor(arrivals, seated[k]));
    }

    /** The turn loop of playRound: while the table runs, each player of the
        seating snapshot takes their turns, with the actions that arrive for
        them. Nobody is seated or unseated, no player's hands appear or
        disappear, and a running table ends with every seated player's hands
        resolved. */
    method PlayTurns(arrivals: map<UserId, seq<Option<Action>>>)
      requires Valid()
      modifies this`playerHands, this`balance, this`ledger, this`mailbox, this`drawn, this`wins, this`roundNet,
               this`currentPlayer, this`currentHandIndex
      ensures Valid()
      ensures PlayState() == TurnsPlayed(draw, old(phase), old(roundActive), old(running), old(seated), old(PlayState()),
                                         arrivals)
      ensures playerHands.Keys == old(playerHands).Keys && drawn >= old(drawn)
      ensures running ==> ResolvedFor(seated, playerHands)
    {
      if !running {
        return;
      }
      ghost var p0 := PlayState();
      for k := 0 to |seated|
        invariant Valid()
        invariant PlayState() == AllTurns(draw, phase, roundActive, running, seated, p0, seated[..k], arrivals)
      {
        NextTurn(k, arrivals, p0);
      }
      assert seated[..|seated|] == seated;
      AllTurnsKeeps(draw, phase, roundActive, running, seated, p0, seated, arrivals);
      AllTurnsResolved(draw, phase, roundActive, seated, p0, seated, arrivals);
    }

    /** The dealer phase of playRound: the turn marker is cleared, the hole
        card shown, and the dealer draws to 17 as DealerDraws says. */
    method DealerPlay()
      modifies this`currentPlayer, this`currentHandIndex, this`dealerHidden, this`dealer, this`drawn
      ensures currentPlayer == None && currentHandIndex == 0 && !dealerHidden
      ensures HandValue(dealer) >= 17 && DealerDrew(draw, old(dealer), old(drawn), dealer, drawn)
    {
      currentPlayer, currentHandIndex, dealerHidden := None, 0, false;
      dealer, drawn := DealerDraws(draw, dealer, drawn);
    }

    /** The history part of settleRound: the round goes in front, the oldest
        beyond 20 drop off, and the newest page is shown. */
    method LogRound(log: RoundLog)
      modifies this`history, this`historyPage
      ensures history == NewestFirst(old(history), log, HistoryCap) && historyPage == 0 && Paged()
    {
      history := PushFront(history, log, HistoryCap);
      historyPage := 0;
    }

    /** settleRound: the seated players' hands are settled against the
        dealer's total as SettleAll says, and the round is logged. */
    method SettleRound()
      requires Valid()
      modifies this`balance, this`wins, this`losses, this`roundNet, this`ledger, this`history, this`historyPage
      ensures Valid() && Paged() && |history| > 0
      ensures history == NewestFirst(old(history), history[0], HistoryCap)
      ensures history[0].dealer == dealer && history[0].dealerTotal == HandValue(dealer) && historyPage == 0
      ensures SettledAll(seated, playerHands, HandValue(dealer),
                         Books(old(balance), old(wins), old(losses), old(roundNet), old(ledger), []),
                         Books(balance, wins, losses, roundNet, ledger, history[0].lines))
    {
      var dt := ComputeHandValue(dealer);
      var b0 := Books(balance, wins, losses, roundNet, ledger, []);
      var b := SettleAll(seated, playerHands, dt, b0);
      StoreBooks(b);
      LogRound(RoundLog(dealer, dt, b.lines));
      assert SettledAll(seated, playerHands, HandValue(dealer), b0,
                        Books(balance, wins, losses, roundNet, ledger, history[0].lines)) by {
        assert Books(balance, wins, losses, roundNet, ledger, history[0].lines) == b;
      }
    }

    /** The settled books are written back; entries are only ever added and
        the ledgers stay capped, so the table stays consistent. */
    method StoreBooks(b: Books)
      requires Valid() && LedgersCapped(b.ledger)
      requires balance.Keys <= b.balance.Keys && wins.Keys <= b.wins.Keys && losses.Keys <= b.losses.Keys
      requires ledger.Keys <= b.ledger.Keys
      modifies this`balance, this`wins, this`losses, this`roundNet, this`ledger
      ensures Valid()
      ensures balance == b.balance && wins == b.wins && losses == b.losses && roundNet == b.net && ledger == b.ledger
    {
      WidenKeeps(seated, waiting, balance.Keys, wins.Keys, losses.Keys, ledger, mailbox,
                 b.balance.Keys, b.wins.Keys, b.losses.Keys, b.ledger);
      balance, wins, losses, roundNet, ledger := b.balance, b.wins, b.losses, b.net, b.ledger;
    }

    /** The end of the betting wait: an empty table goes back to the lobby
        and the round ends; otherwise the cards are dealt. */
    method CloseBetting() returns (dealt: bool)
      requires Valid()
      modifies this`phase, this`roundActive, this`dealer, this`dealerHidden, this`drawn, this`seated, this`balance,
               this`ledger, this`playerHands
      ensures Valid()
      ensures dealt <==> |old(seated)| > 0
      ensures !dealt ==> phase == Lobby && !roundActive && drawn == old(drawn) && dealer == old(dealer)
                         && dealerHidden == old(dealerHidden) && seated == old(seated) && balance == old(balance)
                         && ledger == old(ledger) && playerHands == old(playerHands)
      ensures dealt ==> phase == Playing && roundActive == old(roundActive)
                        && dealerHidden && dealer == [draw(old(drawn)), draw(old(drawn) + 1)]
                        && Stakes(seated, balance, ledger, playerHands, drawn)
                           == StakeAll(draw, pendingBet, Stakes(old(seated), old(balance), old(ledger), old(playerHands),
                                                                old(drawn) + 2), old(seated))
    {
      if |seated| == 0 {
        phase, roundActive := Lobby, false;
        return false;
      }
      Deal();
      return true;
    }

    /** The rest of playRound after the deal: the players' turns, the
        dealer's draw, the settlement, and the return to the lobby. `q` is
        the play state the turns leave and `s` the settlement, which starts
        from the balances, ledgers, wins and nets in `q`. */
    method PlayOut(arrivals: map<UserId, seq<Option<Action>>>) returns (ghost q: Play, ghost s: Settlement)
      requires Valid()
      modifies this`playerHands, this`balance, this`ledger, this`mailbox, this`drawn, this`wins, this`losses,
               this`roundNet, this`currentPlayer, this`currentHandIndex, this`dealerHidden, this`dealer,
               this`history, this`historyPage, this`phase, this`roundActive
      ensures Valid() && Paged() && |history| > 0 && historyPage == 0
      ensures !dealerHidden && HandValue(dealer) >= 17 && history[0].dealerTotal == HandValue(dealer)
      ensures history == NewestFirst(old(history), history[0], HistoryCap) && history[0].dealer == dealer
      ensures phase == Lobby && !roundActive && currentPlayer == None && currentHandIndex == 0
      ensures q == TurnsPlayed(draw, old(phase), old(roundActive), old(running), old(seated), old(PlayState()), arrivals)
      ensures playerHands == q.hands && mailbox == q.mailbox && DealerDrew(draw, old(dealer), q.drawn, dealer, drawn)
      ensures s == Settlement(seated, q.hands, HandValue(dealer), Books(q.balance, q.wins, old(losses), q.net, q.ledger, []),
                              Books(balance, wins, losses, roundNet, ledger, history[0].lines))
      ensures Settles(s)
    {
      PlayTurns(arrivals);
      q := PlayState();
      s := FinishRound();
    }

    /** The showdown, then the end of the round; `s` is the settlement. */
    method FinishRound() returns (ghost s: Settlement)
      requires Valid()
      modifies this`currentPlayer, this`currentHandIndex, this`dealerHidden, this`dealer, this`drawn, this`balance,
               this`wins, this`losses, this`roundNet, this`ledger, this`history, this`historyPage, this`phase,
               this`roundActive
      ensures Valid() && Paged() && |history| > 0 && historyPage == 0
      ensures !dealerHidden && HandValue(dealer) >= 17 && history[0].dealerTotal == HandValue(dealer)
      ensures history == NewestFirst(old(history), history[0], HistoryCap) && history[0].dealer == dealer
      ensures phase == Lobby && !roundActive && currentPlayer == None && currentHandIndex == 0
      ensures DealerDrew(draw, old(dealer), old(drawn), dealer, drawn)
      ensures s == Settlement(seated, playerHands, HandValue(dealer),
                              Books(old(balance), old(wins), old(losses), old(roundNet), old(ledger), []),
                              Books(balance, wins, losses, roundNet, ledger, history[0].lines))
      ensures Settles(s)
    {
      s := Showdown();
      EndRound();
    }

    /** The dealer's draw to 17, then the settlement against it; `s` is the
        settlement. */
    method Showdown() returns (ghost s: Settlement)
      requires Valid()
      modifies this`currentPlayer, this`currentHandIndex, this`dealerHidden, this`dealer, this`drawn, this`balance,
               this`wins, this`losses, this`roundNet, this`ledger, this`history, this`historyPage
      ensures Valid() && Paged() && |history| > 0 && historyPage == 0
      ensures !dealerHidden && HandValue(dealer) >= 17 && history[0].dealerTotal == HandValue(dealer)
      ensures history == NewestFirst(old(history), history[0], HistoryCap) && history[0].dealer == dealer
      ensures currentPlayer == None && currentHandIndex == 0
      ensures DealerDrew(draw, old(dealer), old(drawn), dealer, drawn)
      ensures s == Settlement(seated, playerHands, HandValue(dealer),
                              Books(old(balance), old(wins), old(losses), old(roundNet), old(ledger), []),
                              Books(balance, wins, losses, roundNet, ledger, history[0].lines))
      ensures Settles(s)
    {
      DealerPlay();
      SettleRound();
      s := Settlement(seated, playerHands, HandValue(dealer),
                      Books(old(balance), old(wins), old(losses), old(roundNet), old(ledger), []),
                      Books(balance, wins, losses, roundNet, ledger, history[0].lines));
    }

    /** The end of playRound, once the results are shown: no current
        player, the round over, back to the lobby. */
    method EndRound()
      modifies this`currentPlayer, this`currentHandIndex, this`roundActive, this`phase
      ensures phase == Lobby && !roundActive && currentPlayer == None && currentHandIndex == 0
    {
      currentPlayer, currentHandIndex, roundActive, phase := None, 0, false, Lobby;
    }

    /** The idle-close task: on an empty table the game stops and the round
        state is cleared; otherwise nothing happens. */
    method IdleClose()
      modifies this`running, this`roundActive, this`phase, this`currentPlayer, this`currentHandIndex,
               this`playerHands, this`dealer, this`dealerHidden
      ensures |seated| > 0 || waiting != {} ==>
                running == old(running) && roundActive == old(roundActive) && phase == old(phase)
                && currentPlayer == old(currentPlayer) && currentHandIndex == old(currentHandIndex)
                && playerHands == old(playerHands) && dealer == old(dealer) && dealerHidden == old(dealerHidden)
      ensures |seated| == 0 && waiting == {} ==>
                !running && !roundActive && phase == Lobby && currentPlayer == None && currentHandIndex == 0
                && playerHands == map[] && dealer == [] && dealerHidden
    {
      if |seated| > 0 || waiting != {} {
        return;
      }
      running, roundActive, phase := false, false, Lobby;
      currentPlayer, currentHandIndex := None, 0;
      playerHands, dealer, dealerHidden := map[], [], true;
    }

    /** The deal proper: every seated player stakes their bet or loses their
        seat, in seating order. */
    method StakeTable()
      requires Valid()
      modifies this`seated, this`balance, this`ledger, this`playerHands, this`drawn
      ensures Valid()
      ensures Stakes(seated, balance, ledger, playerHands, drawn)
              == StakeAll(draw, pendingBet, Stakes(old(seated), old(balance), old(ledger), old(playerHands), old(drawn)),
                          old(seated))
    {
      var st0 := Stakes(seated, balance, ledger, playerHands, drawn);
      var st := StakeSeats(draw, pendingBet, st0);
      seated, balance, ledger, playerHands, drawn := st.seated, st.balance, st.ledger, st.hands, st.drawn;
      DealKeeps(draw, pendingBet, st0, waiting, wins.Keys, losses.Keys, mailbox,
                Stakes(seated, balance, ledger, playerHands, drawn));
    }

    /** The deal of playRound: the table moves to playing, the dealer gets
        two cards, the first one hidden, then the seated players are staked
        in seating order as StakeAll describes; StakeAllSeats,
        StakeAllBalanceAt, StakeAllLedgerAt and StakeAllHandsAt state the
        outcome. */
    method Deal()
      requires Valid()
      modifies this`phase, this`dealer, this`dealerHidden, this`drawn, this`seated, this`balance, this`ledger,
               this`playerHands
      ensures Valid()
      ensures phase == Playing && dealerHidden && dealer == [draw(old(drawn)), draw(old(drawn) + 1)]
      ensures Stakes(seated, balance, ledger, playerHands, drawn)
              == StakeAll(draw, pendingBet, Stakes(old(seated), old(balance), old(ledger), old(playerHands), old(drawn) + 2),
                          old(seated))
    {
      phase, dealer, dealerHidden, drawn := Playing, [draw(drawn), draw(drawn + 1)], true, drawn + 2;
      StakeTable();
    }
  }
}
