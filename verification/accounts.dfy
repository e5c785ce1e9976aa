/** The per-user maps and the seating list of the table as values: Java's
    getOrDefault and merge on integer maps, List.remove on the seated list,
    and what the deal and the settlement do to them user by user. */
module Accounts {
  import opened Hands

  type UserId = string

  const StartBalance: int := 100
  const DefaultBet: int := 5

  /** getOrDefault. */
  function Get(m: map<UserId, int>, k: UserId, d: int): int {
    if k in m then m[k] else d
  }

  /** merge(k, x, Integer::sum): adds x to the entry, creating it as x when absent. */
  function Merge(m: map<UserId, int>, k: UserId, x: int): (r: map<UserId, int>)
    ensures r.Keys == m.Keys + {k}
    ensures r[k] == Get(m, k, 0) + x
    ensures forall j :: j in m && j != k ==> r[j] == m[j]
  {
    m[k := Get(m, k, 0) + x]
  }

  predicate NoDup(s: seq<UserId>) {
    forall i, j :: 0 <= i < j < |s| ==> s[i] != s[j]
  }

  /** List.remove(Object): drops the first occurrence, if any. */
  function RemoveFirst(s: seq<UserId>, x: UserId): (r: seq<UserId>)
    ensures x !in s ==> r == s
    ensures x in s ==> |r| == |s| - 1
    decreases |s|
  {
    if |s| == 0 then []
    else if s[0] == x then s[1..]
    else [s[0]] + RemoveFirst(s[1..], x)
  }

  /** Removal takes out no one but x and brings in no one. */
  lemma {:induction false} RemoveFirstIn(s: seq<UserId>, x: UserId, y: UserId)
    ensures y in RemoveFirst(s, x) ==> y in s
    ensures y in s && y != x ==> y in RemoveFirst(s, x)
    decreases |s|
  {
    if |s| > 0 {
      RemoveFirstIn(s[1..], x, y);
      assert s == [s[0]] + s[1..];
      assert y in s <==> y == s[0] || y in s[1..];
    }
  }

  /** Removing from a duplicate-free list removes the element entirely and
      keeps the list free of duplicates. */
  lemma {:induction false} RemoveFirstNoDup(s: seq<UserId>, x: UserId)
    requires NoDup(s)
    ensures NoDup(RemoveFirst(s, x)) && x !in RemoveFirst(s, x)
    decreases |s|
  {
    if |s| > 0 {
      assert NoDup(s[1..]);
      RemoveFirstNoDup(s[1..], x);
      assert s[0] !in s[1..] by {
        assert forall k :: 0 <= k < |s[1..]| ==> s[1..][k] != s[0];
      }
      if s[0] != x {
        var r := RemoveFirst(s[1..], x);
        RemoveFirstIn(s[1..], x, s[0]);
        assert RemoveFirst(s, x) == [s[0]] + r;
        assert s[0] !in r;
      }
    }
  }

  /** A duplicate-free list is its last element appended to a duplicate-free
      prefix that does not contain it. */
  lemma SplitLast(s: seq<UserId>)
    requires NoDup(s) && |s| > 0
    ensures var p, u := s[..|s| - 1], s[|s| - 1];
            s == p + [u] && NoDup(p) && u !in p
  {
    var p, u := s[..|s| - 1], s[|s| - 1];
    assert s == p + [u];
    forall k | 0 <= k < |p| ensures p[k] != u {
      assert p[k] == s[k];
    }
  }

  lemma {:induction false} RemoveFirstAppend(a: seq<UserId>, b: seq<UserId>, x: UserId)
    requires x !in a
    ensures RemoveFirst(a + b, x) == a + RemoveFirst(b, x)
    decreases |a|
  {
    if |a| > 0 {
      assert (a + b)[1..] == a[1..] + b;
      RemoveFirstAppend(a[1..], b, x);
    } else {
      assert a + b == b;
    }
  }

  /** The stake a seated player plays: the pending bet, 5 when none was placed. */
  function BetOf(pending: map<UserId, int>, u: UserId): int {
    Get(pending, u, DefaultBet)
  }

  /** Whether the balance (100 when unknown) covers that stake. */
  predicate Affords(balance: map<UserId, int>, pending: map<UserId, int>, u: UserId) {
    Get(balance, u, StartBalance) >= BetOf(pending, u)
  }

  /** The seated players who stay for the deal, in seating order. */
  function Affordable(users: seq<UserId>, balance: map<UserId, int>, pending: map<UserId, int>): (r: seq<UserId>)
    ensures |r| <= |users|
    decreases |users|
  {
    if |users| == 0 then []
    else
      var u := users[|users| - 1];
      var prefix := users[..|users| - 1];
      Affordable(prefix, balance, pending) + (if Affords(balance, pending, u) then [u] else [])
  }

  /** Exactly the seated players who can cover their stake stay. */
  lemma {:induction false} AffordableIn(users: seq<UserId>, balance: map<UserId, int>, pending: map<UserId, int>,
                                        v: UserId)
    ensures v in Affordable(users, balance, pending) <==> v in users && Affords(balance, pending, v)
    decreases |users|
  {
    if |users| > 0 {
      var prefix, u := users[..|users| - 1], users[|users| - 1];
      AffordableIn(prefix, balance, pending, v);
      assert users == prefix + [u];
      assert v in users <==> v in prefix || v == u;
    }
  }

  lemma AffordableAppend(p: seq<UserId>, balance: map<UserId, int>, pending: map<UserId, int>, u: UserId)
    ensures Affordable(p + [u], balance, pending)
            == Affordable(p, balance, pending) + if Affords(balance, pending, u) then [u] else []
  {
    assert (p + [u])[..|p|] == p;
  }

  /** Whether a user stays for the deal once one more player is considered:
      the new player stays when they can cover their stake, everyone else as
      before. */
  lemma AffordableLast(users: seq<UserId>, balance: map<UserId, int>, pending: map<UserId, int>, v: UserId)
    requires NoDup(users) && |users| > 0
    ensures var p, u := users[..|users| - 1], users[|users| - 1];
            v in Affordable(users, balance, pending)
            <==> if v == u then Affords(balance, pending, u) else v in Affordable(p, balance, pending)
  {
    SplitLast(users);
    AffordableIn(users[..|users| - 1], balance, pending, v);
  }

  lemma {:induction false} AffordableNoDup(users: seq<UserId>, balance: map<UserId, int>, pending: map<UserId, int>)
    requires NoDup(users)
    ensures NoDup(Affordable(users, balance, pending))
    decreases |users|
  {
    if |users| > 0 {
      var prefix, u := users[..|users| - 1], users[|users| - 1];
      SplitLast(users);
      AffordableNoDup(prefix, balance, pending);
      AffordableIn(prefix, balance, pending, u);
      var a := Affordable(prefix, balance, pending);
      if Affords(balance, pending, u) {
        forall i, j | 0 <= i < j < |a + [u]| ensures (a + [u])[i] != (a + [u])[j] {
          if j == |a| { assert (a + [u])[i] == a[i]; }
        }
      }
    }
  }

  /** The four per-player sums settleRound merges into its maps. */
  datatype Measure = Credits | Wins | Losses | Net

  function MeasureOf(k: Measure, hands: seq<Hand>, dealerTotal: int): int {
    match k
    case Credits => SumCredit(hands, dealerTotal)
    case Wins => WinCount(hands, dealerTotal)
    case Losses => LossCount(hands, dealerTotal)
    case Net => SumNet(hands, dealerTotal)
  }

  lemma MeasuresOf(hands: seq<Hand>, dealerTotal: int)
    ensures MeasureOf(Credits, hands, dealerTotal) == SumCredit(hands, dealerTotal)
    ensures MeasureOf(Wins, hands, dealerTotal) == WinCount(hands, dealerTotal)
    ensures MeasureOf(Losses, hands, dealerTotal) == LossCount(hands, dealerTotal)
    ensures MeasureOf(Net, hands, dealerTotal) == SumNet(hands, dealerTotal)
  {
  }

  /** Merges the measure of a user's hands into their entry when they hold
      at least one hand. */
  function AddMeasure(m: map<UserId, int>, u: UserId, hands: map<UserId, seq<Hand>>, k: Measure,
                      dealerTotal: int): map<UserId, int>
  {
    if u in hands && |hands[u]| > 0 then m[u := Get(m, u, 0) + MeasureOf(k, hands[u], dealerTotal)] else m
  }

  /** Adds the measure of each user's hands to their entry, user by user,
      for the users holding at least one hand, as settleRound's merges do. */
  function Accumulate(users: seq<UserId>, hands: map<UserId, seq<Hand>>, m: map<UserId, int>,
                      k: Measure, dealerTotal: int): map<UserId, int>
    decreases |users|
  {
    if |users| == 0 then m
    else AddMeasure(Accumulate(users[..|users| - 1], hands, m, k, dealerTotal), users[|users| - 1], hands, k, dealerTotal)
  }

  lemma AccumulateSnoc(users: seq<UserId>, n: nat, hands: map<UserId, seq<Hand>>, m: map<UserId, int>,
                       k: Measure, dealerTotal: int)
    requires n < |users|
    ensures Accumulate(users[..n + 1], hands, m, k, dealerTotal)
            == AddMeasure(Accumulate(users[..n], hands, m, k, dealerTotal), users[n], hands, k, dealerTotal)
  {
    assert users[..n + 1][..n] == users[..n];
  }

  predicate Plays(users: seq<UserId>, hands: map<UserId, seq<Hand>>, v: UserId) {
    v in users && v in hands && |hands[v]| > 0
  }

  /** Over a duplicate-free list each player's entry gains the measure of
      their own hands exactly once; the entries of everyone else stay as
      they were. */
  lemma {:induction false} AccumulateAt(users: seq<UserId>, hands: map<UserId, seq<Hand>>, m: map<UserId, int>,
                                        k: Measure, dealerTotal: int, v: UserId)
    requires NoDup(users)
    ensures v in Accumulate(users, hands, m, k, dealerTotal) <==> v in m || Plays(users, hands, v)
    ensures Get(Accumulate(users, hands, m, k, dealerTotal), v, 0)
            == Get(m, v, 0) + (if Plays(users, hands, v) then MeasureOf(k, hands[v], dealerTotal) else 0)
    decreases |users|
  {
    if |users| > 0 {
      var prefix := users[..|users| - 1];
      var u := users[|users| - 1];
      assert NoDup(prefix);
      AccumulateAt(prefix, hands, m, k, dealerTotal, v);
      assert v in users <==> v in prefix || v == u;
      if v == u {
        assert v !in prefix;
      }
    }
  }
}
