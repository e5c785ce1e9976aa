/** The two bounded logs of the table, both kept newest first: a player's
    ledger (at most 100 entries) and the round history (at most 20 rounds),
    and the clamped page index over the history. */
module Bounded {

  const LedgerCap: nat := 100
  const HistoryCap: nat := 20

  function Min(a: int, b: int): int {
    if a <= b then a else b
  }

  /** The log after adding `e` in front and dropping the oldest entries
      beyond `cap`. */
  function NewestFirst<T>(log: seq<T>, e: T, cap: nat): (r: seq<T>)
    ensures |r| == Min(|log| + 1, cap)
    ensures cap > 0 ==> r[0] == e && r[1..] == log[..|r| - 1]
    ensures |log| < cap ==> r == [e] + log
  {
    ([e] + log)[..Min(|log| + 1, cap)]
  }

  /** The log after adding each of `es` in front in turn, oldest first. */
  function NewestFirstAll<T>(log: seq<T>, es: seq<T>, cap: nat): (r: seq<T>)
    ensures |r| == if |es| == 0 then |log| else Min(|log| + |es|, cap)
    decreases |es|
  {
    if |es| == 0 then log else NewestFirst(NewestFirstAll(log, es[..|es| - 1], cap), es[|es| - 1], cap)
  }

  /** Adding one more entry to those added before puts it in front. */
  lemma NewestFirstAllSnoc<T>(log: seq<T>, es: seq<T>, e: T, cap: nat)
    ensures NewestFirstAll(log, es + [e], cap) == NewestFirst(NewestFirstAll(log, es, cap), e, cap)
  {
    assert (es + [e])[..|es|] == es;
  }

  /** As many of the entries added as the cap allows come first, newest
      first. */
  lemma {:induction false} NewestFirstAllFront<T>(log: seq<T>, es: seq<T>, cap: nat)
    ensures forall j :: 0 <= j < |es| && j < cap ==> NewestFirstAll(log, es, cap)[j] == es[|es| - 1 - j]
    decreases |es|
  {
    if |es| > 0 {
      var n := |es| - 1;
      var prev := NewestFirstAll(log, es[..n], cap);
      var r := NewestFirst(prev, es[n], cap);
      NewestFirstAllFront(log, es[..n], cap);
      forall j | 1 <= j < |es| && j < cap ensures r[j] == es[|es| - 1 - j] {
        assert r[1..][j - 1] == prev[..|r| - 1][j - 1];
        assert prev[j - 1] == es[..n][n - 1 - (j - 1)];
      }
    }
  }

  /** addFirst followed by removeLast while the size exceeds the cap. */
  method PushFront<T>(log: seq<T>, e: T, cap: nat) returns (r: seq<T>)
    ensures r == NewestFirst(log, e, cap)
  {
    r := [e] + log;
    while |r| > cap
      invariant Min(|log| + 1, cap) <= |r| <= |log| + 1
      invariant r == ([e] + log)[..|r|]
    {
      r := r[..|r| - 1];
    }
  }

  /** historyPrev on a non-empty history: one page older, but not past the oldest. */
  function OlderPage(size: nat, page: int): (r: int)
    requires size > 0
    ensures 0 <= page < size ==> 0 <= r < size
    ensures r == page + 1 || r == size - 1
    ensures r <= size - 1 && r <= page + 1
  {
    Min(size - 1, page + 1)
  }

  /** historyNext: one page newer, but not before the newest. */
  function NewerPage(page: int): (r: int)
    ensures r >= 0
    ensures r == page - 1 || r == 0
    ensures r >= page - 1
    ensures page >= 0 ==> r <= page
  {
    if 0 >= page - 1 then 0 else page - 1
  }
}
