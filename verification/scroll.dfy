/** The scroll-to-end debounce: the result list is scrolled again and again until
    the number of company links seen has stayed the same for three rounds in a row.
    The browser is replaced by the finite sequence of link counts it would report,
    one per round. */
module Scroll {

  /** Consecutive unchanged rounds after which the list counts as fully loaded. */
  const StableRounds: nat := 3

  datatype ScrollOutcome =
    | PanelMissing                           // the scroll panel never appeared
    | Settled(rounds: nat, finalCount: nat)  // the count stayed put for StableRounds rounds
    | Unsettled(rounds: nat)                 // the observations ran out first

  /** The count round `i` is compared against: the one before it, and 0 before the first. */
  function Previous(counts: seq<nat>, i: nat): nat
    requires i < |counts|
  {
    if i == 0 then 0 else counts[i - 1]
  }

  /** Round `i` saw the same count as the round before it (any other count, larger
      or smaller, is a change). */
  predicate Unchanged(counts: seq<nat>, i: nat)
    requires i < |counts|
  {
    counts[i] == Previous(counts, i)
  }

  /** How many of the first `n` rounds, counted back from the last, form an unbroken
      run of unchanged rounds. */
  function Streak(counts: seq<nat>, n: nat): nat
    requires n <= |counts|
  {
    if n == 0 then 0
    else if Unchanged(counts, n - 1) then Streak(counts, n - 1) + 1
    else 0
  }

  /** After `m` rounds the list counts as loaded: the last StableRounds rounds each
      saw the count of the round before. */
  ghost predicate SettledAt(counts: seq<nat>, m: nat)
  {
    && StableRounds <= m <= |counts|
    && forall j :: m - StableRounds <= j < m ==> Unchanged(counts, j)
  }

  /** A streak of at least `k` means exactly that the last `k` of the first `n`
      rounds were all unchanged. */
  lemma {:induction false} StreakMeansUnchanged(counts: seq<nat>, n: nat, k: nat)
    requires n <= |counts|
    ensures Streak(counts, n) >= k <==>
      k <= n && forall j :: n - k <= j < n ==> Unchanged(counts, j)
    decreases n
  {
    if n > 0 && k > 0 {
      StreakMeansUnchanged(counts, n - 1, k - 1);
    }
  }

  /** The scroll loop of `scroll_to_end`. `attempts` records the counter after each
      round. The loop stops at the first round that completes three unchanged rounds
      in a row; a change in either direction sets the counter back to 0. */
  method ScrollToEnd(panelFound: bool, counts: seq<nat>) returns (outcome: ScrollOutcome, attempts: seq<nat>)
    ensures !panelFound <==> outcome == PanelMissing
    ensures !panelFound ==> attempts == []
    ensures outcome.Settled? ==>
      && StableRounds <= outcome.rounds <= |counts|
      && SettledAt(counts, outcome.rounds)
      && (forall m :: 0 <= m < outcome.rounds ==> !SettledAt(counts, m))
      && outcome.finalCount == counts[outcome.rounds - 1]
    ensures outcome.Unsettled? ==>
      && outcome.rounds == |counts|
      && forall m :: 0 <= m <= |counts| ==> !SettledAt(counts, m)
    ensures !outcome.PanelMissing? ==>
      && |attempts| == outcome.rounds
      && forall j :: 0 <= j < |attempts| ==> attempts[j] == Streak(counts, j + 1)
  {
    if !panelFound {
      return PanelMissing, [];
    }
    var lastCount: nat := 0;
    var attempt: nat := 0;
    var i := 0;
    attempts := [];
    while attempt < StableRounds && i < |counts|
      invariant 0 <= i <= |counts|
      invariant attempt == Streak(counts, i)
      invariant lastCount == if i == 0 then 0 else counts[i - 1]
      invariant |attempts| == i
      invariant forall j :: 0 <= j < i ==> attempts[j] == Streak(counts, j + 1)
      invariant forall m :: 0 <= m < i ==> !SettledAt(counts, m)
      invariant SettledAt(counts, i) <==> attempt >= StableRounds
      decreases |counts| - i
    {
      var currentCount := counts[i];
      if currentCount == lastCount {
        attempt := attempt + 1;
      } else {
        attempt := 0;
      }
      lastCount := currentCount;
      attempts := attempts + [attempt];
      i := i + 1;
      StreakMeansUnchanged(counts, i, StableRounds);
    }
    if attempt >= StableRounds {
      outcome := Settled(i, lastCount);
    } else {
      outcome := Unsettled(i);
    }
  }

  /** A round whose count differs from the one before, by growing or shrinking,
      puts off settling: none of the next StableRounds - 1 rounds can end the loop,
      and the earliest possible stop is StableRounds rounds later. */
  lemma ChangePostponesSettling(counts: seq<nat>, i: nat)
    requires i < |counts| && !Unchanged(counts, i)
    ensures forall m :: i < m < i + 1 + StableRounds ==> !SettledAt(counts, m)
  {
  }

  /** One round without change, then growth, then a stable list: the loop does not
      stop after the first quiet round and settles after the sixth. */
  lemma NullCycleThenGrowth()
    ensures forall m :: 0 <= m < 6 ==> !SettledAt([5, 5, 8, 8, 8, 8], m)
    ensures SettledAt([5, 5, 8, 8, 8, 8], 6)
  {
    var counts: seq<nat> := [5, 5, 8, 8, 8, 8];
    assert !Unchanged(counts, 0) && !Unchanged(counts, 2);
  }
}
