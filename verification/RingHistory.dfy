/** What a ring buffer still knows about everything that was ever pushed into it. */
module RingHistory {
  import opened Clock
  import opened Common
  import opened RingBuffers

  ghost predicate Chronological(es: seq<Entry>) {
    forall i, j :: 0 <= i < j < |es| ==> es[i].at <= es[j].at
  }

  ghost predicate NonNegative(es: seq<Entry>) {
    forall i :: 0 <= i < |es| ==> es[i].value >= 0.0
  }

  /** The part of the history that has been overwritten. */
  function Dropped(cap: nat, es: seq<Entry>): seq<Entry> {
    es[..|es| - |Last(cap, es)|]
  }

  /** Any number of pushes leaves exactly the last `cap` entries, oldest first. */
  lemma {:induction false} PushAllKeepsLast(b: Buffer, es: seq<Entry>)
    requires b.Ok()
    ensures PushAll(b, es).items == Last(b.cap, b.items + es)
  {
    if es == [] {
      assert b.items + es == b.items;
    } else {
      hide Last;
      var init, e := es[..|es| - 1], es[|es| - 1];
      PushAllKeepsLast(b, init);
      LastOfLast(b.cap, b.items + init, [e]);
      assert b.items + es == b.items + init + [e];
    }
  }

  /** Cutting down to `cap` before appending changes nothing. */
  lemma LastOfLast<T>(cap: nat, s: seq<T>, t: seq<T>)
    ensures Last(cap, Last(cap, s) + t) == Last(cap, s + t)
  {}

  /** A new buffer holds the last `cap` entries of its history; the rest is overwritten. */
  lemma HistorySplits(cap: nat, es: seq<Entry>)
    requires 0 < cap
    ensures PushAll(Empty(cap), es).items == Last(cap, es)
    ensures Dropped(cap, es) + Last(cap, es) == es
    ensures |Last(cap, es)| < cap ==> Dropped(cap, es) == []
  {
    hide *;
    SplitsAtLast(cap, es);
    PushAllKeepsLast(Empty(cap), es);
    assert [] + es == es;
  }

  lemma SplitsAtLast(cap: nat, es: seq<Entry>)
    ensures Dropped(cap, es) + Last(cap, es) == es
    ensures |Last(cap, es)| < cap ==> Dropped(cap, es) == []
    ensures Empty(cap).items == [] && Empty(cap).cap == cap && (0 < cap ==> Empty(cap).Ok())
  {}

  /** `Slice(n)` reads the newest `n` entries of the history, limited by the capacity. */
  lemma SliceOfHistory(cap: nat, es: seq<Entry>, n: nat)
    requires 0 < cap
    ensures PushAll(Empty(cap), es).Slice(n) == Values(Last(Min(n, cap), es))
  {
    hide Last, PushAll, Dropped;
    HistorySplits(cap, es);
    LastOfLonger(n, cap, es);
  }

  lemma LastOfLonger<T>(m: nat, n: nat, s: seq<T>)
    ensures Last(m, Last(n, s)) == Last(Min(m, n), s)
  {}

  lemma {:induction false} SumSplits(a: seq<Entry>, b: seq<Entry>, cutoff: Time)
    ensures SumAfter(a + b, cutoff) == SumAfter(a, cutoff) + SumAfter(b, cutoff)
    ensures CountAfter(a + b, cutoff) == CountAfter(a, cutoff) + CountAfter(b, cutoff)
  {
    if b == [] {
      assert a + b == a;
    } else {
      SumSplits(a, b[..|b| - 1], cutoff);
      assert (a + b)[..|a + b| - 1] == a + b[..|b| - 1];
    }
  }

  lemma {:induction false} SumIsNonNegative(es: seq<Entry>, cutoff: Time)
    requires NonNegative(es)
    ensures SumAfter(es, cutoff) >= 0.0
  {
    if es != [] {
      SumIsNonNegative(es[..|es| - 1], cutoff);
    }
  }

  /** With positive values a zero sum means an empty window. */
  lemma {:induction false} PositiveSum(es: seq<Entry>, cutoff: Time)
    requires forall i :: 0 <= i < |es| ==> es[i].value > 0.0
    ensures SumAfter(es, cutoff) >= 0.0
    ensures SumAfter(es, cutoff) == 0.0 <==> CountAfter(es, cutoff) == 0
  {
    if es != [] {
      PositiveSum(es[..|es| - 1], cutoff);
    }
  }

  lemma {:induction false} CountAllAfter(es: seq<Entry>, cutoff: Time)
    requires forall i :: 0 <= i < |es| ==> es[i].at > cutoff
    ensures CountAfter(es, cutoff) == |es|
  {
    if es != [] {
      CountAllAfter(es[..|es| - 1], cutoff);
    }
  }

  lemma {:induction false} CountNoneAfter(es: seq<Entry>, cutoff: Time)
    requires forall i :: 0 <= i < |es| ==> es[i].at <= cutoff
    ensures CountAfter(es, cutoff) == 0 && SumAfter(es, cutoff) == 0.0
  {
    if es != [] {
      CountNoneAfter(es[..|es| - 1], cutoff);
    }
  }

  /** In any order of timestamps, the buffer's sum misses exactly what was overwritten. */
  lemma SumSinceMissesDropped(cap: nat, es: seq<Entry>, now: Time, window: Duration)
    requires 0 < cap
    ensures PushAll(Empty(cap), es).SumSince(now, window) + SumAfter(Dropped(cap, es), now - window)
            == SumAfter(es, now - window)
  {
    hide *;
    HistorySplits(cap, es);
    SumSplits(Dropped(cap, es), Last(cap, es), now - window);
    WindowSum(cap, es, now, window);
  }

  lemma NonNegativeParts(a: seq<Entry>, b: seq<Entry>)
    requires NonNegative(a + b)
    ensures NonNegative(a) && NonNegative(b)
  {
    assert forall i :: 0 <= i < |a| ==> (a + b)[i] == a[i];
    assert forall i :: 0 <= i < |b| ==> (a + b)[|a| + i] == b[i];
  }

  /** With non-negative values the windowed sum never exceeds that of the full history. */
  lemma SumSinceNeverExceeds(cap: nat, es: seq<Entry>, now: Time, window: Duration)
    requires 0 < cap && NonNegative(es)
    ensures 0.0 <= PushAll(Empty(cap), es).SumSince(now, window) <= SumAfter(es, now - window)
  {
    var lost, kept, cutoff := Dropped(cap, es), Last(cap, es), now - window;
    hide *;
    HistorySplits(cap, es);
    NonNegativeParts(lost, kept);
    SumIsNonNegative(lost, cutoff);
    SumIsNonNegative(kept, cutoff);
    SumSplits(lost, kept, cutoff);
    WindowSum(cap, es, now, window);
  }

  /** The buffer sums what it holds. */
  lemma WindowSum(cap: nat, es: seq<Entry>, now: Time, window: Duration)
    requires 0 < cap
    ensures PushAll(Empty(cap), es).SumSince(now, window) == SumAfter(Last(cap, es), now - window)
  {
    hide Last, PushAll, Dropped, SumAfter;
    HistorySplits(cap, es);
  }

  /** With positive values it falls short exactly when an overwritten entry is still in the window. */
  lemma SumSinceExactIff(cap: nat, es: seq<Entry>, now: Time, window: Duration)
    requires 0 < cap
    requires forall i :: 0 <= i < |es| ==> es[i].value > 0.0
    ensures PushAll(Empty(cap), es).SumSince(now, window) == SumAfter(es, now - window)
            <==> CountAfter(Dropped(cap, es), now - window) == 0
  {
    SumSinceMissesDropped(cap, es, now, window);
    PositiveSum(Dropped(cap, es), now - window);
  }

  /** Timestamps in order and no more than `cap` entries in the window: the sum is the history's. */
  lemma SumSinceIsWholeHistory(cap: nat, es: seq<Entry>, now: Time, window: Duration)
    requires 0 < cap && Chronological(es)
    requires CountAfter(es, now - window) <= cap
    ensures PushAll(Empty(cap), es).SumSince(now, window) == SumAfter(es, now - window)
  {
    var cutoff := now - window;
    var lost, kept := Dropped(cap, es), Last(cap, es);
    hide *;
    HistorySplits(cap, es);
    SumSinceMissesDropped(cap, es, now, window);
    NothingLateIsLost(lost, kept, cutoff);
  }

  lemma NothingLateIsLost(lost: seq<Entry>, kept: seq<Entry>, cutoff: Time)
    requires Chronological(lost + kept)
    requires lost == [] || CountAfter(lost + kept, cutoff) <= |kept|
    ensures SumAfter(lost, cutoff) == 0.0
  {
    if i :| 0 <= i < |lost| && lost[i].at > cutoff {
      LateEntriesFill(lost, kept, i, cutoff);
      assert false;
    }
    CountNoneAfter(lost, cutoff);
  }

  /** In order, one late entry in `lost` makes every entry of `kept` late as well. */
  lemma LateEntriesFill(lost: seq<Entry>, kept: seq<Entry>, i: nat, cutoff: Time)
    requires Chronological(lost + kept)
    requires i < |lost| && lost[i].at > cutoff
    ensures CountAfter(lost + kept, cutoff) > |kept|
  {
    LateKept(lost, kept, i, cutoff);
    SumSplits(lost, kept, cutoff);
    CountAtLeastOne(lost, i, cutoff);
  }

  /** In order, a buffer's window holds the newest entries of the history's window, as many as fit. */
  lemma WindowCount(cap: nat, es: seq<Entry>, cutoff: Time)
    requires 0 < cap && Chronological(es)
    ensures CountAfter(Last(cap, es), cutoff) == Min(CountAfter(es, cutoff), cap)
  {
    hide CountAfter, Dropped, PushAll;
    var lost, kept := Dropped(cap, es), Last(cap, es);
    HistorySplits(cap, es);
    SumSplits(lost, kept, cutoff);
    if i :| 0 <= i < |lost| && lost[i].at > cutoff {
      LateEntriesFill(lost, kept, i, cutoff);
      LateKept(lost, kept, i, cutoff);
    } else {
      CountNoneAfter(lost, cutoff);
      CountAtMostAll(kept, cutoff);
    }
  }

  lemma LateKept(lost: seq<Entry>, kept: seq<Entry>, i: nat, cutoff: Time)
    requires Chronological(lost + kept)
    requires i < |lost| && lost[i].at > cutoff
    ensures CountAfter(kept, cutoff) == |kept|
  {
    forall k | 0 <= k < |kept|
      ensures kept[k].at > cutoff
    {
      assert (lost + kept)[i].at <= (lost + kept)[|lost| + k].at;
    }
    CountAllAfter(kept, cutoff);
  }

  lemma {:induction false} CountAtMostAll(es: seq<Entry>, cutoff: Time)
    ensures CountAfter(es, cutoff) <= |es|
  {
    if es != [] {
      CountAtMostAll(es[..|es| - 1], cutoff);
    }
  }

  lemma {:induction false} CountAtLeastOne(es: seq<Entry>, i: nat, cutoff: Time)
    requires i < |es| && es[i].at > cutoff
    ensures CountAfter(es, cutoff) >= 1
  {
    if i < |es| - 1 {
      CountAtLeastOne(es[..|es| - 1], i, cutoff);
    }
  }
}
