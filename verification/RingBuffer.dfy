/** internal/state/ringbuffer.go: a circular buffer and the window of recent entries it stands for. */
module RingBuffers {
  import opened Clock
  import opened Common

  datatype Entry = Entry(at: Time, value: real)

  // ---------------------------------------------------------------- abstract value

  /** The sum of the values stamped later than `cutoff`. */
  function SumAfter(es: seq<Entry>, cutoff: Time): real {
    if es == [] then 0.0
    else
      var last := es[|es| - 1];
      SumAfter(es[..|es| - 1], cutoff) + if last.at > cutoff then last.value else 0.0
  }

  /** How many entries are stamped later than `cutoff`. */
  function CountAfter(es: seq<Entry>, cutoff: Time): nat {
    if es == [] then 0
    else CountAfter(es[..|es| - 1], cutoff) + if es[|es| - 1].at > cutoff then 1 else 0
  }

  function Values(es: seq<Entry>): (vs: seq<real>)
    ensures |vs| == |es|
    ensures forall i :: 0 <= i < |es| ==> vs[i] == es[i].value
  {
    seq(|es|, i requires 0 <= i < |es| => es[i].value)
  }

  /** What a ring buffer holds, oldest entry first, and how much it can hold. */
  datatype Buffer = Buffer(cap: nat, items: seq<Entry>) {

    predicate Ok() {
      0 < cap && |items| <= cap
    }

    function Push(at: Time, value: real): (b: Buffer)
      ensures b.cap == cap && (Ok() ==> b.Ok())
    {
      Buffer(cap, Last(cap, items + [Entry(at, value)]))
    }

    function SumSince(now: Time, window: Duration): real {
      SumAfter(items, now - window)
    }

    function Slice(n: nat): seq<real> {
      Values(Last(n, items))
    }
  }

  function Empty(cap: nat): Buffer {
    Buffer(cap, [])
  }

  /** All of `es`, pushed one after the other. */
  function PushAll(b: Buffer, es: seq<Entry>): (r: Buffer)
    ensures r.cap == b.cap && (b.Ok() ==> r.Ok())
  {
    if es == [] then b
    else PushAll(b, es[..|es| - 1]).Push(es[|es| - 1].at, es[|es| - 1].value)
  }

  // ---------------------------------------------------------------- the circular array

  class RingBuffer {
    const entries: array<Entry>
    var head: nat   // next slot to write
    var count: nat  // valid entries

    ghost predicate Valid()
      reads this
    {
      0 < entries.Length && head < entries.Length && count <= entries.Length
    }

    /** The slot of the `i`-th oldest of the last `n` entries. */
    ghost function Slot(n: nat, i: nat): (k: nat)
      requires Valid() && i < n <= count
      reads this
      ensures k < entries.Length
    {
      var k := head - n + i;
      if k < 0 then k + entries.Length else k
    }

    ghost function Contents(): (b: Buffer)
      requires Valid()
      reads this, entries
      ensures b.Ok() && b.cap == entries.Length && |b.items| == count
    {
      Buffer(entries.Length,
             seq(count, i requires 0 <= i < count && Valid() reads this, entries => entries[Slot(count, i)]))
    }

    constructor (capacity: nat)
      requires 0 < capacity
      ensures Valid() && fresh(entries)
      ensures Contents() == Empty(capacity)
    {
      entries := new Entry[capacity](_ => Entry(ZERO_TIME, 0.0));
      head, count := 0, 0;
    }

    method Push(at: Time, value: real)
      requires Valid()
      modifies this, entries
      ensures Valid()
      ensures Contents() == old(Contents()).Push(at, value)
    {
      ghost var before := Contents().items;
      ghost var shift := if count < entries.Length then 0 else 1;
      WrapOnce(head + 1, entries.Length);
      entries[head] := Entry(at, value);
      head := (head + 1) % entries.Length;
      if count < entries.Length {
        count := count + 1;
      }
      ghost var after := Contents().items;
      forall i | 0 <= i < count - 1
        ensures after[i] == before[i + shift]
      {
        assert Slot(count, i) == old(Slot(count, i + shift));
      }
      assert after == before[shift..] + [Entry(at, value)];
      PushKeepsLast(before, after, entries.Length, Entry(at, value));
    }

    method SumSince(now: Time, window: Duration) returns (sum: real)
      requires Valid()
      ensures sum == Contents().SumSince(now, window)
    {
      var cutoff := now - window;
      var start: int := head - count;
      if start < 0 {
        start := start + entries.Length;
      }
      ghost var items := Contents().items;
      sum := 0.0;
      for i := 0 to count
        invariant sum == SumAfter(items[..i], cutoff)
      {
        WrapOnce(start + i, entries.Length);
        var e := entries[(start + i) % entries.Length];
        assert e == items[i];
        assert items[..i + 1][..i] == items[..i];
        if e.at > cutoff {
          sum := sum + e.value;
        }
      }
      assert items[..count] == items;
    }

    method Len() returns (n: nat)
      requires Valid()
      ensures n == |Contents().items|
    {
      n := count;
    }

    method Slice(n: nat) returns (out: seq<real>)
      requires Valid()
      ensures out == Contents().Slice(n)
    {
      var m := n;
      if m > count {
        m := count;
      }
      if m == 0 {
        return [];
      }
      var start: int := head - m;
      if start < 0 {
        start := start + entries.Length;
      }
      ghost var items := Contents().items;
      hide Last, Values;
      var buf := new real[m];
      for i := 0 to m
        invariant forall k :: 0 <= k < i ==> buf[k] == items[count - m + k].value
      {
        WrapOnce(start + i, entries.Length);
        buf[i] := entries[(start + i) % entries.Length].value;
        assert Slot(m, i) == Slot(count, count - m + i);
      }
      SliceIs(items, n, m, buf[..]);
      return buf[..];
    }
  }

  /** Pushing onto a window that holds at most `cap` entries. */
  lemma PushKeepsLast(before: seq<Entry>, after: seq<Entry>, cap: nat, e: Entry)
    requires |before| <= cap && 0 < cap
    requires after == before[if |before| < cap then 0 else 1..] + [e]
    ensures after == Last(cap, before + [e])
  {}

  lemma SliceIs(items: seq<Entry>, n: nat, m: nat, out: seq<real>)
    requires m == Min(n, |items|) == |out|
    requires forall k :: 0 <= k < m ==> out[k] == items[|items| - m + k].value
    ensures out == Values(Last(n, items))
  {}

  lemma WrapOnce(x: nat, n: nat)
    requires 0 < n && x < 2 * n
    ensures x % n == if x < n then x else x - n
  {
    if x >= n {
      assert x % n == (x - n) % n;
    }
  }
}
