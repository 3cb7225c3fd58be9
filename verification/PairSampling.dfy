/** When the correlation detector takes a sample and what it records, read off the stream. */
module PairSampling {
  import opened Clock
  import opened Common
  import opened CorrelationBreakdown
  import opened Pearson
  import opened RingBuffers
  import opened RingHistory
  import opened Runs
  import opened Ticks

  // ---------------------------------------------------------------- one symbol in a stream

  predicate Occurs(sym: Str, ticks: seq<Tick>) {
    exists i :: 0 <= i < |ticks| && ticks[i].symbol == sym
  }

  /** The latest price of a symbol; 0 when it has not ticked. */
  function PriceOf(sym: Str, ticks: seq<Tick>): real {
    if ticks == [] then 0.0
    else
      var t := ticks[|ticks| - 1];
      if t.symbol == sym then t.price else PriceOf(sym, ticks[..|ticks| - 1])
  }

  ghost predicate PositivePrices(ticks: seq<Tick>) {
    forall i :: 0 <= i < |ticks| ==> ticks[i].price > 0.0
  }

  // ---------------------------------------------------------------- the snapshots of a stream

  /** With a snapshot after the first `c` ticks, at a time that is not the zero time, sampling has started. */
  predicate Started(ticks: seq<Tick>, c: nat)
    requires c <= |ticks|
  {
    0 < c && ticks[c - 1].timestamp != ZERO_TIME
  }

  /** Both symbols have a price. */
  predicate Known(p: Pair, ticks: seq<Tick>) {
    PriceOf(p.a, ticks) != 0.0 && PriceOf(p.b, ticks) != 0.0
  }

  /**
   * The last tick takes a snapshot: the first one once both symbols have a price, a later one once both have
   * also ticked since the previous one, which lies a sampling interval back.
   */
  predicate Snaps(cfg: Config, p: Pair, ticks: seq<Tick>, c: nat)
    requires c < |ticks|
  {
    var t := ticks[|ticks| - 1];
    && (t.symbol == p.a || t.symbol == p.b) && Known(p, ticks)
    && (Started(ticks, c) ==>
          && Occurs(p.a, ticks[c..]) && Occurs(p.b, ticks[c..])
          && Sub(t.timestamp, ticks[c - 1].timestamp) >= cfg.sampleInterval)
  }

  /** How many ticks there are up to and including the last snapshot. */
  function Cut(cfg: Config, p: Pair, ticks: seq<Tick>): (c: nat)
    ensures c <= |ticks|
  {
    if ticks == [] then 0
    else
      var c := Cut(cfg, p, ticks[..|ticks| - 1]);
      if Snaps(cfg, p, ticks, c) then |ticks| else c
  }

  /** The last tick of `ticks + [t]` takes a later snapshot, not a first one. */
  predicate Completes(cfg: Config, p: Pair, ticks: seq<Tick>, t: Tick) {
    var c := Cut(cfg, p, ticks);
    Started(ticks, c) && Snaps(cfg, p, ticks + [t], c)
  }

  /** And the prices at the one before have logarithms: a sample is recorded. */
  predicate Samples(cfg: Config, p: Pair, ticks: seq<Tick>, t: Tick) {
    Completes(cfg, p, ticks, t) && Valued(p, ticks[..Cut(cfg, p, ticks)])
  }

  predicate Valued(p: Pair, ticks: seq<Tick>) {
    PriceOf(p.a, ticks) > 0.0 && PriceOf(p.b, ticks) > 0.0
  }

  /** The log-return of one symbol from the last snapshot in `ticks` to `t`. */
  function ReturnOn(cfg: Config, math: Math, p: Pair, sym: Str, ticks: seq<Tick>, t: Tick): real {
    var from := PriceOf(sym, ticks[..Cut(cfg, p, ticks)]);
    if from == 0.0 then 0.0 else math.log(PriceOf(sym, ticks + [t]) / from)
  }

  /** All log-returns of one symbol, from snapshot to snapshot. */
  function ReturnsOf(cfg: Config, math: Math, p: Pair, sym: Str, ticks: seq<Tick>): seq<Entry> {
    if ticks == [] then []
    else
      var before, t := ticks[..|ticks| - 1], ticks[|ticks| - 1];
      ReturnsOf(cfg, math, p, sym, before)
      + if Samples(cfg, p, before, t) then [Entry(t.timestamp, ReturnOn(cfg, math, p, sym, before, t))] else []
  }

  /** When the first snapshot of the current history was taken. */
  function StartOf(cfg: Config, p: Pair, ticks: seq<Tick>): Time {
    if ticks == [] then ZERO_TIME
    else
      var before := ticks[..|ticks| - 1];
      var c := Cut(cfg, p, before);
      if !Started(before, c) && Snaps(cfg, p, ticks, c) then ticks[|ticks| - 1].timestamp
      else StartOf(cfg, p, before)
  }

  // ---------------------------------------------------------------- one more tick

  lemma CutExtends(cfg: Config, p: Pair, ticks: seq<Tick>, t: Tick)
    ensures var c := Cut(cfg, p, ticks);
            Cut(cfg, p, ticks + [t]) == if Snaps(cfg, p, ticks + [t], c) then |ticks| + 1 else c
  {
    assert (ticks + [t])[..|ticks|] == ticks;
    hide Snaps;
  }

  lemma ReturnsExtend(cfg: Config, math: Math, p: Pair, sym: Str, ticks: seq<Tick>, t: Tick)
    ensures ReturnsOf(cfg, math, p, sym, ticks + [t])
            == ReturnsOf(cfg, math, p, sym, ticks)
               + if Samples(cfg, p, ticks, t) then [Entry(t.timestamp, ReturnOn(cfg, math, p, sym, ticks, t))] else []
  {
    assert (ticks + [t])[..|ticks|] == ticks;
    hide Samples, ReturnOn;
  }

  lemma StartExtends(cfg: Config, p: Pair, ticks: seq<Tick>, t: Tick)
    ensures var c := Cut(cfg, p, ticks);
            StartOf(cfg, p, ticks + [t])
            == if !Started(ticks, c) && Snaps(cfg, p, ticks + [t], c) then t.timestamp else StartOf(cfg, p, ticks)
  {
    assert (ticks + [t])[..|ticks|] == ticks;
    hide Snaps, Started;
  }

  lemma PriceExtends(sym: Str, ticks: seq<Tick>, t: Tick)
    ensures PriceOf(sym, ticks + [t]) == if t.symbol == sym then t.price else PriceOf(sym, ticks)
  {
    assert (ticks + [t])[..|ticks|] == ticks;
  }

  lemma OccursExtends(sym: Str, ticks: seq<Tick>, t: Tick, c: nat)
    requires c <= |ticks|
    ensures (ticks + [t])[c..] == ticks[c..] + [t]
    ensures Occurs(sym, (ticks + [t])[c..]) <==> Occurs(sym, ticks[c..]) || t.symbol == sym
  {
    var older, all := ticks[c..], (ticks + [t])[c..];
    assert all == older + [t];
    if i :| 0 <= i < |older| && older[i].symbol == sym {
      assert all[i] == older[i];
    }
    if t.symbol == sym {
      assert all[|older|] == t;
    }
    if i :| 0 <= i < |all| && all[i].symbol == sym {
      assert i < |older| ==> older[i] == all[i];
    }
  }

  // ---------------------------------------------------------------- the state behind a run

  /** The state that a stream leaves, apart from the time of the last alert. */
  function Expected(cfg: Config, math: Math, p: Pair, ticks: seq<Tick>, lastAlert: Time): PairState {
    var c := Cut(cfg, p, ticks);
    PairState(Buffer(CAPACITY, Last(CAPACITY, ReturnsOf(cfg, math, p, p.a, ticks))),
              Buffer(CAPACITY, Last(CAPACITY, ReturnsOf(cfg, math, p, p.b, ticks))),
              Quotes(PriceOf(p.a, ticks[..c]), PriceOf(p.b, ticks[..c])),
              if c == 0 then ZERO_TIME else ticks[c - 1].timestamp,
              Quotes(PriceOf(p.a, ticks), PriceOf(p.b, ticks)),
              Occurs(p.a, ticks[c..]), Occurs(p.b, ticks[c..]),
              StartOf(cfg, p, ticks), lastAlert)
  }

  lemma QuoteIs(cfg: Config, math: Math, p: Pair, ticks: seq<Tick>, t: Tick, lastAlert: Time)
    requires p.a != p.b
    ensures var s, all, c := Expected(cfg, math, p, ticks, lastAlert), ticks + [t], Cut(cfg, p, ticks);
            Quote(p, s, t)
            == s.(latest := Quotes(PriceOf(p.a, all), PriceOf(p.b, all)),
                  updatedA := Occurs(p.a, all[c..]), updatedB := Occurs(p.b, all[c..]))
  {
    var c := Cut(cfg, p, ticks);
    PriceExtends(p.a, ticks, t);
    PriceExtends(p.b, ticks, t);
    OccursExtends(p.a, ticks, t, c);
    OccursExtends(p.b, ticks, t, c);
    hide Cut, ReturnsOf, PriceOf, Occurs, StartOf, Last;
  }

  /** Without a snapshot only the quote changes. */
  lemma NoSnapshot(cfg: Config, math: Math, p: Pair, ticks: seq<Tick>, t: Tick, lastAlert: Time)
    requires p.a != p.b && !Snaps(cfg, p, ticks + [t], Cut(cfg, p, ticks))
    ensures Expected(cfg, math, p, ticks + [t], lastAlert) == Quote(p, Expected(cfg, math, p, ticks, lastAlert), t)
  {
    var all, c := ticks + [t], Cut(cfg, p, ticks);
    QuoteIs(cfg, math, p, ticks, t, lastAlert);
    CutExtends(cfg, p, ticks, t);
    ReturnsExtend(cfg, math, p, p.a, ticks, t);
    ReturnsExtend(cfg, math, p, p.b, ticks, t);
    StartExtends(cfg, p, ticks, t);
    assert all[..c] == ticks[..c] && (c > 0 ==> all[c - 1] == ticks[c - 1]);
    var none: seq<Entry> := [];
    assert forall es: seq<Entry> :: es + none == es;
    hide Cut, Snaps, ReturnsOf, ReturnOn, PriceOf, Occurs, StartOf, Last, Quote;
  }

  /** A first snapshot starts a history. */
  lemma FirstSnapshot(cfg: Config, math: Math, p: Pair, ticks: seq<Tick>, t: Tick, lastAlert: Time)
    requires p.a != p.b && Snaps(cfg, p, ticks + [t], Cut(cfg, p, ticks)) && !Started(ticks, Cut(cfg, p, ticks))
    ensures var q := Quote(p, Expected(cfg, math, p, ticks, lastAlert), t);
            Expected(cfg, math, p, ticks + [t], lastAlert) == Snap(q.(firstSeen := t.timestamp), t.timestamp)
  {
    var all := ticks + [t];
    QuoteIs(cfg, math, p, ticks, t, lastAlert);
    CutExtends(cfg, p, ticks, t);
    ReturnsExtend(cfg, math, p, p.a, ticks, t);
    ReturnsExtend(cfg, math, p, p.b, ticks, t);
    StartExtends(cfg, p, ticks, t);
    NothingSince(p, all);
    var none: seq<Entry> := [];
    assert forall es: seq<Entry> :: es + none == es;
    hide Cut, Snaps, Started, ReturnsOf, ReturnOn, PriceOf, Occurs, StartOf, Last, Quote;
  }

  lemma NothingSince(p: Pair, ticks: seq<Tick>)
    ensures !Occurs(p.a, ticks[|ticks|..]) && !Occurs(p.b, ticks[|ticks|..]) && ticks[..|ticks|] == ticks
  {}

  /** A later snapshot records the two returns, if it can. */
  lemma LaterSnapshot(cfg: Config, math: Math, p: Pair, ticks: seq<Tick>, t: Tick, lastAlert: Time)
    requires p.a != p.b && Completes(cfg, p, ticks, t)
    ensures var q := Quote(p, Expected(cfg, math, p, ticks, lastAlert), t);
            Expected(cfg, math, p, ticks + [t], lastAlert) == Sample(math, q, t.timestamp)
  {
    var all, c := ticks + [t], Cut(cfg, p, ticks);
    QuoteIs(cfg, math, p, ticks, t, lastAlert);
    CutExtends(cfg, p, ticks, t);
    ReturnsExtend(cfg, math, p, p.a, ticks, t);
    ReturnsExtend(cfg, math, p, p.b, ticks, t);
    StartExtends(cfg, p, ticks, t);
    NothingSince(p, all);
    var none: seq<Entry> := [];
    assert forall es: seq<Entry> :: es + none == es;
    hide Cut, Snaps, ReturnsOf, PriceOf, Occurs, StartOf, Last, Quote;
    PushIsLast(ReturnsOf(cfg, math, p, p.a, ticks), Entry(t.timestamp, ReturnOn(cfg, math, p, p.a, ticks, t)));
    PushIsLast(ReturnsOf(cfg, math, p, p.b, ticks), Entry(t.timestamp, ReturnOn(cfg, math, p, p.b, ticks, t)));
  }

  lemma PushIsLast(es: seq<Entry>, e: Entry)
    ensures Buffer(CAPACITY, Last(CAPACITY, es)).Push(e.at, e.value) == Buffer(CAPACITY, Last(CAPACITY, es + [e]))
  {
    LastOfLast(CAPACITY, es, [e]);
    hide Last;
  }

  /** One tick: the expected state, and the verdict on it if a sample was completed. */
  lemma StepIs(cfg: Config, math: Math, p: Pair, ticks: seq<Tick>, t: Tick, lastAlert: Time)
    requires math.Exact() && p.a != p.b
    ensures var s := Expected(cfg, math, p, ticks + [t], lastAlert);
            OnTick(cfg, math, p, Expected(cfg, math, p, ticks, lastAlert), t)
            == if Completes(cfg, p, ticks, t) then Judge(cfg, math, p, s, t.timestamp) else (s, [])
  {
    var s, all, c := Expected(cfg, math, p, ticks, lastAlert), ticks + [t], Cut(cfg, p, ticks);
    SnapsIff(cfg, math, p, ticks, t, lastAlert);
    assert t.symbol != p.a && t.symbol != p.b
           ==> Quote(p, Expected(cfg, math, p, ticks, lastAlert), t) == Expected(cfg, math, p, ticks, lastAlert);
    hide Judge, Sample, Snap, Quote, Expected, SampleDue, Math.Exact, Snaps, Cut, PriceOf, Occurs;
    if !Snaps(cfg, p, all, c) {
      NoSnapshot(cfg, math, p, ticks, t, lastAlert);
    } else if Started(ticks, c) {
      LaterSnapshot(cfg, math, p, ticks, t, lastAlert);
    } else {
      FirstSnapshot(cfg, math, p, ticks, t, lastAlert);
    }
  }

  /** The detector's own tests amount to `Snaps`. */
  lemma SnapsIff(cfg: Config, math: Math, p: Pair, ticks: seq<Tick>, t: Tick, lastAlert: Time)
    requires p.a != p.b
    ensures var c := Cut(cfg, p, ticks);
            var q := Quote(p, Expected(cfg, math, p, ticks, lastAlert), t);
            && (q.snapshotAt == ZERO_TIME <==> !Started(ticks, c))
            && (Snaps(cfg, p, ticks + [t], c)
                <==> && (t.symbol == p.a || t.symbol == p.b) && q.latest.a != 0.0 && q.latest.b != 0.0
                     && (q.snapshotAt == ZERO_TIME || SampleDue(cfg, q, t.timestamp)))
  {
    var all, c := ticks + [t], Cut(cfg, p, ticks);
    var q := Quote(p, Expected(cfg, math, p, ticks, lastAlert), t);
    QuoteIs(cfg, math, p, ticks, t, lastAlert);
    assert q.snapshotAt == if c == 0 then ZERO_TIME else ticks[c - 1].timestamp;
    OldStamp(ticks, t, c);
    hide Quote, Expected, ReturnsOf, Cut, PriceOf, Occurs, StartOf, Last;
  }

  lemma OldStamp(ticks: seq<Tick>, t: Tick, c: nat)
    requires c <= |ticks|
    ensures c > 0 ==> (ticks + [t])[c - 1] == ticks[c - 1]
    ensures (ticks + [t])[|ticks|] == t
  {}

  /** The state after any stream. */
  lemma {:induction false} RunIs(cfg: Config, math: Math, p: Pair, ticks: seq<Tick>)
    requires math.Exact() && p.a != p.b
    ensures var (s, alerts) := Run(Stepper(cfg, math, p), INITIAL, ticks);
            s == Expected(cfg, math, p, ticks, LastTime(alerts))
  {
    if ticks == [] {
      NothingExpected(cfg, math, p);
    } else {
      var before, t := ticks[..|ticks| - 1], ticks[|ticks| - 1];
      assert ticks == before + [t];
      var (s, alerts) := Run(Stepper(cfg, math, p), INITIAL, before);
      RunIs(cfg, math, p, before);
      StepIs(cfg, math, p, before, t, LastTime(alerts));
      RunExtends(Stepper(cfg, math, p), INITIAL, before, t);
      hide Run, Expected, OnTick, Judge, Completes, Math.Exact;
      var verdict := OnTick(cfg, math, p, s, t);
      JudgeMarks(cfg, math, p, Expected(cfg, math, p, ticks, LastTime(alerts)), t.timestamp);
      ExpectedAt(cfg, math, p, ticks, LastTime(alerts), t.timestamp);
      assert verdict.1 == [] ==> alerts + verdict.1 == alerts;
    }
  }

  lemma NothingExpected(cfg: Config, math: Math, p: Pair)
    ensures Expected(cfg, math, p, [], ZERO_TIME) == INITIAL
  {
    assert Last(CAPACITY, ReturnsOf(cfg, math, p, p.a, [])) == [] == Last(CAPACITY, ReturnsOf(cfg, math, p, p.b, []));
  }

  lemma ExpectedAt(cfg: Config, math: Math, p: Pair, ticks: seq<Tick>, lastAlert: Time, now: Time)
    ensures Expected(cfg, math, p, ticks, lastAlert).(lastAlert := now) == Expected(cfg, math, p, ticks, now)
    ensures Expected(cfg, math, p, ticks, lastAlert).lastAlert == lastAlert
  {
    hide Cut, ReturnsOf, PriceOf, Occurs, StartOf, Last;
  }

  lemma JudgeMarks(cfg: Config, math: Math, p: Pair, s: PairState, now: Time)
    requires math.Exact()
    ensures var (s', alerts) := Judge(cfg, math, p, s, now);
            if alerts == [] then s' == s else s' == s.(lastAlert := now) && LastTime(alerts) == now && |alerts| == 1
  {
    hide WarmedUp, IsBreakdown, Math.Exact, RecentCorrelation, Baseline;
  }

  // ---------------------------------------------------------------- what is sampled

  /** Both symbols have ticked after the first `c` ticks of `ticks + [t]`, with `t` a sampling interval later. */
  ghost predicate BothSince(cfg: Config, p: Pair, ticks: seq<Tick>, t: Tick, c: nat)
    requires 0 < c <= |ticks|
  {
    var since := ticks[c..] + [t];
    && (t.symbol == p.a || t.symbol == p.b) && Occurs(p.a, since) && Occurs(p.b, since)
    && Sub(t.timestamp, ticks[c - 1].timestamp) >= cfg.sampleInterval
  }

  lemma CompletesIff(cfg: Config, p: Pair, ticks: seq<Tick>, t: Tick)
    ensures var c := Cut(cfg, p, ticks);
            Completes(cfg, p, ticks, t)
            <==> Started(ticks, c) && BothSince(cfg, p, ticks, t, c) && Known(p, ticks + [t])
  {
    var all, c := ticks + [t], Cut(cfg, p, ticks);
    assert all[c..] == ticks[c..] + [t] && (c > 0 ==> all[c - 1] == ticks[c - 1]);
    hide Cut, Occurs, Known;
  }

  /** The samples of a run, and its last snapshot. */
  lemma FieldsAre(cfg: Config, math: Math, p: Pair, ticks: seq<Tick>)
    requires math.Exact() && p.a != p.b
    ensures var s, c := Run(Stepper(cfg, math, p), INITIAL, ticks).0, Cut(cfg, p, ticks);
            && s.returnsA == Buffer(20_000, Last(20_000, ReturnsOf(cfg, math, p, p.a, ticks)))
            && s.returnsB == Buffer(20_000, Last(20_000, ReturnsOf(cfg, math, p, p.b, ticks)))
            && s.snapshotAt == (if c == 0 then ZERO_TIME else ticks[c - 1].timestamp)
            && s.firstSeen == StartOf(cfg, p, ticks)
  {
    RunIs(cfg, math, p, ticks);
    hide Run, Cut, ReturnsOf, PriceOf, Occurs, StartOf, Last, Math.Exact;
  }

  lemma OneMoreReturn(cfg: Config, math: Math, p: Pair, sym: Str, ticks: seq<Tick>, t: Tick)
    ensures Last(20_000, ReturnsOf(cfg, math, p, sym, ticks + [t]))
            == if Samples(cfg, p, ticks, t)
               then Last(20_000, Last(20_000, ReturnsOf(cfg, math, p, sym, ticks))
                                 + [Entry(t.timestamp, ReturnOn(cfg, math, p, sym, ticks, t))])
               else Last(20_000, ReturnsOf(cfg, math, p, sym, ticks))
  {
    var es := ReturnsOf(cfg, math, p, sym, ticks);
    ReturnsExtend(cfg, math, p, sym, ticks, t);
    hide ReturnsOf, Samples, ReturnOn, Last;
    LastOfLast(20_000, es, [Entry(t.timestamp, ReturnOn(cfg, math, p, sym, ticks, t))]);
    assert es + [] == es;
  }

  /** The logarithm of the latest price of a symbol over its price after `c` ticks, as recorded with `t`. */
  function Move(math: Math, sym: Str, ticks: seq<Tick>, t: Tick, c: nat): Entry
    requires c <= |ticks| && PriceOf(sym, ticks[..c]) > 0.0
  {
    Entry(t.timestamp, math.log(PriceOf(sym, ticks + [t]) / PriceOf(sym, ticks[..c])))
  }

  /**
   * On any stream: a tick takes a later snapshot exactly when both symbols have a price and have ticked since
   * the last one, that tick included, and the interval has passed. It then records the logarithms of the
   * latest prices over those at the last snapshot, if these were positive.
   */
  lemma SampledExactly(cfg: Config, math: Math, p: Pair, ticks: seq<Tick>, t: Tick)
    requires math.Exact() && p.a != p.b
    ensures var s, s' := Run(Stepper(cfg, math, p), INITIAL, ticks).0,
                         Run(Stepper(cfg, math, p), INITIAL, ticks + [t]).0;
            var c := Cut(cfg, p, ticks);
            && s.snapshotAt == (if c == 0 then ZERO_TIME else ticks[c - 1].timestamp)
            && if s.snapshotAt != ZERO_TIME && BothSince(cfg, p, ticks, t, c) && Known(p, ticks + [t])
                  && Valued(p, ticks[..c])
               then
                 && s'.returnsA.items == Last(20_000, s.returnsA.items + [Move(math, p.a, ticks, t, c)])
                 && s'.returnsB.items == Last(20_000, s.returnsB.items + [Move(math, p.b, ticks, t, c)])
               else s'.returnsA == s.returnsA && s'.returnsB == s.returnsB
  {
    var c := Cut(cfg, p, ticks);
    SamplesIff(cfg, p, ticks, t);
    assert SnapshotTime(cfg, p, ticks) == if c == 0 then ZERO_TIME else ticks[c - 1].timestamp;
    hide *;
    TimesAre(cfg, math, p, ticks);
    if Valued(p, ticks[..c]) {
      MovesAre(cfg, math, p, ticks, t);
    }
    StepSamples(cfg, math, p, ticks, t);
  }

  lemma SamplesIff(cfg: Config, p: Pair, ticks: seq<Tick>, t: Tick)
    ensures var c := Cut(cfg, p, ticks);
            && (SnapshotTime(cfg, p, ticks) != ZERO_TIME ==> c > 0)
            && (Samples(cfg, p, ticks, t)
                <==> && SnapshotTime(cfg, p, ticks) != ZERO_TIME && BothSince(cfg, p, ticks, t, c)
                     && Known(p, ticks + [t]) && Valued(p, ticks[..c]))
  {
    CompletesIff(cfg, p, ticks, t);
    hide Cut, BothSince, Known, Valued, Completes;
  }

  lemma MovesAre(cfg: Config, math: Math, p: Pair, ticks: seq<Tick>, t: Tick)
    requires Valued(p, ticks[..Cut(cfg, p, ticks)])
    ensures var c := Cut(cfg, p, ticks);
            && Move(math, p.a, ticks, t, c) == Entry(t.timestamp, ReturnOn(cfg, math, p, p.a, ticks, t))
            && Move(math, p.b, ticks, t, c) == Entry(t.timestamp, ReturnOn(cfg, math, p, p.b, ticks, t))
  {
    hide Cut, PriceOf;
  }

  lemma StepSamples(cfg: Config, math: Math, p: Pair, ticks: seq<Tick>, t: Tick)
    requires math.Exact() && p.a != p.b
    ensures var s, s' := Run(Stepper(cfg, math, p), INITIAL, ticks).0,
                         Run(Stepper(cfg, math, p), INITIAL, ticks + [t]).0;
            if Samples(cfg, p, ticks, t) then
              && s'.returnsA.items
                 == Last(20_000, s.returnsA.items + [Entry(t.timestamp, ReturnOn(cfg, math, p, p.a, ticks, t))])
              && s'.returnsB.items
                 == Last(20_000, s.returnsB.items + [Entry(t.timestamp, ReturnOn(cfg, math, p, p.b, ticks, t))])
            else s'.returnsA == s.returnsA && s'.returnsB == s.returnsB
  {
    hide Run, Cut, ReturnsOf, PriceOf, StartOf, Last, Math.Exact, Samples, ReturnOn;
    FieldsAre(cfg, math, p, ticks);
    FieldsAre(cfg, math, p, ticks + [t]);
    OneMoreReturn(cfg, math, p, p.a, ticks, t);
    OneMoreReturn(cfg, math, p, p.b, ticks, t);
  }

  /**
   * With positive prices: a tick records a sample exactly when both symbols have ticked since the last
   * snapshot, that tick included, and the interval has passed.
   */
  lemma SampledIff(cfg: Config, math: Math, p: Pair, ticks: seq<Tick>, t: Tick)
    requires math.Exact() && p.a != p.b && PositivePrices(ticks + [t])
    ensures var s, s' := Run(Stepper(cfg, math, p), INITIAL, ticks).0,
                         Run(Stepper(cfg, math, p), INITIAL, ticks + [t]).0;
            var c := Cut(cfg, p, ticks);
            && s.snapshotAt == (if c == 0 then ZERO_TIME else ticks[c - 1].timestamp)
            && if s.snapshotAt != ZERO_TIME && BothSince(cfg, p, ticks, t, c) then
                 && Valued(p, ticks[..c])
                 && s'.returnsA.items == Last(20_000, s.returnsA.items + [Move(math, p.a, ticks, t, c)])
                 && s'.returnsB.items == Last(20_000, s.returnsB.items + [Move(math, p.b, ticks, t, c)])
               else s'.returnsA == s.returnsA && s'.returnsB == s.returnsB
  {
    SampledExactly(cfg, math, p, ticks, t);
    ValuedAtCut(cfg, p, ticks, t);
    hide Run, Cut, PriceOf, Occurs, Last, PositivePrices, Math.Exact, BothSince, Valued, Move, Known;
  }

  /** A symbol with positive prices has one exactly when it has ticked. */
  lemma {:induction false} PriceIff(sym: Str, ticks: seq<Tick>)
    requires PositivePrices(ticks)
    ensures PriceOf(sym, ticks) >= 0.0 && (PriceOf(sym, ticks) > 0.0 <==> Occurs(sym, ticks))
  {
    if ticks != [] {
      var before, t := ticks[..|ticks| - 1], ticks[|ticks| - 1];
      assert ticks == before + [t] && ticks[0..] == ticks && before[0..] == before;
      PriceIff(sym, before);
      OccursExtends(sym, before, t, 0);
      hide Occurs;
    }
  }

  /** With positive prices both symbols have one exactly when both have ticked. */
  lemma KnownIff(p: Pair, ticks: seq<Tick>)
    requires PositivePrices(ticks)
    ensures Known(p, ticks) <==> Occurs(p.a, ticks) && Occurs(p.b, ticks)
    ensures Known(p, ticks) <==> Valued(p, ticks)
  {
    PriceIff(p.a, ticks);
    PriceIff(p.b, ticks);
    hide PriceOf, Occurs;
  }

  /** At a snapshot both prices were known. */
  lemma {:induction false} KnownAtCut(cfg: Config, p: Pair, ticks: seq<Tick>)
    ensures var c := Cut(cfg, p, ticks); c > 0 ==> Known(p, ticks[..c])
  {
    if ticks != [] {
      var before, t := ticks[..|ticks| - 1], ticks[|ticks| - 1];
      assert ticks == before + [t];
      KnownAtCut(cfg, p, before);
      CutExtends(cfg, p, before, t);
      var c := Cut(cfg, p, before);
      assert ticks[..|ticks|] == ticks && before[..c] == ticks[..c];
      hide Cut, Known, Occurs;
    }
  }

  lemma ValuedAtCut(cfg: Config, p: Pair, ticks: seq<Tick>, t: Tick)
    requires PositivePrices(ticks + [t])
    ensures var c := Cut(cfg, p, ticks);
            && (c > 0 ==> Valued(p, ticks[..c]))
            && (c > 0 && BothSince(cfg, p, ticks, t, c) ==> Known(p, ticks + [t]))
  {
    var all, c := ticks + [t], Cut(cfg, p, ticks);
    KnownAtCut(cfg, p, ticks);
    assert PositivePrices(ticks[..c]) by {
      assert forall i :: 0 <= i < c ==> ticks[..c][i] == all[i];
    }
    KnownIff(p, ticks[..c]);
    KnownIff(p, all);
    assert all[c..] == ticks[c..] + [t];
    OccursLonger(p.a, all, c);
    OccursLonger(p.b, all, c);
    hide Cut, Occurs, Known, Valued, PositivePrices;
  }

  lemma OccursLonger(sym: Str, ticks: seq<Tick>, c: nat)
    requires c <= |ticks|
    ensures Occurs(sym, ticks[c..]) ==> Occurs(sym, ticks)
  {
    var late := ticks[c..];
    if i :| 0 <= i < |late| && late[i].symbol == sym {
      assert ticks[c + i] == late[i];
    }
  }

  /**
   * On any stream: the first snapshot is taken once both symbols have a price, with positive prices once both
   * have ticked; later ones as above.
   */
  lemma SnapshotIff(cfg: Config, math: Math, p: Pair, ticks: seq<Tick>, t: Tick)
    requires math.Exact() && p.a != p.b
    ensures var s, s' := Run(Stepper(cfg, math, p), INITIAL, ticks).0,
                         Run(Stepper(cfg, math, p), INITIAL, ticks + [t]).0;
            var c, all := Cut(cfg, p, ticks), ticks + [t];
            if s.snapshotAt == ZERO_TIME then
              if (t.symbol == p.a || t.symbol == p.b) && Known(p, all)
              then s'.snapshotAt == s'.firstSeen == t.timestamp
              else s'.snapshotAt == s.snapshotAt && s'.firstSeen == s.firstSeen
            else
              && c > 0 && s'.firstSeen == s.firstSeen
              && s'.snapshotAt
                 == if BothSince(cfg, p, ticks, t, c) && Known(p, all) then t.timestamp else s.snapshotAt
  {
    hide *;
    TimesAre(cfg, math, p, ticks);
    TimesAre(cfg, math, p, ticks + [t]);
    LastTimes(cfg, p, ticks, t);
  }

  /** When the last snapshot was taken; the zero time before the first. */
  function SnapshotTime(cfg: Config, p: Pair, ticks: seq<Tick>): Time {
    var c := Cut(cfg, p, ticks);
    if c == 0 then ZERO_TIME else ticks[c - 1].timestamp
  }

  lemma TimesAre(cfg: Config, math: Math, p: Pair, ticks: seq<Tick>)
    requires math.Exact() && p.a != p.b
    ensures var s := Run(Stepper(cfg, math, p), INITIAL, ticks).0;
            s.snapshotAt == SnapshotTime(cfg, p, ticks) && s.firstSeen == StartOf(cfg, p, ticks)
  {
    FieldsAre(cfg, math, p, ticks);
    hide Run, Cut, ReturnsOf, StartOf, Last, Math.Exact;
  }

  lemma LastTimes(cfg: Config, p: Pair, ticks: seq<Tick>, t: Tick)
    ensures var c, all := Cut(cfg, p, ticks), ticks + [t];
            var at, start := SnapshotTime(cfg, p, ticks), StartOf(cfg, p, ticks);
            var at', start' := SnapshotTime(cfg, p, all), StartOf(cfg, p, all);
            if at == ZERO_TIME then
              if (t.symbol == p.a || t.symbol == p.b) && Known(p, all)
              then at' == start' == t.timestamp
              else at' == at && start' == start
            else
              && c > 0 && start' == start
              && at' == if BothSince(cfg, p, ticks, t, c) && Known(p, all) then t.timestamp else at
  {
    hide Cut, Occurs, StartOf, BothSince, Snaps, Known;
    CutExtends(cfg, p, ticks, t);
    StartExtends(cfg, p, ticks, t);
    SnapsNow(cfg, p, ticks, t);
    OldStamp(ticks, t, Cut(cfg, p, ticks));
  }

  lemma SnapsNow(cfg: Config, p: Pair, ticks: seq<Tick>, t: Tick)
    ensures var all, c := ticks + [t], Cut(cfg, p, ticks);
            if Started(ticks, c) then
              c > 0 && (Snaps(cfg, p, all, c) <==> BothSince(cfg, p, ticks, t, c) && Known(p, all))
            else Snaps(cfg, p, all, c) <==> (t.symbol == p.a || t.symbol == p.b) && Known(p, all)
  {
    CompletesIff(cfg, p, ticks, t);
    OldStamp(ticks, t, Cut(cfg, p, ticks));
    hide Cut, Occurs, BothSince, Known;
  }

  // ---------------------------------------------------------------- when an alert is raised

  /** The log-returns of one symbol that the detector still holds. */
  function HeldReturns(cfg: Config, math: Math, p: Pair, sym: Str, ticks: seq<Tick>): seq<real> {
    Values(Last(20_000, ReturnsOf(cfg, math, p, sym, ticks)))
  }

  /** The correlation of the newest `m` of two equally long series. */
  function CorrelationOfLast(math: Math, xs: seq<real>, ys: seq<real>, m: nat): real
    requires math.Exact() && |xs| == |ys|
  {
    Correlation(math.sqrt, Last(m, xs), Last(m, ys), Min(m, |xs|))
  }

  lemma {:induction false} SameCount(cfg: Config, math: Math, p: Pair, ticks: seq<Tick>)
    ensures |ReturnsOf(cfg, math, p, p.a, ticks)| == |ReturnsOf(cfg, math, p, p.b, ticks)|
    ensures |HeldReturns(cfg, math, p, p.a, ticks)| == |HeldReturns(cfg, math, p, p.b, ticks)|
  {
    if ticks != [] {
      hide Samples, ReturnOn;
      SameCount(cfg, math, p, ticks[..|ticks| - 1]);
    }
  }

  lemma SliceIsLast(b: Buffer, m: nat)
    ensures b.Slice(m) == Last(m, Values(b.items)) && |b.Slice(m)| == Min(m, |b.items|)
  {}

  lemma RecentIsLast(math: Math, s: PairState, m: nat, xs: seq<real>, ys: seq<real>)
    requires math.Exact() && xs == Values(s.returnsA.items) && ys == Values(s.returnsB.items) && |xs| == |ys|
    ensures RecentCorrelation(math, s, m) == CorrelationOfLast(math, xs, ys, m)
  {
    SliceIsLast(s.returnsA, m);
    SliceIsLast(s.returnsB, m);
    hide Buffer.Slice, Last, Correlation, IsSqrt;
  }

  /** The guards, the two correlations and the cooldown, read off the history. */
  ghost predicate IsDue(cfg: Config, math: Math, p: Pair, ticks: seq<Tick>, now: Time, last: Time)
    requires math.Exact()
    requires |HeldReturns(cfg, math, p, p.a, ticks)| == |HeldReturns(cfg, math, p, p.b, ticks)|
  {
    var xs, ys := HeldReturns(cfg, math, p, p.a, ticks), HeldReturns(cfg, math, p, p.b, ticks);
    var baseline := CorrelationOfLast(math, xs, ys, |xs|);
    && Sub(now, StartOf(cfg, p, ticks)) >= cfg.minHistory && |xs| >= cfg.minSamples
    && baseline >= cfg.minBaseline
    && CorrelationOfLast(math, xs, ys, cfg.shortSamples) < baseline - cfg.dropThreshold
    && Sub(now, last) >= cfg.cooldown
  }

  /** The two symbols joined by a colon, the recent correlation, and the baseline less the drop. */
  function Breakdown(cfg: Config, math: Math, p: Pair, ticks: seq<Tick>, now: Time): Alert
    requires math.Exact()
    requires |HeldReturns(cfg, math, p, p.a, ticks)| == |HeldReturns(cfg, math, p, p.b, ticks)|
  {
    var xs, ys := HeldReturns(cfg, math, p, p.a, ticks), HeldReturns(cfg, math, p, p.b, ticks);
    Alert(Detector.CorrelationBreakdown, p.a + [58] + p.b, [], CorrelationOfLast(math, xs, ys, cfg.shortSamples),
          CorrelationOfLast(math, xs, ys, |xs|) - cfg.dropThreshold, now)
  }

  lemma JudgeIs(cfg: Config, math: Math, p: Pair, ticks: seq<Tick>, now: Time, last: Time)
    requires math.Exact()
    ensures |HeldReturns(cfg, math, p, p.a, ticks)| == |HeldReturns(cfg, math, p, p.b, ticks)|
    ensures Judge(cfg, math, p, Expected(cfg, math, p, ticks, last), now).1
            == if IsDue(cfg, math, p, ticks, now, last) then [Breakdown(cfg, math, p, ticks, now)] else []
  {
    SameCount(cfg, math, p, ticks);
    var s := Expected(cfg, math, p, ticks, last);
    var xs, ys := HeldReturns(cfg, math, p, p.a, ticks), HeldReturns(cfg, math, p, p.b, ticks);
    assert xs == Values(s.returnsA.items) && ys == Values(s.returnsB.items) && |s.returnsA.items| == |xs|;
    assert s.firstSeen == StartOf(cfg, p, ticks) && s.lastAlert == last;
    hide *;
    var recent, baseline := CorrelationOfLast(math, xs, ys, cfg.shortSamples), CorrelationOfLast(math, xs, ys, |xs|);
    RecentIsLast(math, s, cfg.shortSamples, xs, ys);
    BaselineIsAll(math, s, xs, ys);
    JudgeOn(cfg, math, p, s, now, recent, baseline);
    DueOn(cfg, math, p, ticks, now, last, |xs|, recent, baseline);
  }

  lemma BaselineIsAll(math: Math, s: PairState, xs: seq<real>, ys: seq<real>)
    requires math.Exact() && xs == Values(s.returnsA.items) && ys == Values(s.returnsB.items) && |xs| == |ys|
    ensures Baseline(math, s) == CorrelationOfLast(math, xs, ys, |xs|)
  {
    RecentIsLast(math, s, |xs|, xs, ys);
    hide RecentCorrelation, CorrelationOfLast, Math.Exact;
  }

  lemma JudgeOn(cfg: Config, math: Math, p: Pair, s: PairState, now: Time, recent: real, baseline: real)
    requires math.Exact()
    requires recent == RecentCorrelation(math, s, cfg.shortSamples) && baseline == Baseline(math, s)
    ensures Judge(cfg, math, p, s, now).1
            == if && Sub(now, s.firstSeen) >= cfg.minHistory && |s.returnsA.items| >= cfg.minSamples
                  && baseline >= cfg.minBaseline && recent < baseline - cfg.dropThreshold
                  && Sub(now, s.lastAlert) >= cfg.cooldown
               then [Alert(Detector.CorrelationBreakdown, p.a + [58] + p.b, [], recent,
                           baseline - cfg.dropThreshold, now)]
               else []
  {
    hide Math.Exact, RecentCorrelation, Baseline, Sub;
  }

  lemma DueOn(cfg: Config, math: Math, p: Pair, ticks: seq<Tick>, now: Time, last: Time, n: nat, recent: real,
              baseline: real)
    requires math.Exact()
    requires n == |HeldReturns(cfg, math, p, p.a, ticks)| == |HeldReturns(cfg, math, p, p.b, ticks)|
    requires var xs, ys := HeldReturns(cfg, math, p, p.a, ticks), HeldReturns(cfg, math, p, p.b, ticks);
             && recent == CorrelationOfLast(math, xs, ys, cfg.shortSamples)
             && baseline == CorrelationOfLast(math, xs, ys, n)
    ensures IsDue(cfg, math, p, ticks, now, last)
            <==> && Sub(now, StartOf(cfg, p, ticks)) >= cfg.minHistory && n >= cfg.minSamples
                 && baseline >= cfg.minBaseline && recent < baseline - cfg.dropThreshold
                 && Sub(now, last) >= cfg.cooldown
    ensures Breakdown(cfg, math, p, ticks, now)
            == Alert(Detector.CorrelationBreakdown, p.a + [58] + p.b, [], recent, baseline - cfg.dropThreshold, now)
  {
    hide Math.Exact, HeldReturns, CorrelationOfLast, Sub, StartOf;
  }

  /**
   * On any stream: a tick raises an alert exactly when it takes a later snapshot after which the guards, the
   * two correlations of the recorded returns and the cooldown allow it, and this alert.
   */
  lemma AlertsExactly(cfg: Config, math: Math, p: Pair, ticks: seq<Tick>, t: Tick)
    requires math.Exact() && p.a != p.b
    ensures var all, now, c := ticks + [t], t.timestamp, Cut(cfg, p, ticks);
            var alerts := Run(Stepper(cfg, math, p), INITIAL, ticks).1;
            && |HeldReturns(cfg, math, p, p.a, all)| == |HeldReturns(cfg, math, p, p.b, all)|
            && Run(Stepper(cfg, math, p), INITIAL, all).1
               == alerts + if Started(ticks, c) && BothSince(cfg, p, ticks, t, c) && Known(p, all)
                              && IsDue(cfg, math, p, all, now, LastTime(alerts))
                           then [Breakdown(cfg, math, p, all, now)] else []
  {
    var all, alerts := ticks + [t], Run(Stepper(cfg, math, p), INITIAL, ticks).1;
    hide *;
    CompletesIff(cfg, p, ticks, t);
    StepAdds(cfg, math, p, ticks, t);
    JudgeIs(cfg, math, p, all, t.timestamp, LastTime(alerts));
  }

  lemma StepAdds(cfg: Config, math: Math, p: Pair, ticks: seq<Tick>, t: Tick)
    requires math.Exact() && p.a != p.b
    ensures var alerts := Run(Stepper(cfg, math, p), INITIAL, ticks).1;
            Run(Stepper(cfg, math, p), INITIAL, ticks + [t]).1
            == alerts + if Completes(cfg, p, ticks, t)
                        then Judge(cfg, math, p, Expected(cfg, math, p, ticks + [t], LastTime(alerts)), t.timestamp).1
                        else []
  {
    RunIs(cfg, math, p, ticks);
    RunExtends(Stepper(cfg, math, p), INITIAL, ticks, t);
    hide Run, Expected, OnTick, Judge, Completes, Math.Exact, LastTime;
    StepIs(cfg, math, p, ticks, t, LastTime(Run(Stepper(cfg, math, p), INITIAL, ticks).1));
  }

  /** The shipped configuration: ten minutes, 30 samples, 0.5, 0.4 below over 720 samples, five minutes apart. */
  lemma DefaultIsDue(math: Math, p: Pair, ticks: seq<Tick>, now: Time, last: Time)
    requires math.Exact()
    requires |HeldReturns(DEFAULTS, math, p, p.a, ticks)| == |HeldReturns(DEFAULTS, math, p, p.b, ticks)|
    ensures var xs, ys := HeldReturns(DEFAULTS, math, p, p.a, ticks), HeldReturns(DEFAULTS, math, p, p.b, ticks);
            var baseline := CorrelationOfLast(math, xs, ys, |xs|);
            IsDue(DEFAULTS, math, p, ticks, now, last)
            <==> && now - StartOf(DEFAULTS, p, ticks) >= 600_000_000_000 && |xs| >= 30
                 && baseline >= 0.5 && CorrelationOfLast(math, xs, ys, 720) < baseline - 0.4
                 && now - last >= 300_000_000_000
    ensures DEFAULTS.sampleInterval == 5_000_000_000
  {
    SubAtLeast(now, StartOf(DEFAULTS, p, ticks), 600_000_000_000);
    SubAtLeast(now, last, 300_000_000_000);
    hide HeldReturns, StartOf, CorrelationOfLast, Math.Exact;
  }

  // ---------------------------------------------------------------- every sample costs a tick of each symbol

  /** One leg: how many of its ticks its samples, its snapshot and its waiting update account for. */
  ghost predicate LegCovered(samples: nat, taken: bool, known: bool, updated: bool, ticks: nat) {
    && samples <= ticks && (known || updated ==> 1 + samples <= ticks)
    && (taken ==> 1 + samples + (if updated then 1 else 0) <= ticks)
  }

  ghost predicate Covered(s: PairState, ticksA: nat, ticksB: nat) {
    var taken := s.snapshotAt != ZERO_TIME;
    && LegCovered(|s.returnsA.items|, taken, s.latest.a != 0.0, s.updatedA, ticksA)
    && LegCovered(|s.returnsB.items|, taken, s.latest.b != 0.0, s.updatedB, ticksB)
  }

  lemma StepIsCovered(cfg: Config, math: Math, p: Pair, s: PairState, t: Tick, ticksA: nat, ticksB: nat)
    requires math.Exact() && Covered(s, ticksA, ticksB)
    ensures Covered(OnTick(cfg, math, p, s, t).0, ticksA + (if t.symbol == p.a then 1 else 0),
                    ticksB + (if t.symbol == p.b then 1 else 0))
  {
    hide *;
    QuoteIsCovered(p, s, t, ticksA, ticksB);
    OutcomeOf(cfg, math, p, s, t);
    OutcomeIsCovered(Quote(p, s, t), OnTick(cfg, math, p, s, t).0, ticksA + (if t.symbol == p.a then 1 else 0),
                     ticksB + (if t.symbol == p.b then 1 else 0));
  }

  lemma QuoteIsCovered(p: Pair, s: PairState, t: Tick, ticksA: nat, ticksB: nat)
    requires Covered(s, ticksA, ticksB)
    ensures Covered(Quote(p, s, t), ticksA + (if t.symbol == p.a then 1 else 0),
                    ticksB + (if t.symbol == p.b then 1 else 0))
  {}

  /** The quote as it is, or a snapshot: a first one, or a later one with at most one more sample. */
  ghost predicate Outcome(q: PairState, s: PairState) {
    || s == q
    || (&& q.latest.a != 0.0 && q.latest.b != 0.0 && s.latest == q.latest && !s.updatedA && !s.updatedB
        && if q.snapshotAt == ZERO_TIME then s.returnsA == q.returnsA && s.returnsB == q.returnsB
           else && q.updatedA && q.updatedB && |s.returnsA.items| <= |q.returnsA.items| + 1
                && |s.returnsB.items| <= |q.returnsB.items| + 1)
  }

  lemma OutcomeOf(cfg: Config, math: Math, p: Pair, s: PairState, t: Tick)
    requires math.Exact()
    ensures Outcome(Quote(p, s, t), OnTick(cfg, math, p, s, t).0)
  {
    var q := Quote(p, s, t);
    var j := Sample(math, q, t.timestamp);
    assert |j.returnsA.items| <= |q.returnsA.items| + 1 && |j.returnsB.items| <= |q.returnsB.items| + 1;
    assert j.latest == q.latest && !j.updatedA && !j.updatedB;
    JudgeMarks(cfg, math, p, j, t.timestamp);
    assert t.symbol != p.a && t.symbol != p.b ==> q == s;
    hide Judge, Sample, Math.Exact, Quote;
  }

  lemma OutcomeIsCovered(q: PairState, s: PairState, ticksA: nat, ticksB: nat)
    requires Covered(q, ticksA, ticksB) && Outcome(q, s)
    ensures Covered(s, ticksA, ticksB)
  {}

  /**
   * On any stream at all: once a snapshot has been taken, the snapshot, each sample and a waiting update have
   * cost each of the two symbols a tick of its own.
   */
  lemma {:induction false} SamplesCostTicks(cfg: Config, math: Math, p: Pair, ticks: seq<Tick>)
    requires math.Exact()
    ensures var s := Run(Stepper(cfg, math, p), INITIAL, ticks).0;
            && Covered(s, |TicksOf(p.a, ticks)|, |TicksOf(p.b, ticks)|)
            && (s.snapshotAt != ZERO_TIME ==>
                  && 1 + |s.returnsA.items| + (if s.updatedA then 1 else 0) <= |TicksOf(p.a, ticks)|
                  && 1 + |s.returnsB.items| + (if s.updatedB then 1 else 0) <= |TicksOf(p.b, ticks)|)
  {
    if ticks != [] {
      hide OnTick, Math.Exact;
      var before, t := ticks[..|ticks| - 1], ticks[|ticks| - 1];
      SamplesCostTicks(cfg, math, p, before);
      StepIsCovered(cfg, math, p, Run(Stepper(cfg, math, p), INITIAL, before).0, t,
                    |TicksOf(p.a, before)|, |TicksOf(p.b, before)|);
    }
  }
}
