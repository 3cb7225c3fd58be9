/** internal/detectors/correlation.go: a pair's recent correlation against its long-term baseline. */
module CorrelationBreakdown {
  import opened Clock
  import opened Common
  import opened Pearson
  import opened RingBuffers
  import opened Runs
  import opened Ticks

  /** The two functions of Go's math package that the detector calls. */
  datatype Math = Math(sqrt: real -> real, log: real -> real) {
    ghost predicate Exact() {
      IsSqrt(sqrt)
    }
  }

  datatype Pair = Pair(a: Str, b: Str)

  /** The two symbols joined by a colon. */
  function PairKey(p: Pair): Str {
    p.a + [58] + p.b
  }

  datatype Config = Config(shortSamples: nat, minSamples: nat, minBaseline: real, dropThreshold: real,
                           sampleInterval: Duration, minHistory: Duration, cooldown: Duration)

  const DEFAULTS := Config(720, 30, 0.5, 0.4, 5 * SECOND, 10 * MINUTE, 5 * MINUTE)
  const CAPACITY: nat := 20_000

  // ---------------------------------------------------------------- one pair, as a value

  /** Prices of the two symbols; 0 means not seen yet. */
  datatype Quotes = Quotes(a: real, b: real)

  datatype PairState = PairState(returnsA: Buffer, returnsB: Buffer, snapshot: Quotes, snapshotAt: Time,
                                 latest: Quotes, updatedA: bool, updatedB: bool, firstSeen: Time, lastAlert: Time)

  const INITIAL := PairState(Empty(CAPACITY), Empty(CAPACITY), Quotes(0.0, 0.0), ZERO_TIME,
                             Quotes(0.0, 0.0), false, false, ZERO_TIME, ZERO_TIME)

  function Quote(p: Pair, s: PairState, t: Tick): PairState {
    if t.symbol == p.a then s.(latest := s.latest.(a := t.price), updatedA := true)
    else if t.symbol == p.b then s.(latest := s.latest.(b := t.price), updatedB := true)
    else s
  }

  /** The snapshot moves to the latest prices. */
  function Snap(s: PairState, now: Time): PairState {
    s.(snapshot := s.latest, snapshotAt := now, updatedA := false, updatedB := false)
  }

  /** Both log-returns since the snapshot are recorded together, if the snapshot allows it. */
  function Sample(math: Math, s: PairState, now: Time): PairState {
    if s.snapshot.a > 0.0 && s.snapshot.b > 0.0 then
      Snap(s.(returnsA := s.returnsA.Push(now, math.log(s.latest.a / s.snapshot.a)),
              returnsB := s.returnsB.Push(now, math.log(s.latest.b / s.snapshot.b))), now)
    else Snap(s, now)
  }

  /** The correlation of the newest `n` samples of each symbol. */
  function RecentCorrelation(math: Math, s: PairState, n: nat): real
    requires math.Exact()
  {
    var xs, ys := s.returnsA.Slice(n), s.returnsB.Slice(n);
    Correlation(math.sqrt, xs, ys, Min(|xs|, |ys|))
  }

  function Baseline(math: Math, s: PairState): real
    requires math.Exact()
  {
    RecentCorrelation(math, s, |s.returnsA.items|)
  }

  predicate WarmedUp(cfg: Config, s: PairState, now: Time) {
    Sub(now, s.firstSeen) >= cfg.minHistory && |s.returnsA.items| >= cfg.minSamples
  }

  /** Usually correlated, but not recently. */
  predicate IsBreakdown(cfg: Config, math: Math, s: PairState)
    requires math.Exact()
  {
    && Baseline(math, s) >= cfg.minBaseline
    && RecentCorrelation(math, s, cfg.shortSamples) < Baseline(math, s) - cfg.dropThreshold
  }

  /** What follows a fresh sample. */
  function Judge(cfg: Config, math: Math, p: Pair, s: PairState, now: Time): (PairState, seq<Alert>)
    requires math.Exact()
  {
    if WarmedUp(cfg, s, now) && IsBreakdown(cfg, math, s) && Sub(now, s.lastAlert) >= cfg.cooldown then
      (s.(lastAlert := now),
       [Alert(Detector.CorrelationBreakdown, PairKey(p), [], RecentCorrelation(math, s, cfg.shortSamples),
              Baseline(math, s) - cfg.dropThreshold, now)])
    else (s, [])
  }

  /** Both symbols have ticked since the last sample, and the interval has passed. */
  predicate SampleDue(cfg: Config, s: PairState, now: Time) {
    s.updatedA && s.updatedB && Sub(now, s.snapshotAt) >= cfg.sampleInterval
  }

  function OnTick(cfg: Config, math: Math, p: Pair, s: PairState, t: Tick): (PairState, seq<Alert>)
    requires math.Exact()
  {
    var q := Quote(p, s, t);
    if t.symbol != p.a && t.symbol != p.b then (s, [])
    else if q.latest.a == 0.0 || q.latest.b == 0.0 then (q, [])
    else if q.snapshotAt == ZERO_TIME then (Snap(q.(firstSeen := t.timestamp), t.timestamp), [])
    else if !SampleDue(cfg, q, t.timestamp) then (q, [])
    else Judge(cfg, math, p, Sample(math, q, t.timestamp), t.timestamp)
  }

  function Stepper(cfg: Config, math: Math, p: Pair): Step<PairState, Tick>
    requires math.Exact()
  {
    (s, t) requires math.Exact() => OnTick(cfg, math, p, s, t)
  }

  // ---------------------------------------------------------------- all pairs, as values

  /** The configured pairs in order; a pair without a state is skipped. */
  function StepPairs(cfg: Config, math: Math, pairs: seq<Pair>, m: map<Str, PairState>, t: Tick):
      (map<Str, PairState>, seq<Alert>)
    requires math.Exact()
  {
    if pairs == [] then (m, [])
    else
      var (m', alerts) := StepPairs(cfg, math, pairs[..|pairs| - 1], m, t);
      var p := pairs[|pairs| - 1];
      if PairKey(p) !in m' then (m', alerts)
      else
        var (s, more) := OnTick(cfg, math, p, m'[PairKey(p)], t);
        (m'[PairKey(p) := s], alerts + more)
  }

  function Keys(pairs: seq<Pair>): set<Str> {
    set p | p in pairs :: PairKey(p)
  }

  lemma KeysExtend(pairs: seq<Pair>, i: nat)
    requires i < |pairs|
    ensures Keys(pairs[..i + 1]) == Keys(pairs[..i]) + {PairKey(pairs[i])}
  {}

  function Fresh(pairs: seq<Pair>): map<Str, PairState> {
    map key | key in Keys(pairs) :: INITIAL
  }

  function RunPairs(cfg: Config, math: Math, pairs: seq<Pair>, m: map<Str, PairState>, ticks: seq<Tick>):
      (map<Str, PairState>, seq<Alert>)
    requires math.Exact()
  {
    if ticks == [] then (m, [])
    else
      var (m', alerts) := RunPairs(cfg, math, pairs, m, ticks[..|ticks| - 1]);
      var (m'', more) := StepPairs(cfg, math, pairs, m', ticks[|ticks| - 1]);
      (m'', alerts + more)
  }

  // ---------------------------------------------------------------- one pair, in place

  class PairTracker {
    const returnsA: RingBuffer
    const returnsB: RingBuffer
    var snapshotPriceA: real
    var snapshotPriceB: real
    var snapshotAt: Time
    var latestPriceA: real
    var latestPriceB: real
    var updatedA: bool
    var updatedB: bool
    var firstSeen: Time
    var lastAlert: Time
    /** The value this tracker stands for. */
    ghost var state: PairState
    ghost const Repr: set<object>

    ghost predicate Valid()
      reads this, Repr
    {
      && Repr == {this, returnsA, returnsA.entries, returnsB, returnsB.entries}
      && returnsA.Valid() && returnsB.Valid() && returnsA != returnsB && returnsA.entries != returnsB.entries
      && state == PairState(returnsA.Contents(), returnsB.Contents(), Quotes(snapshotPriceA, snapshotPriceB),
                            snapshotAt, Quotes(latestPriceA, latestPriceB), updatedA, updatedB, firstSeen, lastAlert)
    }

    constructor ()
      ensures Valid() && this in Repr && fresh(Repr) && state == INITIAL
    {
      var a := new RingBuffer(CAPACITY);
      var b := new RingBuffer(CAPACITY);
      returnsA, returnsB := a, b;
      snapshotPriceA, snapshotPriceB, snapshotAt := 0.0, 0.0, ZERO_TIME;
      latestPriceA, latestPriceB, updatedA, updatedB := 0.0, 0.0, false, false;
      firstSeen, lastAlert := ZERO_TIME, ZERO_TIME;
      state := INITIAL;
      Repr := {this, a, a.entries, b, b.entries};
    }

    /** The assignments shared by the first snapshot and every later one. */
    method MoveSnapshot(now: Time)
      requires Valid()
      modifies this
      ensures Valid()
      ensures state == Snap(old(state), now)
    {
      hide RingBuffer.Contents;
      snapshotPriceA := latestPriceA;
      snapshotPriceB := latestPriceB;
      snapshotAt := now;
      updatedA := false;
      updatedB := false;
      state := Snap(state, now);
    }

    /** Both symbols are known for the first time. */
    method Begin(now: Time)
      requires Valid()
      modifies this
      ensures Valid()
      ensures state == Snap(old(state).(firstSeen := now), now)
    {
      hide RingBuffer.Contents;
      firstSeen := now;
      state := state.(firstSeen := now);
      MoveSnapshot(now);
    }

    method TakeSample(math: Math, now: Time)
      requires Valid()
      modifies Repr
      ensures Valid()
      ensures state == Sample(math, old(state), now)
    {
      hide RingBuffer.Contents, Buffer.Push, Snap;
      if snapshotPriceA > 0.0 && snapshotPriceB > 0.0 {
        var ra := math.log(latestPriceA / snapshotPriceA);
        var rb := math.log(latestPriceB / snapshotPriceB);
        returnsA.Push(now, ra);
        returnsB.Push(now, rb);
        state := state.(returnsA := state.returnsA.Push(now, ra), returnsB := state.returnsB.Push(now, rb));
      }
      MoveSnapshot(now);
    }

    method Conclude(cfg: Config, math: Math, p: Pair, now: Time) returns (alerts: seq<Alert>)
      requires Valid() && math.Exact()
      modifies Repr
      ensures Valid()
      ensures (state, alerts) == Judge(cfg, math, p, old(state), now)
    {
      hide RingBuffer.Contents, Buffer.Slice, Correlation;
      if Sub(now, firstSeen) < cfg.minHistory {
        return [];
      }
      var n := returnsA.Len();
      if n < cfg.minSamples {
        return [];
      }
      var baseA := returnsA.Slice(n);
      var baseB := returnsB.Slice(n);
      var baselineCorr := Welford(math.sqrt, baseA, baseB);
      assert baselineCorr == Baseline(math, state);
      if baselineCorr < cfg.minBaseline {
        return [];
      }
      var shortA := returnsA.Slice(cfg.shortSamples);
      var shortB := returnsB.Slice(cfg.shortSamples);
      var shortCorr := Welford(math.sqrt, shortA, shortB);
      assert shortCorr == RecentCorrelation(math, state, cfg.shortSamples);
      if shortCorr >= baselineCorr - cfg.dropThreshold {
        return [];
      }
      if Sub(now, lastAlert) < cfg.cooldown {
        return [];
      }
      hide Baseline, RecentCorrelation;
      lastAlert := now;
      state := state.(lastAlert := now);
      return [Alert(Detector.CorrelationBreakdown, PairKey(p), [], shortCorr, baselineCorr - cfg.dropThreshold, now)];
    }

    method Receive(p: Pair, t: Tick) returns (mine: bool)
      requires Valid()
      modifies Repr
      ensures Valid()
      ensures state == Quote(p, old(state), t) && mine == (t.symbol == p.a || t.symbol == p.b)
    {
      hide RingBuffer.Contents;
      if t.symbol == p.a {
        latestPriceA := t.price;
        updatedA := true;
      } else if t.symbol == p.b {
        latestPriceB := t.price;
        updatedB := true;
      } else {
        return false;
      }
      state := Quote(p, state, t);
      return true;
    }

    method Observe(cfg: Config, math: Math, p: Pair, t: Tick) returns (alerts: seq<Alert>)
      requires Valid() && math.Exact()
      modifies Repr
      ensures Valid()
      ensures (state, alerts) == OnTick(cfg, math, p, old(state), t)
    {
      assert t.symbol != p.a && t.symbol != p.b ==> Quote(p, state, t) == state;
      hide RingBuffer.Contents, Judge, Sample, Quote;
      var mine := Receive(p, t);
      if !mine {
        return [];
      }
      if latestPriceA == 0.0 || latestPriceB == 0.0 {
        return [];
      }
      if snapshotAt == ZERO_TIME {
        Begin(t.timestamp);
        return [];
      }
      if !updatedA || !updatedB {
        return [];
      }
      if Sub(t.timestamp, snapshotAt) < cfg.sampleInterval {
        return [];
      }
      TakeSample(math, t.timestamp);
      alerts := Conclude(cfg, math, p, t.timestamp);
    }
  }

  // ---------------------------------------------------------------- all pairs, in place

  class CorrelationBreakdownDetector {
    const cfg: Config
    const math: Math
    const pairs: seq<Pair>
    const pairStates: map<Str, PairTracker>

    /** The value this detector stands for: the states of all pairs. */
    ghost var states: map<Str, PairState>
    ghost const Repr: set<object>

    /** The trackers are disjoint from each other and from the detector itself. */
    ghost predicate Valid()
      reads this, Repr
    {
      && this in Repr && math.Exact()
      && states.Keys == pairStates.Keys
      && (forall key :: key in pairStates ==>
            pairStates[key].Repr <= Repr && Owned(pairStates[key]) && states[key] == pairStates[key].state)
      && (forall k, l :: k in pairStates && l in pairStates && k != l ==> pairStates[k].Repr !! pairStates[l].Repr)
    }

    ghost predicate Owned(s: PairTracker)
      reads s.Repr
    {
      s in s.Repr && this !in s.Repr && s.Valid()
    }

    constructor (cfg: Config, math: Math, pairs: seq<Pair>)
      requires math.Exact()
      ensures Valid() && fresh(Repr) && this.cfg == cfg && this.math == math && this.pairs == pairs
      ensures states == Fresh(pairs)
    {
      hide PairTracker.Valid;
      var trackers: map<Str, PairTracker>;
      ghost var repr: set<object>;
      trackers, repr := NewTrackers(pairs);
      this.cfg, this.math, this.pairs, pairStates := cfg, math, pairs, trackers;
      states := Fresh(pairs);
      Repr := {this} + repr;
    }

    static method NewTrackers(pairs: seq<Pair>) returns (trackers: map<Str, PairTracker>, ghost repr: set<object>)
      ensures fresh(repr) && trackers.Keys == Keys(pairs)
      ensures forall key :: key in trackers ==>
                && trackers[key] in trackers[key].Repr && trackers[key].Repr <= repr
                && trackers[key].Valid() && trackers[key].state == INITIAL
      ensures forall k, l :: k in trackers && l in trackers && k != l ==> trackers[k].Repr !! trackers[l].Repr
    {
      trackers, repr := map[], {};
      hide PairTracker.Valid;
      for i := 0 to |pairs|
        invariant fresh(repr) && trackers.Keys == Keys(pairs[..i])
        invariant forall key :: key in trackers ==>
                    && trackers[key] in trackers[key].Repr && trackers[key].Repr <= repr
                    && trackers[key].Valid() && trackers[key].state == INITIAL
        invariant forall k, l :: k in trackers && l in trackers && k != l ==> trackers[k].Repr !! trackers[l].Repr
      {
        KeysExtend(pairs, i);
        hide Keys;
        var s := new PairTracker();
        trackers := trackers[PairKey(pairs[i]) := s];
        repr := repr + s.Repr;
      }
      assert pairs[..|pairs|] == pairs;
    }

    method ObserveOne(p: Pair, t: Tick) returns (alerts: seq<Alert>)
      requires Valid() && PairKey(p) in pairStates
      modifies this`states, pairStates[PairKey(p)].Repr
      ensures Valid() && PairKey(p) in old(states)
      ensures var (s, more) := OnTick(cfg, math, p, old(states)[PairKey(p)], t);
              states == old(states)[PairKey(p) := s] && alerts == more
    {
      hide PairTracker.Valid, OnTick;
      var s := pairStates[PairKey(p)];
      alerts := s.Observe(cfg, math, p, t);
      states := states[PairKey(p) := s.state];
      forall key | key in pairStates
        ensures Owned(pairStates[key])
      {
        assert key == PairKey(p) || pairStates[key].Repr !! s.Repr;
      }
    }

    method Tick(t: Tick) returns (alerts: seq<Alert>)
      requires Valid()
      modifies Repr
      ensures Valid()
      ensures (states, alerts) == StepPairs(cfg, math, pairs, old(states), t)
    {
      hide OnTick, Math.Exact, Owned;
      alerts := [];
      for i := 0 to |pairs|
        invariant Valid()
        invariant (states, alerts) == StepPairs(cfg, math, pairs[..i], old(states), t)
      {
        assert pairs[..i + 1][..i] == pairs[..i];
        if PairKey(pairs[i]) in pairStates {
          var more := ObserveOne(pairs[i], t);
          alerts := alerts + more;
        }
      }
      assert pairs[..|pairs|] == pairs;
    }
  }
}
