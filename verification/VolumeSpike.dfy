/** internal/detectors/volumespike.go: recent volume rate against the hourly baseline. */
module VolumeSpikes {
  import opened Clock
  import opened RingBuffers
  import opened Runs
  import opened ShardedMaps
  import opened Ticks

  const MIN_HISTORY: Duration := 5 * MINUTE
  const ALERT_COOLDOWN: Duration := 30 * SECOND
  const SHORT_CAPACITY: nat := 5_000
  const LONG_CAPACITY: nat := 100_000

  datatype Settings = Settings(shortWindow: Duration, longWindow: Duration, multiplier: real)

  const DEFAULTS := Settings(MINUTE, HOUR, 3.0)

  /** Rates are per second, so the windows cannot be empty. */
  type Config = c: Settings | c.shortWindow > 0 && c.longWindow > 0 witness DEFAULTS

  // ---------------------------------------------------------------- one symbol, as a value

  datatype SpikeState = SpikeState(short: Buffer, long: Buffer, firstSeen: Time, lastAlert: Time)

  const INITIAL := SpikeState(Empty(SHORT_CAPACITY), Empty(LONG_CAPACITY), ZERO_TIME, ZERO_TIME)

  function ShortRate(cfg: Config, s: SpikeState, now: Time): real {
    s.short.SumSince(now, cfg.shortWindow) / Seconds(cfg.shortWindow)
  }

  function LongRate(cfg: Config, s: SpikeState, now: Time): real {
    s.long.SumSince(now, cfg.longWindow) / Seconds(cfg.longWindow)
  }

  function Threshold(cfg: Config, s: SpikeState, now: Time): real {
    LongRate(cfg, s, now) * cfg.multiplier
  }

  /** The tick is recorded before anything is compared. */
  function Record(s: SpikeState, t: Tick): SpikeState {
    SpikeState(s.short.Push(t.timestamp, t.volume), s.long.Push(t.timestamp, t.volume),
               if s.firstSeen == ZERO_TIME then t.timestamp else s.firstSeen, s.lastAlert)
  }

  /** Enough history, some volume, and a recent rate above the multiple of the baseline. */
  predicate IsSpike(cfg: Config, s: SpikeState, now: Time) {
    && Sub(now, s.firstSeen) >= MIN_HISTORY
    && s.long.SumSince(now, cfg.longWindow) != 0.0
    && ShortRate(cfg, s, now) > Threshold(cfg, s, now)
  }

  function OnTick(cfg: Config, s: SpikeState, t: Tick): (SpikeState, seq<Alert>) {
    var s', now := Record(s, t), t.timestamp;
    if IsSpike(cfg, s', now) && Sub(now, s'.lastAlert) >= ALERT_COOLDOWN then
      (s'.(lastAlert := now),
       [Alert(VolumeSpike, t.symbol, t.exchange,
              ShortRate(cfg, s', now), Threshold(cfg, s', now), now)])
    else (s', [])
  }

  function Stepper(cfg: Config): Step<SpikeState, Tick> {
    (s, t) => OnTick(cfg, s, t)
  }

  lemma OwnStep(cfg: Config, m: map<Str, SpikeState>, t: Tick)
    ensures var (s, alerts) := OnTick(cfg, if t.symbol in m then m[t.symbol] else INITIAL, t);
            StepOwn(Stepper(cfg), INITIAL, m, t) == (m[t.symbol := s], alerts)
  {
    hide OnTick;
  }

  // ---------------------------------------------------------------- one symbol, in place

  class SpikeTracker {
    const short: RingBuffer
    const long: RingBuffer
    var firstSeen: Time
    var lastAlert: Time
    /** The value this tracker stands for. */
    ghost var state: SpikeState

    ghost const Repr: set<object>

    ghost predicate Valid()
      reads this, Repr
    {
      && Repr == {this, short, short.entries, long, long.entries}
      && short.Valid() && long.Valid() && short != long && short.entries != long.entries
      && state == SpikeState(short.Contents(), long.Contents(), firstSeen, lastAlert)
    }

    constructor ()
      ensures Valid() && this in Repr && fresh(Repr) && state == INITIAL
    {
      var s := new RingBuffer(SHORT_CAPACITY);
      var l := new RingBuffer(LONG_CAPACITY);
      short, long := s, l;
      firstSeen, lastAlert := ZERO_TIME, ZERO_TIME;
      state := INITIAL;
      Repr := {this, s, s.entries, l, l.entries};
    }

    method Observe(cfg: Config, t: Tick) returns (alerts: seq<Alert>)
      requires Valid()
      modifies Repr
      ensures Valid()
      ensures (state, alerts) == OnTick(cfg, old(state), t)
    {
      hide RingBuffer.Contents, Buffer.Push, Buffer.SumSince, Seconds;
      if firstSeen == ZERO_TIME {
        firstSeen := t.timestamp;
      }
      short.Push(t.timestamp, t.volume);
      long.Push(t.timestamp, t.volume);
      state := Record(state, t);
      if Sub(t.timestamp, firstSeen) < MIN_HISTORY {
        return [];
      }
      var shortVol := short.SumSince(t.timestamp, cfg.shortWindow);
      var longVol := long.SumSince(t.timestamp, cfg.longWindow);
      if longVol == 0.0 {
        return [];
      }
      var shortRate := shortVol / Seconds(cfg.shortWindow);
      var longRate := longVol / Seconds(cfg.longWindow);
      var threshold := longRate * cfg.multiplier;
      assert shortRate == ShortRate(cfg, state, t.timestamp);
      assert threshold == Threshold(cfg, state, t.timestamp);
      hide ShortRate, Threshold;
      if shortRate > threshold && Sub(t.timestamp, lastAlert) >= ALERT_COOLDOWN {
        assert IsSpike(cfg, state, t.timestamp);
        lastAlert := t.timestamp;
        state := state.(lastAlert := lastAlert);
        return [Alert(VolumeSpike, t.symbol, t.exchange, shortRate, threshold, t.timestamp)];
      }
      return [];
    }
  }

  // ---------------------------------------------------------------- all symbols

  /** The trackers have these states, lie within `owned` and share nothing. */
  ghost predicate Tracked(trackers: map<Str, SpikeTracker>, states: map<Str, SpikeState>, owned: set<object>)
    reads owned
  {
    && states.Keys == trackers.Keys
    && (forall key :: key in trackers ==> trackers[key].Repr <= owned && Tracks(trackers[key], states[key]))
    && (forall k, l :: k in trackers && l in trackers && k != l ==> trackers[k].Repr !! trackers[l].Repr)
  }

  ghost predicate Tracks(s: SpikeTracker, state: SpikeState)
    reads s.Repr
  {
    s in s.Repr && s.Valid() && s.state == state
  }

  lemma CreatedIsInitial(s: SpikeTracker)
    requires s in s.Repr && s.Valid() && s.state == INITIAL
    ensures Tracks(s, INITIAL)
  {}

  lemma TrackedKeys(trackers: map<Str, SpikeTracker>, states: map<Str, SpikeState>, owned: set<object>)
    requires Tracked(trackers, states, owned)
    ensures states.Keys == trackers.Keys
  {}

  lemma OneMoreTracked(trackers: map<Str, SpikeTracker>, states: map<Str, SpikeState>, owned: set<object>, sym: Str,
                       s: SpikeTracker)
    requires Tracked(trackers, states, owned) && Tracks(s, INITIAL) && s.Repr !! owned
    ensures Tracked(trackers[sym := s], states[sym := INITIAL], owned + s.Repr)
  {
    hide Tracks;
  }

  class VolumeSpikeDetector {
    const cfg: Config
    const symbols: ShardedMap<SpikeTracker>
    /** The value this detector stands for: the states of the symbols seen so far. */
    ghost var states: map<Str, SpikeState>
    /** The objects of the trackers. */
    ghost var owned: set<object>
    ghost var Repr: set<object>

    ghost predicate Valid()
      reads this, Repr
    {
      && this in Repr && symbols in Repr && symbols.shards in Repr && owned <= Repr
      && this !in owned && symbols !in owned && symbols.shards !in owned
      && symbols.Valid() && Tracked(symbols.view, states, owned)
    }

    constructor (cfg: Config)
      ensures Valid() && fresh(Repr) && states == map[] && this.cfg == cfg
    {
      this.cfg := cfg;
      var m := new ShardedMap();
      symbols := m;
      states, owned := map[], {};
      Repr := {this, m, m.shards};
    }

    /** `symbols.Use`: the symbol's tracker, created on its first tick. */
    method Tracker(sym: Str) returns (s: SpikeTracker)
      requires Valid()
      modifies Repr
      ensures Valid() && fresh(Repr - old(Repr))
      ensures states == if sym in old(states) then old(states) else old(states)[sym := INITIAL]
      ensures sym in symbols.view && s == symbols.view[sym]
    {
      var created := new SpikeTracker();
      hide SpikeTracker.Valid, ShardedMap.Valid, Tracked, Tracks;
      CreatedIsInitial(created);
      TrackedKeys(symbols.view, states, owned);
      s := symbols.Use(sym, created);
      if sym !in states {
        Enrol(sym, created, old(symbols.view));
      }
    }

    /** The new tracker now stored in the map joins the detector's own. */
    ghost method Enrol(sym: Str, created: SpikeTracker, trackers: map<Str, SpikeTracker>)
      requires symbols.Valid() && symbols.view == trackers[sym := created]
      requires Tracked(trackers, states, owned) && Tracks(created, INITIAL)
      requires this in Repr && symbols in Repr && symbols.shards in Repr && owned <= Repr
      requires this !in owned && symbols !in owned && symbols.shards !in owned
      requires Repr !! created.Repr
      modifies this
      ensures Valid() && Repr == old(Repr) + created.Repr
      ensures states == old(states)[sym := INITIAL]
    {
      hide ShardedMap.Valid, Tracked, Tracks;
      OneMoreTracked(trackers, states, owned, sym, created);
      states := states[sym := INITIAL];
      owned := owned + created.Repr;
      Repr := Repr + created.Repr;
    }

    /** The callback: only this symbol's tracker changes. */
    method ObserveOwn(s: SpikeTracker, t: Tick) returns (alerts: seq<Alert>)
      requires Valid() && t.symbol in symbols.view && s == symbols.view[t.symbol]
      modifies Repr
      ensures Valid() && Repr == old(Repr)
      ensures t.symbol in old(states) && states == old(states)[t.symbol := s.state]
      ensures (s.state, alerts) == OnTick(cfg, old(states)[t.symbol], t)
    {
      hide SpikeTracker.Valid, ShardedMap.Valid, OnTick;
      alerts := s.Observe(cfg, t);
      states := states[t.symbol := s.state];
      forall key | key in symbols.view
        ensures Tracks(symbols.view[key], states[key])
      {
        assert key == t.symbol || symbols.view[key].Repr !! s.Repr;
      }
    }

    method Tick(t: Tick) returns (alerts: seq<Alert>)
      requires Valid()
      modifies Repr
      ensures Valid() && fresh(Repr - old(Repr))
      ensures (states, alerts) == StepOwn(Stepper(cfg), INITIAL, old(states), t)
    {
      hide Valid, OnTick, StepOwn;
      ghost var before := states;
      var s := Tracker(t.symbol);
      alerts := ObserveOwn(s, t);
      assert states == before[t.symbol := s.state];
      OwnStep(cfg, before, t);
    }
  }
}
