/** internal/detectors/orderflow.go: the share of aggressive buying in a rolling window. */
module OrderFlow {
  import opened Clock
  import opened RingBuffers
  import opened Runs
  import opened ShardedMaps
  import opened Ticks

  const CAPACITY: nat := 5_000

  datatype Config = Config(window: Duration, upperThreshold: real, lowerThreshold: real, minVolume: real,
                           minTicks: nat, minHistory: Duration, cooldown: Duration)

  const DEFAULTS := Config(MINUTE, 0.65, 0.35, 0.01, 10, MINUTE, 30 * SECOND)

  // ---------------------------------------------------------------- one symbol, as a value

  datatype FlowState = FlowState(buys: Buffer, sells: Buffer, totalTicks: nat, firstSeen: Time, lastAlert: Time)

  const INITIAL := FlowState(Empty(CAPACITY), Empty(CAPACITY), 0, ZERO_TIME, ZERO_TIME)

  function BuyVolume(cfg: Config, s: FlowState, now: Time): real {
    s.buys.SumSince(now, cfg.window)
  }

  function TotalVolume(cfg: Config, s: FlowState, now: Time): real {
    BuyVolume(cfg, s, now) + s.sells.SumSince(now, cfg.window)
  }

  /** A tick whose side is neither "buy" nor "sell" counts but leaves no volume. */
  function Record(s: FlowState, t: Tick): FlowState {
    FlowState(if t.side == Buy then s.buys.Push(t.timestamp, t.volume) else s.buys,
              if t.side == Sell then s.sells.Push(t.timestamp, t.volume) else s.sells,
              s.totalTicks + 1, if s.firstSeen == ZERO_TIME then t.timestamp else s.firstSeen, s.lastAlert)
  }

  /**
   * Warmed up, and enough volume for a ratio. A total of zero (possible when no minimum is
   * configured) gives 0/0, a NaN, which matches neither threshold.
   */
  predicate HasRatio(cfg: Config, s: FlowState, now: Time) {
    && s.totalTicks >= cfg.minTicks
    && Sub(now, s.firstSeen) >= cfg.minHistory
    && TotalVolume(cfg, s, now) >= cfg.minVolume
    && TotalVolume(cfg, s, now) != 0.0
  }

  function Ratio(cfg: Config, s: FlowState, now: Time): real
    requires HasRatio(cfg, s, now)
  {
    BuyVolume(cfg, s, now) / TotalVolume(cfg, s, now)
  }

  datatype Crossing = Neither | Crossed(threshold: real)

  /** Which threshold the ratio has reached. */
  function Reached(cfg: Config, ratio: real): Crossing {
    if ratio >= cfg.upperThreshold then Crossed(cfg.upperThreshold)
    else if ratio <= cfg.lowerThreshold then Crossed(cfg.lowerThreshold)
    else Neither
  }

  function OnTick(cfg: Config, s: FlowState, t: Tick): (FlowState, seq<Alert>) {
    var s', now := Record(s, t), t.timestamp;
    if !HasRatio(cfg, s', now) then (s', [])
    else
      var ratio := Ratio(cfg, s', now);
      var crossing := Reached(cfg, ratio);
      if crossing.Neither? || Sub(now, s'.lastAlert) < cfg.cooldown then (s', [])
      else
        (s'.(lastAlert := now),
         [Alert(OrderFlowImbalance, t.symbol, t.exchange, ratio, crossing.threshold, now)])
  }

  function Stepper(cfg: Config): Step<FlowState, Tick> {
    (s, t) => OnTick(cfg, s, t)
  }

  lemma OwnStep(cfg: Config, m: map<Str, FlowState>, t: Tick)
    ensures var (s, alerts) := OnTick(cfg, if t.symbol in m then m[t.symbol] else INITIAL, t);
            StepOwn(Stepper(cfg), INITIAL, m, t) == (m[t.symbol := s], alerts)
  {
    hide OnTick;
  }

  // ---------------------------------------------------------------- one symbol, in place

  class FlowTracker {
    const buys: RingBuffer
    const sells: RingBuffer
    var totalTicks: nat
    var firstSeen: Time
    var lastAlert: Time
    /** The value this tracker stands for. */
    ghost var state: FlowState
    ghost const Repr: set<object>

    ghost predicate Valid()
      reads this, Repr
    {
      && Repr == {this, buys, buys.entries, sells, sells.entries}
      && buys.Valid() && sells.Valid() && buys != sells && buys.entries != sells.entries
      && state == FlowState(buys.Contents(), sells.Contents(), totalTicks, firstSeen, lastAlert)
    }

    constructor ()
      ensures Valid() && this in Repr && fresh(Repr) && state == INITIAL
    {
      var b := new RingBuffer(CAPACITY);
      var s := new RingBuffer(CAPACITY);
      buys, sells := b, s;
      totalTicks, firstSeen, lastAlert := 0, ZERO_TIME, ZERO_TIME;
      state := INITIAL;
      Repr := {this, b, b.entries, s, s.entries};
    }

    method Absorb(t: Tick)
      requires Valid()
      modifies Repr
      ensures Valid()
      ensures state == Record(old(state), t)
    {
      hide RingBuffer.Contents, Buffer.Push;
      if firstSeen == ZERO_TIME {
        firstSeen := t.timestamp;
      }
      totalTicks := totalTicks + 1;
      match t.side {
        case Buy => buys.Push(t.timestamp, t.volume);
        case Sell => sells.Push(t.timestamp, t.volume);
        case OtherSide =>
      }
      state := Record(state, t);
    }

    method Observe(cfg: Config, t: Tick) returns (alerts: seq<Alert>)
      requires Valid()
      modifies Repr
      ensures Valid()
      ensures (state, alerts) == OnTick(cfg, old(state), t)
    {
      hide RingBuffer.Contents, Buffer.SumSince, Record;
      Absorb(t);
      if totalTicks < cfg.minTicks {
        return [];
      }
      if Sub(t.timestamp, firstSeen) < cfg.minHistory {
        return [];
      }
      var buyVol := buys.SumSince(t.timestamp, cfg.window);
      var sellVol := sells.SumSince(t.timestamp, cfg.window);
      var total := buyVol + sellVol;
      if total < cfg.minVolume || total == 0.0 {
        return [];
      }
      var ratio := buyVol / total;
      assert ratio == Ratio(cfg, state, t.timestamp);
      hide Ratio;
      var threshold;
      if ratio >= cfg.upperThreshold {
        threshold := cfg.upperThreshold;
      } else if ratio <= cfg.lowerThreshold {
        threshold := cfg.lowerThreshold;
      } else {
        return [];
      }
      if Sub(t.timestamp, lastAlert) < cfg.cooldown {
        return [];
      }
      lastAlert := t.timestamp;
      state := state.(lastAlert := lastAlert);
      return [Alert(OrderFlowImbalance, t.symbol, t.exchange, ratio, threshold, t.timestamp)];
    }
  }

  // ---------------------------------------------------------------- all symbols

  /** The trackers have these states, lie within `owned` and share nothing. */
  ghost predicate Tracked(trackers: map<Str, FlowTracker>, states: map<Str, FlowState>, owned: set<object>)
    reads owned
  {
    && states.Keys == trackers.Keys
    && (forall key :: key in trackers ==> trackers[key].Repr <= owned && Tracks(trackers[key], states[key]))
    && (forall k, l :: k in trackers && l in trackers && k != l ==> trackers[k].Repr !! trackers[l].Repr)
  }

  ghost predicate Tracks(s: FlowTracker, state: FlowState)
    reads s.Repr
  {
    s in s.Repr && s.Valid() && s.state == state
  }

  lemma CreatedIsInitial(s: FlowTracker)
    requires s in s.Repr && s.Valid() && s.state == INITIAL
    ensures Tracks(s, INITIAL)
  {}

  lemma TrackedKeys(trackers: map<Str, FlowTracker>, states: map<Str, FlowState>, owned: set<object>)
    requires Tracked(trackers, states, owned)
    ensures states.Keys == trackers.Keys
  {}

  lemma OneMoreTracked(trackers: map<Str, FlowTracker>, states: map<Str, FlowState>, owned: set<object>, sym: Str,
                       s: FlowTracker)
    requires Tracked(trackers, states, owned) && Tracks(s, INITIAL) && s.Repr !! owned
    ensures Tracked(trackers[sym := s], states[sym := INITIAL], owned + s.Repr)
  {
    hide Tracks;
  }

  class OrderFlowImbalanceDetector {
    const cfg: Config
    const symbols: ShardedMap<FlowTracker>
    /** The value this detector stands for: the states of the symbols seen so far. */
    ghost var states: map<Str, FlowState>
    /** The objects of the trackers. */
    ghost var owned: set<object>
    ghost var Repr: set<object>

    ghost predicate Valid()
      reads this, Repr
    {
      && this in Repr && symbols in Repr && symbols.shards in Repr && owned <= Repr
      && this !in owned && symbols !in owned && symbols.shards !in owned
      && symbols.Valid() && Tracked(symbols.view, states, owned)
    }

    constructor (cfg: Config)
      ensures Valid() && fresh(Repr) && states == map[] && this.cfg == cfg
    {
      this.cfg := cfg;
      var m := new ShardedMap();
      symbols := m;
      states, owned := map[], {};
      Repr := {this, m, m.shards};
    }

    /** `symbols.Use`: the symbol's tracker, created on its first tick. */
    method Tracker(sym: Str) returns (s: FlowTracker)
      requires Valid()
      modifies Repr
      ensures Valid() && fresh(Repr - old(Repr))
      ensures states == if sym in old(states) then old(states) else old(states)[sym := INITIAL]
      ensures sym in symbols.view && s == symbols.view[sym]
    {
      var created := new FlowTracker();
      hide FlowTracker.Valid, ShardedMap.Valid, Tracked, Tracks;
      CreatedIsInitial(created);
      TrackedKeys(symbols.view, states, owned);
      s := symbols.Use(sym, created);
      if sym !in states {
        Enrol(sym, created, old(symbols.view));
      }
    }

    /** The new tracker now stored in the map joins the detector's own. */
    ghost method Enrol(sym: Str, created: FlowTracker, trackers: map<Str, FlowTracker>)
      requires symbols.Valid() && symbols.view == trackers[sym := created]
      requires Tracked(trackers, states, owned) && Tracks(created, INITIAL)
      requires this in Repr && symbols in Repr && symbols.shards in Repr && owned <= Repr
      requires this !in owned && symbols !in owned && symbols.shards !in owned
      requires Repr !! created.Repr
      modifies this
      ensures Valid() && Repr == old(Repr) + created.Repr
      ensures states == old(states)[sym := INITIAL]
    {
      hide ShardedMap.Valid, Tracked, Tracks;
      OneMoreTracked(trackers, states, owned, sym, created);
      states := states[sym := INITIAL];
      owned := owned + created.Repr;
      Repr := Repr + created.Repr;
    }

    /** The callback: only this symbol's tracker changes. */
    method ObserveOwn(s: FlowTracker, t: Tick) returns (alerts: seq<Alert>)
      requires Valid() && t.symbol in symbols.view && s == symbols.view[t.symbol]
      modifies Repr
      ensures Valid() && Repr == old(Repr)
      ensures t.symbol in old(states) && states == old(states)[t.symbol := s.state]
      ensures (s.state, alerts) == OnTick(cfg, old(states)[t.symbol], t)
    {
      hide FlowTracker.Valid, ShardedMap.Valid, OnTick;
      alerts := s.Observe(cfg, t);
      states := states[t.symbol := s.state];
      forall key | key in symbols.view
        ensures Tracks(symbols.view[key], states[key])
      {
        assert key == t.symbol || symbols.view[key].Repr !! s.Repr;
      }
    }

    method Tick(t: Tick) returns (alerts: seq<Alert>)
      requires Valid()
      modifies Repr
      ensures Valid() && fresh(Repr - old(Repr))
      ensures (states, alerts) == StepOwn(Stepper(cfg), INITIAL, old(states), t)
    {
      hide Valid, OnTick, StepOwn;
      ghost var before := states;
      var s := Tracker(t.symbol);
      alerts := ObserveOwn(s, t);
      assert states == before[t.symbol := s.state];
      OwnStep(cfg, before, t);
    }
  }
}
