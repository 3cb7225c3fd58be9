/** Whole runs of a detector: per symbol, and over an interleaved stream. */
module Runs {
  import opened Clock
  import opened Ticks

  /** A step consumes one input, updates the state and raises alerts. */
  type Step<!S, !T> = (S, T) -> (S, seq<Alert>)

  /** The state after all inputs, and every alert in order. */
  function Run<S, T>(step: Step<S, T>, init: S, inputs: seq<T>): (S, seq<Alert>) {
    if inputs == [] then (init, [])
    else
      var (s, alerts) := Run(step, init, inputs[..|inputs| - 1]);
      var (s', more) := step(s, inputs[|inputs| - 1]);
      (s', alerts + more)
  }

  lemma RunExtends<S, T>(step: Step<S, T>, init: S, inputs: seq<T>, x: T)
    ensures var (s, alerts) := Run(step, init, inputs);
            var (s', more) := step(s, x);
            Run(step, init, inputs + [x]) == (s', alerts + more)
  {
    assert (inputs + [x])[..|inputs|] == inputs;
  }

  /** One more input after a quiet run. */
  lemma RunContinues<S, T>(step: Step<S, T>, init: S, inputs: seq<T>, x: T, s: S, s': S, more: seq<Alert>)
    requires Run(step, init, inputs) == (s, []) && step(s, x) == (s', more)
    ensures Run(step, init, inputs + [x]) == (s', more)
  {
    RunExtends(step, init, inputs, x);
    var none: seq<Alert> := [];
    assert none + more == more;
  }

  // ---------------------------------------------------------------- one state per symbol

  /** What a detector over a map does with a tick: only the tick's own symbol is touched. */
  function StepOwn<S>(step: Step<S, Tick>, init: S, m: map<Str, S>, t: Tick): (map<Str, S>, seq<Alert>) {
    var (s, alerts) := step(if t.symbol in m then m[t.symbol] else init, t);
    (m[t.symbol := s], alerts)
  }

  function RunOwn<S>(step: Step<S, Tick>, init: S, ticks: seq<Tick>): (map<Str, S>, seq<Alert>) {
    if ticks == [] then (map[], [])
    else
      var (m, alerts) := RunOwn(step, init, ticks[..|ticks| - 1]);
      var (m', more) := StepOwn(step, init, m, ticks[|ticks| - 1]);
      (m', alerts + more)
  }

  lemma NothingRun<S>(step: Step<S, Tick>, init: S)
    ensures RunOwn(step, init, []) == (map[], [])
  {}

  lemma OwnExtends<S>(step: Step<S, Tick>, init: S, ticks: seq<Tick>, t: Tick)
    ensures var (m, alerts) := RunOwn(step, init, ticks);
            var (m', more) := StepOwn(step, init, m, t);
            RunOwn(step, init, ticks + [t]) == (m', alerts + more)
  {
    assert (ticks + [t])[..|ticks|] == ticks;
    hide StepOwn;
  }

  /** The sub-stream of one symbol. */
  function TicksOf(sym: Str, ticks: seq<Tick>): seq<Tick> {
    if ticks == [] then []
    else
      var t := ticks[|ticks| - 1];
      TicksOf(sym, ticks[..|ticks| - 1]) + if t.symbol == sym then [t] else []
  }

  /** The alerts raised for one symbol. */
  function AlertsOf(sym: Str, alerts: seq<Alert>): seq<Alert> {
    if alerts == [] then []
    else
      var a := alerts[|alerts| - 1];
      AlertsOf(sym, alerts[..|alerts| - 1]) + if a.symbol == sym then [a] else []
  }

  lemma {:induction false} AlertsOfConcat(sym: Str, a: seq<Alert>, b: seq<Alert>)
    ensures AlertsOf(sym, a + b) == AlertsOf(sym, a) + AlertsOf(sym, b)
  {
    if b == [] {
      assert a + b == a;
    } else {
      AlertsOfConcat(sym, a, b[..|b| - 1]);
      assert (a + b)[..|a + b| - 1] == a + b[..|b| - 1];
    }
  }

  lemma {:induction false} AlertsOfUniform(sym: Str, other: Str, alerts: seq<Alert>)
    requires forall a :: a in alerts ==> a.symbol == other
    ensures AlertsOf(sym, alerts) == if sym == other then alerts else []
  {
    if alerts != [] {
      AlertsOfUniform(sym, other, alerts[..|alerts| - 1]);
      assert alerts == alerts[..|alerts| - 1] + [alerts[|alerts| - 1]];
    }
  }

  /** Every alert carries the symbol of the tick that caused it. */
  ghost predicate LabelsOwnSymbol<S(!new)>(step: Step<S, Tick>) {
    forall s, t, a :: a in step(s, t).1 ==> a.symbol == t.symbol
  }

  /**
   * Non-interference: in any interleaved stream, a symbol's state and alerts are those of a
   * fresh detector fed only that symbol's ticks.
   */
  lemma {:induction false} NonInterference<S(!new)>(step: Step<S, Tick>, init: S, ticks: seq<Tick>, sym: Str)
    requires LabelsOwnSymbol(step)
    ensures var (m, alerts) := RunOwn(step, init, ticks);
            var alone := Run(step, init, TicksOf(sym, ticks));
            && (sym in m <==> TicksOf(sym, ticks) != [])
            && (sym in m ==> m[sym] == alone.0)
            && AlertsOf(sym, alerts) == alone.1
  {
    if ticks != [] {
      var before, t := ticks[..|ticks| - 1], ticks[|ticks| - 1];
      NonInterference(step, init, before, sym);
      var (m, alerts) := RunOwn(step, init, before);
      var (m', more) := StepOwn(step, init, m, t);
      AlertsOfConcat(sym, alerts, more);
      AlertsOfUniform(sym, t.symbol, more);
      var own := TicksOf(sym, before);
      if t.symbol == sym {
        assert (if sym in m then m[sym] else init) == Run(step, init, own).0;
        RunExtends(step, init, own, t);
      } else {
        assert own + [] == own;
      }
    }
  }

  // ---------------------------------------------------------------- cooldown

  /** Consecutive alerts are at least `cooldown` apart by their own timestamps. */
  ghost predicate Spaced(alerts: seq<Alert>, cooldown: Duration) {
    forall i, j :: 0 <= i < j < |alerts| ==> alerts[j].timestamp - alerts[i].timestamp >= (j - i) * cooldown
  }

  /** A step that respects a cooldown measured from the last alert, which it remembers. */
  ghost predicate RespectsCooldown<S(!new), T(!new)>(step: Step<S, T>, last: S -> Time, cooldown: Duration) {
    forall s, x :: CoolStep(step, last, cooldown, s, x)
  }

  ghost predicate CoolStep<S, T>(step: Step<S, T>, last: S -> Time, cooldown: Duration, s: S, x: T) {
    var (s', alerts) := step(s, x);
    if alerts == [] then last(s') == last(s)
    else |alerts| == 1 && alerts[0].timestamp == last(s') && Sub(last(s'), last(s)) >= cooldown
  }

  /** When the last alert was raised; the zero time before the first. */
  function LastTime(alerts: seq<Alert>): Time {
    if alerts == [] then ZERO_TIME else alerts[|alerts| - 1].timestamp
  }

  /** What such a step remembers is the time of its last alert. */
  lemma {:induction false} LastIsRemembered<S(!new), T(!new)>(step: Step<S, T>, last: S -> Time, cooldown: Duration,
                                                              init: S, inputs: seq<T>)
    requires RespectsCooldown(step, last, cooldown) && last(init) == ZERO_TIME
    ensures var (s, alerts) := Run(step, init, inputs); last(s) == LastTime(alerts)
  {
    if inputs != [] {
      var before, x := inputs[..|inputs| - 1], inputs[|inputs| - 1];
      LastIsRemembered(step, last, cooldown, init, before);
      assert CoolStep(step, last, cooldown, Run(step, init, before).0, x);
    }
  }

  /** The first timestamp that is not the zero time; the zero time when there is none. */
  function FirstStamp(ticks: seq<Tick>): Time {
    if ticks == [] then ZERO_TIME
    else if ticks[0].timestamp != ZERO_TIME then ticks[0].timestamp
    else FirstStamp(ticks[1..])
  }

  lemma {:induction false} FirstStampExtends(ticks: seq<Tick>, t: Tick)
    ensures FirstStamp(ticks + [t]) == if FirstStamp(ticks) == ZERO_TIME then t.timestamp else FirstStamp(ticks)
  {
    if ticks != [] {
      FirstStampExtends(ticks[1..], t);
      assert (ticks + [t])[1..] == ticks[1..] + [t];
    } else {
      assert ([] + [t])[1..] == [];
    }
  }

  /** Whatever the order of the tick timestamps, alerts i < j are at least (j-i) cooldowns apart. */
  lemma {:induction false} AlertsAreSpaced<S(!new), T(!new)>(step: Step<S, T>, last: S -> Time, cooldown: Duration,
                                                             init: S, inputs: seq<T>)
    requires 0 <= cooldown && RespectsCooldown(step, last, cooldown)
    ensures var (s, alerts) := Run(step, init, inputs);
            && Spaced(alerts, cooldown)
            && (alerts != [] ==> alerts[|alerts| - 1].timestamp == last(s))
            && (alerts == [] ==> last(s) == last(init))
  {
    if inputs != [] {
      var before, x := inputs[..|inputs| - 1], inputs[|inputs| - 1];
      AlertsAreSpaced(step, last, cooldown, init, before);
      var (s, alerts) := Run(step, init, before);
      var (s', more) := step(s, x);
      assert CoolStep(step, last, cooldown, s, x);
      if more == [] {
        assert alerts + more == alerts;
      } else {
        SubAtLeast(last(s'), last(s), cooldown);
        SpacedExtends(alerts, more[0], cooldown);
        assert alerts + more == alerts + [more[0]];
      }
    }
  }

  lemma SpacedExtends(alerts: seq<Alert>, a: Alert, cooldown: Duration)
    requires Spaced(alerts, cooldown)
    requires alerts != [] ==> a.timestamp - alerts[|alerts| - 1].timestamp >= cooldown
    ensures Spaced(alerts + [a], cooldown)
  {
    var all, n := alerts + [a], |alerts|;
    forall i, j | 0 <= i < j < |all|
      ensures all[j].timestamp - all[i].timestamp >= (j - i) * cooldown
    {
      if j == n && i < n - 1 {
        assert alerts[n - 1].timestamp - alerts[i].timestamp >= (n - 1 - i) * cooldown;
        assert (n - i) * cooldown == (n - 1 - i) * cooldown + cooldown;
      }
    }
  }
}
