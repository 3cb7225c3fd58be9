/** Runs of the correlation detector in which both symbols tick once per step, at prices of one's choosing. */
module Replay {
  import opened Clock
  import opened CorrelationBreakdown
  import opened RingBuffers
  import opened Runs
  import opened Ticks

  function At(start: Time, step: Duration, k: nat): Time {
    start + k * step
  }

  function Leg(symbol: Str, price: real, at: Time): Tick {
    Tick(symbol, [], price, 0.0, Buy, at)
  }

  /** One tick per symbol and step. */
  function Fed(p: Pair, start: Time, step: Duration, xs: seq<real>, ys: seq<real>): seq<Tick>
    requires |xs| == |ys|
  {
    if xs == [] then []
    else
      var k := |xs| - 1;
      Fed(p, start, step, xs[..k], ys[..k]) + [Leg(p.a, xs[k], At(start, step, k)), Leg(p.b, ys[k], At(start, step, k))]
  }

  ghost predicate Positive(ps: seq<real>) {
    forall i :: 0 <= i < |ps| ==> ps[i] > 0.0
  }

  /** The log-returns from step to step. */
  function Returns(math: Math, start: Time, step: Duration, ps: seq<real>): (es: seq<Entry>)
    requires ps != [] && Positive(ps)
    ensures |es| == |ps| - 1
  {
    seq(|ps| - 1, i requires 0 <= i < |ps| - 1 => Entry(At(start, step, i + 1), math.log(ps[i + 1] / ps[i])))
  }

  /** What the detector holds once it has sampled every step and not alerted. */
  function Recorded(math: Math, start: Time, step: Duration, xs: seq<real>, ys: seq<real>): PairState
    requires |xs| == |ys| > 0 && Positive(xs) && Positive(ys)
  {
    var k := |xs| - 1;
    var quotes := Quotes(xs[k], ys[k]);
    PairState(Buffer(CAPACITY, Returns(math, start, step, xs)), Buffer(CAPACITY, Returns(math, start, step, ys)),
              quotes, At(start, step, k), quotes, false, false, start, ZERO_TIME)
  }

  /** Two symbols, and steps that are long enough for a sample. */
  predicate Steady(cfg: Config, p: Pair, start: Time, step: Duration) {
    p.a != p.b && start > ZERO_TIME && 0 <= step && cfg.sampleInterval <= step
  }

  // ---------------------------------------------------------------- one step at a time

  lemma FirstPrices(cfg: Config, math: Math, p: Pair, start: Time, step: Duration, x: real, y: real)
    requires math.Exact() && Steady(cfg, p, start, step) && x > 0.0 && y > 0.0
    ensures Run(Stepper(cfg, math, p), INITIAL, Fed(p, start, step, [x], [y]))
            == (Recorded(math, start, step, [x], [y]), [])
  {
    var a, b := Leg(p.a, x, start), Leg(p.b, y, start);
    assert Fed(p, start, step, [x], [y]) == [] + [a, b];
    assert [] + [a] == [a] && [a] + [b] == [a, b] == [] + [a, b];
    var seenA := INITIAL.(latest := Quotes(x, 0.0), updatedA := true);
    assert OnTick(cfg, math, p, INITIAL, a) == (seenA, []);
    var first := Recorded(math, start, step, [x], [y]);
    assert first
           == INITIAL.(snapshot := Quotes(x, y), snapshotAt := start, latest := Quotes(x, y), firstSeen := start);
    assert OnTick(cfg, math, p, seenA, b) == (first, []);
    var stepper := Stepper(cfg, math, p);
    assert Run(stepper, INITIAL, []) == (INITIAL, []);
    hide Judge, Sample, OnTick, Run, Math.Exact, Recorded;
    RunContinues(stepper, INITIAL, [], a, INITIAL, seenA, []);
    RunContinues(stepper, INITIAL, [a], b, seenA, first, []);
  }

  lemma LaterThanZero(start: Time, step: Duration, k: nat)
    requires start > ZERO_TIME && step >= 0
    ensures At(start, step, k) > ZERO_TIME
  {
    assert k * step >= 0;
  }

  lemma NextAt(start: Time, step: Duration, k: nat)
    ensures At(start, step, k + 1) == At(start, step, k) + step
  {
    assert (k + 1) * step == k * step + step;
  }

  /** The first leg waits for the second. */
  lemma FirstLeg(cfg: Config, math: Math, p: Pair, start: Time, step: Duration, xs: seq<real>, ys: seq<real>, x: real)
    requires math.Exact() && Steady(cfg, p, start, step) && |xs| == |ys| > 0
    requires Positive(xs) && Positive(ys) && x > 0.0
    ensures var s := Recorded(math, start, step, xs, ys);
            OnTick(cfg, math, p, s, Leg(p.a, x, At(start, step, |xs|)))
            == (s.(latest := s.latest.(a := x), updatedA := true), [])
  {
    LaterThanZero(start, step, |xs| - 1);
    hide Judge, Sample, Math.Exact, Returns, At;
  }

  /** The second leg completes a sample, which is then judged. */
  lemma SecondLeg(cfg: Config, math: Math, p: Pair, start: Time, step: Duration,
                  xs: seq<real>, ys: seq<real>, x: real, y: real)
    requires math.Exact() && Steady(cfg, p, start, step) && 0 < |xs| == |ys| <= CAPACITY
    requires Positive(xs) && Positive(ys) && x > 0.0 && y > 0.0
    ensures var s, now := Recorded(math, start, step, xs, ys), At(start, step, |xs|);
            OnTick(cfg, math, p, s.(latest := s.latest.(a := x), updatedA := true), Leg(p.b, y, now))
            == Judge(cfg, math, p, Recorded(math, start, step, xs + [x], ys + [y]), now)
  {
    LaterThanZero(start, step, |xs| - 1);
    NextAt(start, step, |xs| - 1);
    SampleIs(math, start, step, xs, ys, x, y);
    hide Judge, Sample, Math.Exact, Returns, At;
  }

  lemma SampleIs(math: Math, start: Time, step: Duration, xs: seq<real>, ys: seq<real>, x: real, y: real)
    requires 0 < |xs| == |ys| <= CAPACITY && Positive(xs) && Positive(ys) && x > 0.0 && y > 0.0
    ensures var s, now := Recorded(math, start, step, xs, ys), At(start, step, |xs|);
            Sample(math, s.(latest := Quotes(x, y), updatedA := true, updatedB := true), now)
            == Recorded(math, start, step, xs + [x], ys + [y])
  {
    NextReturn(math, start, step, xs, x);
    NextReturn(math, start, step, ys, y);
    hide At, Returns;
  }

  lemma NextReturn(math: Math, start: Time, step: Duration, ps: seq<real>, price: real)
    requires ps != [] && Positive(ps) && price > 0.0
    ensures Returns(math, start, step, ps + [price])
            == Returns(math, start, step, ps) + [Entry(At(start, step, |ps|), math.log(price / ps[|ps| - 1]))]
  {
    hide At;
  }

  // ---------------------------------------------------------------- whole runs

  /** After a quiet run, the first leg of one more step changes nothing but the quote. */
  lemma FirstLegRuns(cfg: Config, math: Math, p: Pair, start: Time, step: Duration,
                     xs: seq<real>, ys: seq<real>, x: real)
    requires math.Exact() && Steady(cfg, p, start, step) && 0 < |xs| == |ys| <= CAPACITY
    requires Positive(xs) && Positive(ys) && x > 0.0
    requires Run(Stepper(cfg, math, p), INITIAL, Fed(p, start, step, xs, ys))
             == (Recorded(math, start, step, xs, ys), [])
    ensures var s := Recorded(math, start, step, xs, ys);
            Run(Stepper(cfg, math, p), INITIAL, Fed(p, start, step, xs, ys) + [Leg(p.a, x, At(start, step, |xs|))])
            == (s.(latest := s.latest.(a := x), updatedA := true), [])
  {
    hide OnTick, Math.Exact, Fed, Recorded, At, Leg, Run, Steady;
    FirstLeg(cfg, math, p, start, step, xs, ys, x);
    var s := Recorded(math, start, step, xs, ys);
    RunContinues(Stepper(cfg, math, p), INITIAL, Fed(p, start, step, xs, ys), Leg(p.a, x, At(start, step, |xs|)),
                 s, s.(latest := s.latest.(a := x), updatedA := true), []);
  }

  /** The last tick of one more step is judged. */
  lemma Advance(cfg: Config, math: Math, p: Pair, start: Time, step: Duration,
                xs: seq<real>, ys: seq<real>, x: real, y: real)
    requires math.Exact() && Steady(cfg, p, start, step) && 0 < |xs| == |ys| <= CAPACITY
    requires Positive(xs) && Positive(ys) && x > 0.0 && y > 0.0
    requires Run(Stepper(cfg, math, p), INITIAL, Fed(p, start, step, xs, ys))
             == (Recorded(math, start, step, xs, ys), [])
    ensures var now := At(start, step, |xs|);
            var ticks := Fed(p, start, step, xs, ys) + [Leg(p.a, x, now)];
            var (s, alerts) := Run(Stepper(cfg, math, p), INITIAL, ticks);
            && Fed(p, start, step, xs + [x], ys + [y]) == ticks + [Leg(p.b, y, now)]
            && alerts == []
            && OnTick(cfg, math, p, s, Leg(p.b, y, now))
               == Judge(cfg, math, p, Recorded(math, start, step, xs + [x], ys + [y]), now)
  {
    hide OnTick, Judge, Math.Exact, Fed, Recorded, At, Leg, Run, Steady;
    FedExtends(p, start, step, xs, ys, x, y);
    FirstLegRuns(cfg, math, p, start, step, xs, ys, x);
    SecondLeg(cfg, math, p, start, step, xs, ys, x, y);
  }

  /** And the verdict is what the run then has. */
  lemma Verdict(cfg: Config, math: Math, p: Pair, start: Time, step: Duration,
                xs: seq<real>, ys: seq<real>, x: real, y: real)
    requires math.Exact() && Steady(cfg, p, start, step) && 0 < |xs| == |ys| <= CAPACITY
    requires Positive(xs) && Positive(ys) && x > 0.0 && y > 0.0
    requires Run(Stepper(cfg, math, p), INITIAL, Fed(p, start, step, xs, ys))
             == (Recorded(math, start, step, xs, ys), [])
    ensures Run(Stepper(cfg, math, p), INITIAL, Fed(p, start, step, xs + [x], ys + [y]))
            == Judge(cfg, math, p, Recorded(math, start, step, xs + [x], ys + [y]), At(start, step, |xs|))
  {
    hide OnTick, Judge, Math.Exact, Fed, Recorded, At, Leg, Run, Steady;
    Advance(cfg, math, p, start, step, xs, ys, x, y);
    var now := At(start, step, |xs|);
    var ticks := Fed(p, start, step, xs, ys) + [Leg(p.a, x, now)];
    var verdict := Judge(cfg, math, p, Recorded(math, start, step, xs + [x], ys + [y]), now);
    RunContinues(Stepper(cfg, math, p), INITIAL, ticks, Leg(p.b, y, now),
                 Run(Stepper(cfg, math, p), INITIAL, ticks).0, verdict.0, verdict.1);
  }

  lemma FedExtends(p: Pair, start: Time, step: Duration, xs: seq<real>, ys: seq<real>, x: real, y: real)
    requires |xs| == |ys|
    ensures var now := At(start, step, |xs|);
            Fed(p, start, step, xs + [x], ys + [y])
            == Fed(p, start, step, xs, ys) + [Leg(p.a, x, now)] + [Leg(p.b, y, now)]
  {
    assert (xs + [x])[..|xs|] == xs && (ys + [y])[..|ys|] == ys;
    hide At, Leg;
  }

  /** A run has alerted, or every sample is recorded. */
  ghost predicate Settled(cfg: Config, math: Math, p: Pair, start: Time, step: Duration, xs: seq<real>, ys: seq<real>)
    requires math.Exact() && |xs| == |ys| > 0 && Positive(xs) && Positive(ys)
  {
    var run := Run(Stepper(cfg, math, p), INITIAL, Fed(p, start, step, xs, ys));
    run.1 != [] || run == (Recorded(math, start, step, xs, ys), [])
  }

  /** In a run that has not alerted, every sample has been judged quiet. */
  lemma {:induction false} Replayed(cfg: Config, math: Math, p: Pair, start: Time, step: Duration,
                                    xs: seq<real>, ys: seq<real>)
    requires math.Exact() && Steady(cfg, p, start, step) && 0 < |xs| == |ys| <= CAPACITY + 1
    requires Positive(xs) && Positive(ys)
    ensures Settled(cfg, math, p, start, step, xs, ys)
    ensures |xs| > 1 && Run(Stepper(cfg, math, p), INITIAL, Fed(p, start, step, xs, ys)).1 == []
            ==> Judge(cfg, math, p, Recorded(math, start, step, xs, ys), At(start, step, |xs| - 1)).1 == []
  {
    hide *;
    var n := |xs| - 1;
    if n == 0 {
      assert xs == [xs[0]] && ys == [ys[0]];
      FirstStep(cfg, math, p, start, step, xs, ys);
    } else {
      assert xs == xs[..n] + [xs[n]] && ys == ys[..n] + [ys[n]];
      PositivePrefix(xs, n);
      PositivePrefix(ys, n);
      Replayed(cfg, math, p, start, step, xs[..n], ys[..n]);
      OneMoreStep(cfg, math, p, start, step, xs[..n], ys[..n], xs[n], ys[n]);
    }
  }

  lemma FirstStep(cfg: Config, math: Math, p: Pair, start: Time, step: Duration, xs: seq<real>, ys: seq<real>)
    requires math.Exact() && Steady(cfg, p, start, step) && |xs| == |ys| == 1 && Positive(xs) && Positive(ys)
    ensures Settled(cfg, math, p, start, step, xs, ys)
  {
    assert xs == [xs[0]] && ys == [ys[0]];
    FirstPrices(cfg, math, p, start, step, xs[0], ys[0]);
    hide Run, Recorded, Math.Exact, Positive, Fed;
  }

  lemma OneMoreStep(cfg: Config, math: Math, p: Pair, start: Time, step: Duration,
                    xs: seq<real>, ys: seq<real>, x: real, y: real)
    requires math.Exact() && Steady(cfg, p, start, step) && 0 < |xs| == |ys| <= CAPACITY
    requires Positive(xs) && Positive(ys) && x > 0.0 && y > 0.0 && Settled(cfg, math, p, start, step, xs, ys)
    ensures Settled(cfg, math, p, start, step, xs + [x], ys + [y])
    ensures Run(Stepper(cfg, math, p), INITIAL, Fed(p, start, step, xs + [x], ys + [y])).1 == []
            ==> Judge(cfg, math, p, Recorded(math, start, step, xs + [x], ys + [y]), At(start, step, |xs|)).1 == []
  {
    hide OnTick, Judge, Math.Exact, Fed, Recorded, At, Leg, Run, Steady;
    var stepper, before, now := Stepper(cfg, math, p), Fed(p, start, step, xs, ys), At(start, step, |xs|);
    if Run(stepper, INITIAL, before).1 == [] {
      Verdict(cfg, math, p, start, step, xs, ys, x, y);
      QuietKeeps(cfg, math, p, Recorded(math, start, step, xs + [x], ys + [y]), now);
    } else {
      FedExtends(p, start, step, xs, ys, x, y);
      StillAlerted(stepper, before, Leg(p.a, x, now));
      StillAlerted(stepper, before + [Leg(p.a, x, now)], Leg(p.b, y, now));
    }
  }

  lemma QuietKeeps(cfg: Config, math: Math, p: Pair, s: PairState, now: Time)
    requires math.Exact()
    ensures Judge(cfg, math, p, s, now) == (s, []) || Judge(cfg, math, p, s, now).1 != []
  {
    hide WarmedUp, IsBreakdown, Math.Exact, RecentCorrelation, Baseline;
  }

  lemma PositivePrefix(ps: seq<real>, n: nat)
    requires n < |ps| && Positive(ps)
    ensures Positive(ps[..n]) && ps[n] > 0.0
  {}

  /** Alerts are never taken back. */
  lemma StillAlerted(stepper: Step<PairState, Tick>, ticks: seq<Tick>, t: Tick)
    requires Run(stepper, INITIAL, ticks).1 != []
    ensures Run(stepper, INITIAL, ticks + [t]).1 != []
  {
    RunExtends(stepper, INITIAL, ticks, t);
    hide Run;
  }
}
