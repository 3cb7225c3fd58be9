/** internal/tick/tick.go and internal/alert/alert.go, without the presentational fields. */
module Ticks {
  import opened Clock

  /** A Go string, byte by byte. */
  type Str = seq<bv8>

  /** The detectors compare the side with "buy" and "sell"; any other string is ignored. */
  datatype Side = Buy | Sell | OtherSide

  datatype Tick = Tick(symbol: Str, exchange: Str, price: real, volume: real, side: Side, timestamp: Time)

  ghost predicate NoNegativeVolume(ticks: seq<Tick>) {
    forall i :: 0 <= i < |ticks| ==> ticks[i].volume >= 0.0
  }

  datatype Detector = VolumeSpike | OrderFlowImbalance | CorrelationBreakdown

  datatype Alert = Alert(detector: Detector, symbol: Str, exchange: Str, value: real, threshold: real, timestamp: Time)
}
