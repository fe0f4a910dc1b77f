/** The three coil configurations and the per-phase durations and currents
    each one selects. */
module Configs {
  import opened Params

  /** config1 is sequential, config2 simultaneous, every other name hybrid. */
  datatype Config = Sequential | Simultaneous | Hybrid

  /** The configuration a run name selects: the comparisons are made with
      "config1" then "config2", and any other name falls to the hybrid branch. */
  function ConfigOf(name: string): (c: Config)
    ensures c == Sequential <==> name == "config1"
    ensures c == Simultaneous <==> name == "config2"
    ensures c == Hybrid <==> name != "config1" && name != "config2"
  {
    if name == "config1" then Sequential
    else if name == "config2" then Simultaneous
    else Hybrid
  }

  /** Wake-up burst length: only the simultaneous configuration uses the short burst. */
  function WakeDuration(c: Config): (d: real)
    ensures d > 0.0
    ensures d < 3.0 * TauTxW <==> c == Simultaneous
  {
    match c
    case Sequential => TauTxW * 3.0
    case Simultaneous => TauTxW
    case Hybrid => TauTxW * 3.0
  }

  /** Wake-up drive current: only the sequential configuration drives it low. */
  function WakeCurrent(c: Config): (i: real)
    ensures i > 0.0
    ensures i == ITxLow <==> c == Sequential
    ensures i != ITxLow ==> i == ITxHigh
  {
    match c
    case Sequential => ITxLow
    case Simultaneous => ITxHigh
    case Hybrid => ITxHigh
  }

  /** Acknowledgement drive current: high only under the simultaneous configuration. */
  function AckCurrent(c: Config): (i: real)
    ensures i > 0.0
    ensures i == ITxHigh <==> c == Simultaneous
    ensures i != ITxHigh ==> i == ITxLow
  {
    if c == Simultaneous then ITxHigh else ITxLow
  }

  /** Data payload length: only the sequential configuration stretches it threefold. */
  function DataDuration(c: Config): (d: real)
    ensures d > 0.0
    ensures d > TauTxData <==> c == Sequential
  {
    match c
    case Sequential => TauTxData * 3.0
    case Simultaneous => TauTxData
    case Hybrid => TauTxData
  }

  /** Data drive current: high only under the simultaneous configuration. */
  function DataCurrent(c: Config): (i: real)
    ensures i > 0.0
    ensures i == ITxHigh <==> c == Simultaneous
    ensures i != ITxHigh ==> i == ITxLow
  {
    match c
    case Sequential => ITxLow
    case Simultaneous => ITxHigh
    case Hybrid => ITxLow
  }
}
