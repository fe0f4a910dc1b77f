/** Simulation parameters of the MI-MAC model: node count, horizon, supply
    voltage, phase durations (ms), currents (A) and packet sizes (bytes). */
module Params {

  /** Number of nodes and simulation horizon (ms) of every run. */
  const N: nat := 10
  const SimTime: real := 200.0

  /** Supply voltage (V). */
  const Vcc: real := 3.3

  // Phase durations (ms)
  const TauTxW: real := 1.0
  const TauTxAck: real := 0.7
  const TauTxData: real := 3.0
  const TauSense: real := 0.5
  const TauSafe: real := 0.3
  /** Time a sender waits for an acknowledgement that never comes. */
  const TauNoAck: real := TauTxW + TauTxAck + TauSafe

  /** Gaps between the end of one phase and the start of the next (ms). */
  const AckGap: real := 0.1
  const DataGap: real := 0.05

  // Currents (A)
  const IIdle: real := 0.00006
  const IReceive: real := 0.00049
  const ISense: real := 0.00074
  const ITxLow: real := 0.22
  const ITxHigh: real := 0.528

  // Packet sizes (bytes)
  const SizeW: nat := 13
  const SizeAck: nat := 9
  const SizeData: nat := 24

  /** Energy (J) drawn at `current` amperes for `duration` milliseconds. */
  function Energy(current: real, duration: real): (e: real)
    ensures current >= 0.0 && duration >= 0.0 ==> e >= 0.0
    ensures current > 0.0 && duration > 0.0 ==> e > 0.0
  {
    (current * Vcc) * (duration / 1000.0)
  }

  /** Energy every node burns idling over a horizon of `simTime` ms. */
  function IdleBaseline(simTime: real): real
  {
    Energy(IIdle, simTime)
  }
}
