/** The per-attempt protocol walk and the per-node accounting of one run.
    `Step`, `Run` and `Outcome` say what a run computes; the `Simulator`
    class does it in place over arrays and is proved against them. */
module Engine {
  import opened Params
  import opened Configs
  import opened Ledger
  import opened Scheduler

  /** The accumulator and ledger of a run at some point: per-node energy (J),
      bytes sent and bytes delivered, every transmission so far, and the
      number of attempts processed. */
  datatype Totals = Totals(energy: seq<real>, sent: seq<int>, success: seq<int>, ledger: seq<Transmission>, done: nat)

  /** What a run reports: the per-node table, the network-wide delivered
      bytes and the number of attempts processed. */
  datatype RunResult = RunResult(energy: seq<real>, bytesSent: seq<int>, bytesSuccess: seq<int>, totalThroughput: int, attemptsDone: nat)

  predicate Sized(s: Totals, n: nat)
  {
    |s.energy| == n && |s.sent| == n && |s.success| == n
  }

  predicate InRange(n: nat, a: Attempt)
  {
    a.node < n && a.target < n
  }

  predicate AllInRange(n: nat, attempts: seq<Attempt>)
  {
    forall i :: 0 <= i < |attempts| ==> InRange(n, attempts[i])
  }

  /** The wake-up an attempt transmits once it has sensed the channel. */
  function WakeOf(c: Config, a: Attempt): Transmission
  {
    var start := a.time + TauSense;
    Transmission(start, start + WakeDuration(c), a.node, a.target, Wake)
  }

  /** The acknowledgement the target sends back after the wake-up. */
  function AckOf(c: Config, a: Attempt): Transmission
  {
    var start := WakeOf(c, a).end + AckGap;
    Transmission(start, start + TauTxAck, a.target, a.node, Ack)
  }

  /** The data payload the sender transmits after the acknowledgement. */
  function DataOf(c: Config, a: Attempt): Transmission
  {
    var start := AckOf(c, a).end + DataGap;
    Transmission(start, start + DataDuration(c), a.node, a.target, Data)
  }

  /** Energy charged to the sender of one attempt: sensing and the wake-up,
      then either the no-acknowledgement timeout at idle current, or receiving
      the acknowledgement and transmitting the data. */
  function SenderCharge(c: Config, collided: bool): real
  {
    Energy(ISense, TauSense) + Energy(WakeCurrent(c), WakeDuration(c)) +
    (if collided then Energy(IIdle, TauNoAck)
     else Energy(IReceive, TauTxAck) + Energy(DataCurrent(c), DataDuration(c)))
  }

  /** Energy charged to the target of one attempt: listening during the
      sense, and unless the wake-up collided, receiving it, sending the
      acknowledgement and receiving the data. */
  function TargetCharge(c: Config, collided: bool): real
  {
    Energy(IReceive, TauSense / 2.0) +
    (if collided then 0.0
     else Energy(IReceive, WakeDuration(c)) + Energy(AckCurrent(c), TauTxAck) + Energy(IReceive, DataDuration(c)))
  }

  /** Add the sender's and the target's charges to a per-node energy table. */
  function Charge(e: seq<real>, a: Attempt, toSender: real, toTarget: real): seq<real>
    requires a.node < |e| && a.target < |e|
  {
    seq(|e|, i requires 0 <= i < |e| =>
      e[i] + (if i == a.node then toSender else 0.0) + (if i == a.target then toTarget else 0.0))
  }

  /** Add `x` to entry `i` of a per-node energy table. */
  function Credit(e: seq<real>, i: nat, x: real): (e': seq<real>)
    requires i < |e|
    ensures |e'| == |e|
  {
    e[i := e[i] + x]
  }

  /** Charging an attempt twice charges it the sums. */
  lemma ChargeTwice(e: seq<real>, a: Attempt, x: real, y: real, x': real, y': real)
    requires a.node < |e| && a.target < |e|
    ensures Charge(Charge(e, a, x, y), a, x', y') == Charge(e, a, x + x', y + y')
  {
  }

  /** Crediting the sender of an attempt is charging it with nothing for the target. */
  lemma CreditSender(e: seq<real>, a: Attempt, x: real)
    requires a.node < |e| && a.target < |e|
    ensures Credit(e, a.node, x) == Charge(e, a, x, 0.0)
  {
  }

  /** Crediting the target of an attempt is charging it with nothing for the sender. */
  lemma CreditTarget(e: seq<real>, a: Attempt, x: real)
    requires a.node < |e| && a.target < |e|
    ensures Credit(e, a.target, x) == Charge(e, a, 0.0, x)
  {
  }

  /** One attempt of the protocol: its wake-up is checked against the ledger
      as it stood before; a collided attempt records only the wake-up and its
      bytes, a successful one the whole exchange, both credited to the sender. */
  function Step(c: Config, s: Totals, a: Attempt): (s': Totals)
    requires Sized(s, |s.energy|) && InRange(|s.energy|, a)
    ensures Sized(s', |s.energy|)
  {
    var w := WakeOf(c, a);
    if Collides(s.ledger, w) then
      Totals(Charge(s.energy, a, SenderCharge(c, true), TargetCharge(c, true)),
             s.sent[a.node := s.sent[a.node] + SizeW],
             s.success,
             s.ledger + [w],
             s.done + 1)
    else
      Totals(Charge(s.energy, a, SenderCharge(c, false), TargetCharge(c, false)),
             s.sent[a.node := s.sent[a.node] + (SizeW + SizeAck + SizeData)],
             s.success[a.node := s.success[a.node] + SizeData],
             s.ledger + [w, AckOf(c, a), DataOf(c, a)],
             s.done + 1)
  }

  /** The state at the start of a run: zero totals and an empty ledger. */
  function Initial(n: nat): Totals
  {
    Totals(seq(n, _ => 0.0), seq(n, _ => 0), seq(n, _ => 0), [], 0)
  }

  /** The state after walking `attempts` in order from the initial state. */
  function Run(c: Config, n: nat, attempts: seq<Attempt>): (s: Totals)
    requires AllInRange(n, attempts)
    ensures Sized(s, n)
    decreases |attempts|
  {
    if attempts == [] then Initial(n)
    else Step(c, Run(c, n, attempts[..|attempts| - 1]), attempts[|attempts| - 1])
  }

  /** The state after the idle baseline is added to every node. */
  function Finish(s: Totals, simTime: real): Totals
  {
    s.(energy := seq(|s.energy|, i requires 0 <= i < |s.energy| => s.energy[i] + IdleBaseline(simTime)))
  }

  function Sum(s: seq<int>): int
  {
    if s == [] then 0 else s[0] + Sum(s[1..])
  }

  /** The result of a run over `attempts` with horizon `simTime`. */
  function Outcome(c: Config, n: nat, simTime: real, attempts: seq<Attempt>): RunResult
    requires AllInRange(n, attempts)
  {
    var s := Finish(Run(c, n, attempts), simTime);
    RunResult(s.energy, s.sent, s.success, Sum(s.success), s.done)
  }

  /** The mutable simulation context of one run. */
  class Simulator {
    const n: nat
    const config: Config
    const energy: array<real>
    const bytesSent: array<int>
    const bytesSuccess: array<int>
    var transmissions: seq<Transmission>
    var attemptsDone: nat

    ghost predicate Valid()
      reads this
    {
      energy.Length == n && bytesSent.Length == n && bytesSuccess.Length == n && bytesSent != bytesSuccess
    }

    /** The abstract state the arrays and the ledger hold. */
    ghost function State(): Totals
      reads this, energy, bytesSent, bytesSuccess
    {
      Totals(energy[..], bytesSent[..], bytesSuccess[..], transmissions, attemptsDone)
    }

    constructor (n: nat, config: Config)
      ensures Valid() && this.n == n && this.config == config
      ensures fresh(energy) && fresh(bytesSent) && fresh(bytesSuccess)
      ensures State() == Initial(n)
    {
      this.n := n;
      this.config := config;
      energy := new real[n](_ => 0.0);
      bytesSent := new int[n](_ => 0);
      bytesSuccess := new int[n](_ => 0);
      transmissions := [];
      attemptsDone := 0;
    }

    /** Add `amount` to the energy of node `i`. */
    method AddEnergy(i: nat, amount: real)
      requires Valid() && i < n
      modifies energy
      ensures energy[..] == Credit(old(energy[..]), i, amount)
    {
      energy[i] := energy[i] + amount;
    }

    /** Walk one attempt through sense, wake-up, collision check,
        acknowledgement and data, charging energy and counting bytes. */
    method ProcessAttempt(a: Attempt)
      requires Valid() && InRange(n, a)
      modifies this`transmissions, this`attemptsDone, energy, bytesSent, bytesSuccess
      ensures Valid()
      ensures State() == Step(config, old(State()), a)
    {
      var sender, target := a.node, a.target;
      var time := a.time;
      ghost var e0 := energy[..];

      // Sense the channel
      time := time + TauSense;
      AddEnergy(sender, Energy(ISense, TauSense));
      CreditSender(e0, a, Energy(ISense, TauSense));
      ghost var e1 := energy[..];
      AddEnergy(target, Energy(IReceive, TauSense / 2.0));
      CreditTarget(e1, a, Energy(IReceive, TauSense / 2.0));
      ChargeTwice(e0, a, Energy(ISense, TauSense), 0.0, 0.0, Energy(IReceive, TauSense / 2.0));

      // Transmit the wake-up
      var wDur, iTx := WakeDuration(config), WakeCurrent(config);
      var wStart, wEnd := time, time + wDur;
      var w := Transmission(wStart, wEnd, sender, target, Wake);
      transmissions := transmissions + [w];
      ghost var e2 := energy[..];
      AddEnergy(sender, Energy(iTx, wDur));
      CreditSender(e2, a, Energy(iTx, wDur));
      ChargeTwice(e0, a, Energy(ISense, TauSense), Energy(IReceive, TauSense / 2.0), Energy(iTx, wDur), 0.0);
      time := wEnd;

      // Check for a collision with every earlier entry
      var collided := ScanForCollision(transmissions[..|transmissions| - 1], w);
      assert transmissions[..|transmissions| - 1] == old(transmissions);
      assert w == WakeOf(config, a);

      if collided {
        ghost var e3 := energy[..];
        AddEnergy(sender, Energy(IIdle, TauNoAck));
        CreditSender(e3, a, Energy(IIdle, TauNoAck));
        ChargeTwice(e0, a, Energy(ISense, TauSense) + Energy(iTx, wDur), Energy(IReceive, TauSense / 2.0), Energy(IIdle, TauNoAck), 0.0);
        bytesSent[sender] := bytesSent[sender] + SizeW;
        attemptsDone := attemptsDone + 1;
        return;
      }

      CompleteExchange(a, time);
      ChargeTwice(e0, a, Energy(ISense, TauSense) + Energy(iTx, wDur), Energy(IReceive, TauSense / 2.0),
                  Energy(IReceive, TauTxAck) + Energy(DataCurrent(config), DataDuration(config)),
                  Energy(IReceive, wDur) + Energy(AckCurrent(config), TauTxAck) + Energy(IReceive, DataDuration(config)));
    }

    /** The part of an attempt after a wake-up that did not collide: the
        target receives the wake-up and acknowledges, the sender sends the
        data, and the sender is credited with the bytes of the exchange. */
    method CompleteExchange(a: Attempt, wEnd: real)
      requires Valid() && InRange(n, a) && wEnd == WakeOf(config, a).end
      modifies this`transmissions, this`attemptsDone, energy, bytesSent, bytesSuccess
      ensures Valid()
      ensures energy[..] == Charge(old(energy[..]), a,
        Energy(IReceive, TauTxAck) + Energy(DataCurrent(config), DataDuration(config)),
        Energy(IReceive, WakeDuration(config)) + Energy(AckCurrent(config), TauTxAck) + Energy(IReceive, DataDuration(config)))
      ensures transmissions == old(transmissions) + [AckOf(config, a), DataOf(config, a)]
      ensures bytesSent[..] == old(bytesSent[..])[a.node := old(bytesSent[a.node]) + (SizeW + SizeAck + SizeData)]
      ensures bytesSuccess[..] == old(bytesSuccess[..])[a.node := old(bytesSuccess[a.node]) + SizeData]
      ensures attemptsDone == old(attemptsDone) + 1
    {
      var sender, target := a.node, a.target;
      var time := wEnd;
      ghost var e0 := energy[..];
      AddEnergy(target, Energy(IReceive, WakeDuration(config)));
      CreditTarget(e0, a, Energy(IReceive, WakeDuration(config)));

      // Acknowledgement
      var ackI, ackDur := AckCurrent(config), TauTxAck;
      var ackStart := time + AckGap;
      var ackEnd := ackStart + ackDur;
      transmissions := transmissions + [Transmission(ackStart, ackEnd, target, sender, Ack)];
      ghost var e1 := energy[..];
      AddEnergy(target, Energy(ackI, ackDur));
      CreditTarget(e1, a, Energy(ackI, ackDur));
      ghost var e2 := energy[..];
      AddEnergy(sender, Energy(IReceive, ackDur));
      CreditSender(e2, a, Energy(IReceive, ackDur));
      time := ackEnd;

      // Data
      var dataDur, dataI := DataDuration(config), DataCurrent(config);
      var dataStart := time + DataGap;
      var dataEnd := dataStart + dataDur;
      transmissions := transmissions + [Transmission(dataStart, dataEnd, sender, target, Data)];
      ghost var e3 := energy[..];
      AddEnergy(sender, Energy(dataI, dataDur));
      CreditSender(e3, a, Energy(dataI, dataDur));
      ghost var e4 := energy[..];
      AddEnergy(target, Energy(IReceive, dataDur));
      CreditTarget(e4, a, Energy(IReceive, dataDur));
      bytesSent[sender] := bytesSent[sender] + (SizeW + SizeAck + SizeData);
      bytesSuccess[sender] := bytesSuccess[sender] + SizeData;
      attemptsDone := attemptsDone + 1;

      ChargeTwice(e0, a, 0.0, Energy(IReceive, WakeDuration(config)), 0.0, Energy(ackI, ackDur));
      ChargeTwice(e0, a, 0.0, Energy(IReceive, WakeDuration(config)) + Energy(ackI, ackDur), Energy(IReceive, ackDur), 0.0);
      ChargeTwice(e0, a, Energy(IReceive, ackDur), Energy(IReceive, WakeDuration(config)) + Energy(ackI, ackDur), Energy(dataI, dataDur), 0.0);
      ChargeTwice(e0, a, Energy(IReceive, ackDur) + Energy(dataI, dataDur), Energy(IReceive, WakeDuration(config)) + Energy(ackI, ackDur), 0.0, Energy(IReceive, dataDur));
    }

    /** Charge every node the idle current over the whole horizon. */
    method AddIdleBaseline(simTime: real)
      requires Valid()
      modifies energy
      ensures Valid()
      ensures State() == Finish(old(State()), simTime)
    {
      for i := 0 to n
        invariant forall j :: 0 <= j < i ==> energy[j] == old(energy[j]) + IdleBaseline(simTime)
        invariant forall j :: i <= j < n ==> energy[j] == old(energy[j])
      {
        energy[i] := energy[i] + IdleBaseline(simTime);
      }
    }
  }

  /** One run over an attempt stream: walk every attempt in order, add the
      idle baseline, and total the delivered bytes. */
  method Simulate(config: Config, n: nat, simTime: real, attempts: seq<Attempt>) returns (result: RunResult)
    requires AllInRange(n, attempts)
    ensures result == Outcome(config, n, simTime, attempts)
  {
    var sim := new Simulator(n, config);
    for i := 0 to |attempts|
      invariant sim.Valid() && sim.n == n && sim.config == config
      invariant fresh(sim.energy) && fresh(sim.bytesSent) && fresh(sim.bytesSuccess)
      invariant sim.State() == Run(config, n, attempts[..i])
    {
      assert attempts[..i + 1][..i] == attempts[..i];
      sim.ProcessAttempt(attempts[i]);
    }
    assert attempts[..|attempts|] == attempts;
    sim.AddIdleBaseline(simTime);
    var total := Sum(sim.bytesSuccess[..]);
    result := RunResult(sim.energy[..], sim.bytesSent[..], sim.bytesSuccess[..], total, sim.attemptsDone);
  }
}
