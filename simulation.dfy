/** One run of the simulation for a named configuration: generate the
    attempt stream for the fixed node count and horizon, then walk it. */
module Simulation {
  import opened Params
  import opened Configs
  import opened Scheduler
  import opened Engine

  /** Run the configuration `name` over the attempts the draws generate for
      N nodes and a horizon of SimTime ms. */
  method RunSimulation(name: string, draws: seq<seq<Draw>>) returns (result: RunResult)
    requires ValidDraws(N, SimTime, draws)
    ensures ScheduleSpec(N, SimTime, draws).Scheduled?
    ensures AllInRange(N, ScheduleSpec(N, SimTime, draws).attempts)
    ensures result == Outcome(ConfigOf(name), N, SimTime, ScheduleSpec(N, SimTime, draws).attempts)
  {
    var schedule := ScheduleAttempts(N, SimTime, draws);
    ScheduleWellFormed(N, SimTime, draws);
    result := Simulate(ConfigOf(name), N, SimTime, schedule.attempts);
  }
}

/** The end-to-end scenarios of a run, worked out on concrete streams. */
module Scenarios {
  import opened Params
  import opened Configs
  import opened Ledger
  import opened Scheduler
  import opened Engine

  /** One attempt from node 0 to node 1 at 5 ms, sequential: it completes,
      and the bytes are credited to the sender, not the target. */
  lemma SingleAttempt()
    ensures var r := Outcome(Sequential, 2, 200.0, [Attempt(0, 5.0, 1)]);
      r.attemptsDone == 1 && r.totalThroughput == 24 &&
      r.bytesSent == [46, 0] && r.bytesSuccess == [24, 0]
  {
    var a := Attempt(0, 5.0, 1);
    var s0 := Initial(2);
    assert [a][..0] == [];
    assert Run(Sequential, 2, [a]) == Step(Sequential, s0, a);
    assert !Collides(s0.ledger, WakeOf(Sequential, a));
    var s1 := Step(Sequential, s0, a);
    assert s1.sent == [46, 0] && s1.success == [24, 0];
  }

  /** Two attempts to node 1, 1 ms apart, sequential: the wake-ups overlap,
      so the later one collides, sending only its wake-up and delivering
      nothing. */
  lemma ForcedCollision()
    ensures var r := Outcome(Sequential, 3, 200.0, [Attempt(0, 5.0, 1), Attempt(2, 6.0, 1)]);
      r.attemptsDone == 2 && r.totalThroughput == 24 &&
      r.bytesSent == [46, 0, 13] && r.bytesSuccess == [24, 0, 0]
  {
    var a, b := Attempt(0, 5.0, 1), Attempt(2, 6.0, 1);
    var s0 := Initial(3);
    assert [a, b][..1] == [a] && [a][..0] == [];
    assert Run(Sequential, 3, [a]) == Step(Sequential, s0, a);
    assert !Collides(s0.ledger, WakeOf(Sequential, a));
    var s1 := Step(Sequential, s0, a);
    assert s1.sent == [46, 0, 0] && s1.success == [24, 0, 0];
    assert s1.ledger[0] == WakeOf(Sequential, a);
    assert Collides(s1.ledger, WakeOf(Sequential, b));
    assert Run(Sequential, 3, [a, b]) == Step(Sequential, s1, b);
    var s2 := Step(Sequential, s1, b);
    assert s2.sent == [46, 0, 13] && s2.success == [24, 0, 0];
  }
}
