/** What a run guarantees: the effect of one attempt on each path, the
    timings of the exchange, the accounting of attempts and bytes, the
    energy baseline, and when a wake-up collides. */
module EngineProperties {
  import opened Params
  import opened Configs
  import opened Ledger
  import opened Scheduler
  import opened Engine

  /** The phases of an exchange follow one another with the fixed gaps, each
      of positive length, and the wake-up and data lengths the configuration
      table gives. */
  lemma ExchangeTiming(c: Config, a: Attempt)
    ensures var w, k, d := WakeOf(c, a), AckOf(c, a), DataOf(c, a);
      w.start == a.time + 0.5 && w.end - w.start == (if c == Simultaneous then 1.0 else 3.0) &&
      k.start == w.end + 0.1 && k.end - k.start == 0.7 &&
      d.start == k.end + 0.05 && d.end - d.start == (if c == Sequential then 9.0 else 3.0) &&
      w.start < w.end < k.start < k.end < d.start < d.end &&
      w.sender == a.node && w.target == a.target && w.phase == Wake &&
      k.sender == a.target && k.target == a.node && k.phase == Ack &&
      d.sender == a.node && d.target == a.target && d.phase == Data
  {
  }

  /** A collided attempt adds its wake-up to the ledger and 13 bytes to the
      sender's bytes sent, delivers nothing, counts once, charges the sender
      the timeout at idle current, and charges the target only its listening
      during the sense. */
  lemma StepCollided(c: Config, s: Totals, a: Attempt)
    requires Sized(s, |s.energy|) && InRange(|s.energy|, a) && a.node != a.target
    requires Collides(s.ledger, WakeOf(c, a))
    ensures var s' := Step(c, s, a);
      s'.ledger == s.ledger + [WakeOf(c, a)] &&
      s'.sent[a.node] == s.sent[a.node] + 13 &&
      (forall i :: 0 <= i < |s.sent| && i != a.node ==> s'.sent[i] == s.sent[i]) &&
      s'.success == s.success &&
      s'.done == s.done + 1 &&
      s'.energy[a.node] == s.energy[a.node] + Energy(ISense, TauSense) + Energy(WakeCurrent(c), WakeDuration(c))
                           + Energy(IIdle, TauTxW + TauTxAck + TauSafe) &&
      s'.energy[a.target] == s.energy[a.target] + Energy(IReceive, TauSense / 2.0) &&
      (forall i :: 0 <= i < |s.energy| && i != a.node && i != a.target ==> s'.energy[i] == s.energy[i])
  {
  }

  /** A completed attempt appends wake-up, acknowledgement and data in that
      order, adds 46 bytes sent and 24 bytes delivered to the sender only,
      and counts once. */
  lemma StepCompleted(c: Config, s: Totals, a: Attempt)
    requires Sized(s, |s.energy|) && InRange(|s.energy|, a) && a.node != a.target
    requires !Collides(s.ledger, WakeOf(c, a))
    ensures var s' := Step(c, s, a);
      s'.ledger == s.ledger + [WakeOf(c, a), AckOf(c, a), DataOf(c, a)] &&
      s'.sent[a.node] == s.sent[a.node] + 46 &&
      s'.success[a.node] == s.success[a.node] + 24 &&
      (forall i :: 0 <= i < |s.sent| && i != a.node ==> s'.sent[i] == s.sent[i] && s'.success[i] == s.success[i]) &&
      s'.done == s.done + 1 &&
      s'.energy[a.node] == s.energy[a.node] + Energy(ISense, TauSense) + Energy(WakeCurrent(c), WakeDuration(c))
                           + Energy(IReceive, TauTxAck) + Energy(DataCurrent(c), DataDuration(c)) &&
      s'.energy[a.target] == s.energy[a.target] + Energy(IReceive, TauSense / 2.0) + Energy(IReceive, WakeDuration(c))
                             + Energy(AckCurrent(c), TauTxAck) + Energy(IReceive, DataDuration(c)) &&
      (forall i :: 0 <= i < |s.energy| && i != a.node && i != a.target ==> s'.energy[i] == s.energy[i])
  {
  }

  /** Every charge of an attempt is positive, on either path. */
  lemma ChargesPositive(c: Config, collided: bool)
    ensures SenderCharge(c, collided) > 0.0 && TargetCharge(c, collided) > 0.0
  {
  }

  /** The invariant of the accumulator and the ledger. */
  predicate Consistent(s: Totals)
  {
    (forall i :: 0 <= i < |s.sent| && i < |s.success| ==> 0 <= s.success[i] <= s.sent[i]) &&
    (forall i :: 0 <= i < |s.energy| ==> s.energy[i] >= 0.0) &&
    (forall k :: 0 <= k < |s.ledger| ==> s.ledger[k].start < s.ledger[k].end)
  }

  /** No total ever decreases from one state to the next. */
  predicate Grows(s: Totals, s': Totals)
    requires Sized(s, |s.energy|) && Sized(s', |s.energy|)
  {
    (forall i :: 0 <= i < |s.energy| ==>
      s.energy[i] <= s'.energy[i] && s.sent[i] <= s'.sent[i] && s.success[i] <= s'.success[i]) &&
    s.done <= s'.done && s.ledger <= s'.ledger
  }

  /** One attempt keeps the invariant and never decreases a total. */
  lemma StepConsistent(c: Config, s: Totals, a: Attempt)
    requires Sized(s, |s.energy|) && InRange(|s.energy|, a) && Consistent(s)
    ensures Consistent(Step(c, s, a)) && Grows(s, Step(c, s, a))
  {
    ChargesPositive(c, true);
    ChargesPositive(c, false);
    ExchangeTiming(c, a);
  }

  /** Every state of a run is consistent. */
  lemma {:induction false} RunConsistent(c: Config, n: nat, attempts: seq<Attempt>)
    requires AllInRange(n, attempts)
    ensures Consistent(Run(c, n, attempts))
    decreases |attempts|
  {
    if attempts != [] {
      var p := attempts[..|attempts| - 1];
      RunConsistent(c, n, p);
      StepConsistent(c, Run(c, n, p), attempts[|attempts| - 1]);
    }
  }

  /** Totals only grow as a run proceeds: the state after any prefix of the
      attempts is below the state after all of them. */
  lemma {:induction false} RunGrows(c: Config, n: nat, attempts: seq<Attempt>, k: nat)
    requires AllInRange(n, attempts) && k <= |attempts|
    ensures Grows(Run(c, n, attempts[..k]), Run(c, n, attempts))
    decreases |attempts| - k
  {
    if k < |attempts| {
      var p := attempts[..|attempts| - 1];
      assert attempts[..k] == p[..k];
      RunGrows(c, n, p, k);
      RunConsistent(c, n, p);
      StepConsistent(c, Run(c, n, p), attempts[|attempts| - 1]);
    } else {
      assert attempts[..k] == attempts;
    }
  }

  /** Every attempt is processed exactly once. */
  lemma {:induction false} AttemptsCounted(c: Config, n: nat, attempts: seq<Attempt>)
    requires AllInRange(n, attempts)
    ensures Run(c, n, attempts).done == |attempts|
    decreases |attempts|
  {
    if attempts != [] {
      AttemptsCounted(c, n, attempts[..|attempts| - 1]);
    }
  }

  /** The number of attempts whose wake-up did not collide. */
  function Completed(c: Config, n: nat, attempts: seq<Attempt>): nat
    requires AllInRange(n, attempts)
    decreases |attempts|
  {
    if attempts == [] then 0
    else
      var p := attempts[..|attempts| - 1];
      Completed(c, n, p) + (if Collides(Run(c, n, p).ledger, WakeOf(c, attempts[|attempts| - 1])) then 0 else 1)
  }

  lemma {:induction false} SumCredit(s: seq<int>, i: nat, d: int)
    requires i < |s|
    ensures Sum(s[i := s[i] + d]) == Sum(s) + d
  {
    if i > 0 {
      SumCredit(s[1..], i - 1, d);
      assert s[i := s[i] + d][1..] == s[1..][i - 1 := s[1..][i - 1] + d];
    }
  }

  lemma {:induction false} SumZeros(n: nat)
    ensures Sum(seq(n, _ => 0)) == 0
  {
    if n > 0 {
      assert seq(n, _ => 0)[1..] == seq(n - 1, _ => 0);
      SumZeros(n - 1);
    }
  }

  /** The network-wide bytes: 24 delivered per completed attempt; 13 sent
      per collided attempt and 46 per completed one. */
  lemma {:induction false} ByteTotals(c: Config, n: nat, attempts: seq<Attempt>)
    requires AllInRange(n, attempts)
    ensures Completed(c, n, attempts) <= |attempts|
    ensures Sum(Run(c, n, attempts).success) == 24 * Completed(c, n, attempts)
    ensures Sum(Run(c, n, attempts).sent) ==
      13 * (|attempts| - Completed(c, n, attempts)) + 46 * Completed(c, n, attempts)
    decreases |attempts|
  {
    if attempts == [] {
      SumZeros(n);
    } else {
      var p := attempts[..|attempts| - 1];
      var a := attempts[|attempts| - 1];
      var s := Run(c, n, p);
      ByteTotals(c, n, p);
      StepBytes(c, s, a);
      SumCredit(s.sent, a.node, if Collides(s.ledger, WakeOf(c, a)) then 13 else 46);
      SumCredit(s.success, a.node, 24);
    }
  }

  /** The byte counters after one attempt, on each path. */
  lemma StepBytes(c: Config, s: Totals, a: Attempt)
    requires Sized(s, |s.energy|) && InRange(|s.energy|, a)
    ensures var s' := Step(c, s, a);
      if Collides(s.ledger, WakeOf(c, a)) then
        s'.sent == s.sent[a.node := s.sent[a.node] + 13] && s'.success == s.success
      else
        s'.sent == s.sent[a.node := s.sent[a.node] + 46] && s'.success == s.success[a.node := s.success[a.node] + 24]
  {
  }

  /** Whether node `i` takes part in none of the attempts. */
  predicate Untouched(attempts: seq<Attempt>, i: nat)
  {
    forall j :: 0 <= j < |attempts| ==> attempts[j].node != i && attempts[j].target != i
  }

  /** A node in no attempt keeps zero totals through the run. */
  lemma {:induction false} UntouchedStaysZero(c: Config, n: nat, attempts: seq<Attempt>, i: nat)
    requires AllInRange(n, attempts) && i < n && Untouched(attempts, i)
    ensures var s := Run(c, n, attempts); s.energy[i] == 0.0 && s.sent[i] == 0 && s.success[i] == 0
    decreases |attempts|
  {
    if attempts != [] {
      UntouchedStaysZero(c, n, attempts[..|attempts| - 1], i);
    }
  }

  /** What a run reports: every attempt counted, delivered bytes 24 per
      completed attempt and equal to the sum of the per-node column, bytes
      delivered within bytes sent, every node's energy at least the idle
      baseline, and exactly the baseline for a node in no attempt. */
  lemma RunReport(c: Config, n: nat, simTime: real, attempts: seq<Attempt>)
    requires AllInRange(n, attempts)
    ensures var r := Outcome(c, n, simTime, attempts);
      |r.energy| == n && |r.bytesSent| == n && |r.bytesSuccess| == n &&
      r.attemptsDone == |attempts| &&
      r.totalThroughput == Sum(r.bytesSuccess) == 24 * Completed(c, n, attempts) &&
      (forall i :: 0 <= i < n ==> 0 <= r.bytesSuccess[i] <= r.bytesSent[i]) &&
      (forall i :: 0 <= i < n ==> r.energy[i] >= IdleBaseline(simTime)) &&
      (forall i :: 0 <= i < n && Untouched(attempts, i) ==>
        r.energy[i] == IdleBaseline(simTime) && r.bytesSent[i] == 0 && r.bytesSuccess[i] == 0)
  {
    AttemptsCounted(c, n, attempts);
    ByteTotals(c, n, attempts);
    RunConsistent(c, n, attempts);
    forall i | 0 <= i < n && Untouched(attempts, i)
      ensures Run(c, n, attempts).energy[i] == 0.0 && Run(c, n, attempts).sent[i] == 0 && Run(c, n, attempts).success[i] == 0
    {
      UntouchedStaysZero(c, n, attempts, i);
    }
  }

  /** With no attempts, nothing is sent or delivered and every node burns
      exactly the idle baseline. */
  lemma NoTraffic(c: Config, n: nat, simTime: real)
    ensures var r := Outcome(c, n, simTime, []);
      r.attemptsDone == 0 && r.totalThroughput == 0 &&
      forall i :: 0 <= i < n ==> r.energy[i] == IdleBaseline(simTime) && r.bytesSent[i] == 0 && r.bytesSuccess[i] == 0
  {
    RunReport(c, n, simTime, []);
  }

  /** The wake-ups in the ledger are exactly the wake-ups of the attempts
      walked so far, whether they collided or not. */
  lemma {:induction false} WakeEntries(c: Config, n: nat, attempts: seq<Attempt>)
    requires AllInRange(n, attempts)
    ensures var l := Run(c, n, attempts).ledger;
      (forall k :: 0 <= k < |l| && l[k].phase == Wake ==> exists j :: 0 <= j < |attempts| && l[k] == WakeOf(c, attempts[j])) &&
      (forall j :: 0 <= j < |attempts| ==> WakeOf(c, attempts[j]) in l)
    decreases |attempts|
  {
    if attempts != [] {
      var p := attempts[..|attempts| - 1];
      var a := attempts[|attempts| - 1];
      WakeEntries(c, n, p);
      var l0 := Run(c, n, p).ledger;
      var l := Run(c, n, attempts).ledger;
      assert forall j :: 0 <= j < |p| ==> p[j] == attempts[j];
      forall k | 0 <= k < |l| && l[k].phase == Wake
        ensures exists j :: 0 <= j < |attempts| && l[k] == WakeOf(c, attempts[j])
      {
        if k < |l0| {
          assert l[k] == l0[k];
          var j :| 0 <= j < |p| && l0[k] == WakeOf(c, p[j]);
          assert attempts[j] == p[j];
        } else {
          assert l[k] == WakeOf(c, a);
        }
      }
      forall j | 0 <= j < |attempts|
        ensures WakeOf(c, attempts[j]) in l
      {
        if j < |p| {
          assert WakeOf(c, p[j]) in l0;
        } else {
          assert l[|l0|] == WakeOf(c, a);
        }
      }
    }
  }

  /** Two wake-ups of the same length overlap exactly when their attempts lie
      less than that length apart. */
  lemma WakesOverlap(c: Config, a: Attempt, b: Attempt)
    ensures Overlaps(WakeOf(c, b), WakeOf(c, a)) <==>
      a.time - WakeDuration(c) < b.time < a.time + WakeDuration(c)
  {
  }

  /** A wake-up collides exactly when an attempt already walked, to the same
      target, lies less than one wake-up length away in time. */
  lemma CollisionIffNearby(c: Config, n: nat, attempts: seq<Attempt>, a: Attempt)
    requires AllInRange(n, attempts)
    ensures Collides(Run(c, n, attempts).ledger, WakeOf(c, a)) <==>
      exists j :: 0 <= j < |attempts| && attempts[j].target == a.target &&
        a.time - WakeDuration(c) < attempts[j].time < a.time + WakeDuration(c)
  {
    var l := Run(c, n, attempts).ledger;
    var w := WakeOf(c, a);
    WakeEntries(c, n, attempts);
    if Collides(l, w) {
      var k :| 0 <= k < |l| && l[k].target == w.target && l[k].phase == Wake && Overlaps(l[k], w);
      var j :| 0 <= j < |attempts| && l[k] == WakeOf(c, attempts[j]);
      WakesOverlap(c, a, attempts[j]);
    }
    if exists j :: 0 <= j < |attempts| && attempts[j].target == a.target &&
         a.time - WakeDuration(c) < attempts[j].time < a.time + WakeDuration(c) {
      var j :| 0 <= j < |attempts| && attempts[j].target == a.target &&
        a.time - WakeDuration(c) < attempts[j].time < a.time + WakeDuration(c);
      var x := WakeOf(c, attempts[j]);
      assert x in l;
      var k :| 0 <= k < |l| && l[k] == x;
      WakesOverlap(c, a, attempts[j]);
      assert l[k].target == w.target && l[k].phase == Wake && Overlaps(l[k], w);
    }
  }

  /** In a time-sorted stream, attempt i collides exactly when an earlier
      attempt to the same target started less than one wake-up length before. */
  lemma CollisionIffRecent(c: Config, n: nat, attempts: seq<Attempt>, i: nat)
    requires AllInRange(n, attempts) && SortedByTime(attempts) && i < |attempts|
    ensures Collides(Run(c, n, attempts[..i]).ledger, WakeOf(c, attempts[i])) <==>
      exists j :: 0 <= j < i && attempts[j].target == attempts[i].target &&
        attempts[i].time - attempts[j].time < WakeDuration(c)
  {
    var p := attempts[..i];
    CollisionIffNearby(c, n, p, attempts[i]);
    assert forall j :: 0 <= j < i ==> p[j] == attempts[j];
  }
}
