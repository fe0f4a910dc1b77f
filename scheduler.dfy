/** The arrival generator: per-node renewal processes of attempt times,
    random peer selection, and the merge sorted by time. The random draws are
    passed in: for every node a sequence of `Draw`s, each holding the
    exponential gap and the index the peer choice would take. */
module Scheduler {

  /** One communication attempt: `node` wants to reach `target` at `time` (ms). */
  datatype Attempt = Attempt(node: nat, time: real, target: nat)

  /** One random draw of a node's renewal process: the inter-arrival gap and
      the index into the list of peers chosen for the attempt. */
  datatype Draw = Draw(gap: real, pick: nat)

  /** The generator's outcome: the time-sorted attempts, or the failure of
      choosing a peer when a node has none. */
  datatype Schedule = Scheduled(attempts: seq<Attempt>) | NoPeer

  /** Every node other than `node`, in increasing order. */
  function Peers(n: nat, node: nat): (p: seq<nat>)
    ensures |p| == if node < n then n - 1 else n
    ensures forall k :: 0 <= k < |p| ==> p[k] == if k < node then k else k + 1
  {
    if n == 0 then []
    else Peers(n - 1, node) + (if n - 1 == node then [] else [n - 1])
  }

  /** Sum of the gaps of a run of draws. */
  function GapSum(ds: seq<Draw>): real
  {
    if ds == [] then 0.0 else ds[0].gap + GapSum(ds[1..])
  }

  /** What the random source guarantees: `n` streams of non-negative gaps,
      picks that index the n - 1 peers, and in every stream enough gaps to
      pass the horizon. */
  predicate ValidDraws(n: nat, simTime: real, draws: seq<seq<Draw>>)
  {
    |draws| == n &&
    (forall node, k :: 0 <= node < n && 0 <= k < |draws[node]| ==>
      draws[node][k].gap >= 0.0 && (n >= 2 ==> draws[node][k].pick < n - 1)) &&
    (forall node :: 0 <= node < n ==> GapSum(draws[node]) >= simTime)
  }

  /** The attempts of `node` from time `t` on: each draw advances the clock by
      its gap; the first time at or past the horizon is discarded and ends the
      train. */
  function Train(n: nat, node: nat, simTime: real, t: real, ds: seq<Draw>): (train: seq<Attempt>)
    requires 2 <= n && node < n
    requires forall k :: 0 <= k < |ds| ==> ds[k].gap >= 0.0 && ds[k].pick < n - 1
    ensures |train| <= |ds|
    ensures forall k :: 0 <= k < |train| ==>
      train[k].node == node && train[k].target < n && train[k].target != node &&
      t <= train[k].time < simTime
    ensures forall j, k :: 0 <= j < k < |train| ==> train[j].time <= train[k].time
    decreases |ds|
  {
    if t >= simTime || ds == [] then []
    else
      var next := t + ds[0].gap;
      if next >= simTime then []
      else [Attempt(node, next, Peers(n, node)[ds[0].pick])] + Train(n, node, simTime, next, ds[1..])
  }

  /** The trains of nodes 0 .. m-1, concatenated in node order. */
  function Generated(n: nat, simTime: real, draws: seq<seq<Draw>>, m: nat): (all: seq<Attempt>)
    requires 2 <= n && ValidDraws(n, simTime, draws) && m <= n
    ensures forall k :: 0 <= k < |all| ==>
      all[k].node < m && all[k].target < n && all[k].target != all[k].node &&
      0.0 <= all[k].time < simTime
  {
    if m == 0 then []
    else Generated(n, simTime, draws, m - 1) + Train(n, m - 1, simTime, 0.0, draws[m - 1])
  }

  /** Whether the first draw of a stream lands inside the horizon. */
  predicate FirstArrival(simTime: real, ds: seq<Draw>)
  {
    0.0 < simTime && ds != [] && ds[0].gap < simTime
  }

  predicate SortedByTime(s: seq<Attempt>)
  {
    forall i, j :: 0 <= i < j < |s| ==> s[i].time <= s[j].time
  }

  /** Insert `a` after every element whose time is not later than its own. */
  function InsertByTime(a: Attempt, s: seq<Attempt>): (r: seq<Attempt>)
    requires SortedByTime(s)
    ensures SortedByTime(r)
    ensures forall x :: x in r ==> x == a || x in s
    ensures multiset(r) == multiset(s) + multiset{a}
  {
    if s == [] then [a]
    else if a.time < s[0].time then [a] + s
    else
      var rest := InsertByTime(a, s[1..]);
      assert s == [s[0]] + s[1..];
      assert forall x :: x in rest ==> s[0].time <= x.time;
      [s[0]] + rest
  }

  /** A stable sort by time: later elements are inserted after equal times. */
  function SortByTime(s: seq<Attempt>): (r: seq<Attempt>)
    ensures SortedByTime(r)
    ensures multiset(r) == multiset(s)
  {
    if s == [] then []
    else
      assert s == s[..|s| - 1] + [s[|s| - 1]];
      InsertByTime(s[|s| - 1], SortByTime(s[..|s| - 1]))
  }

  /** The generator's result: every node's train, merged and sorted by time.
      With fewer than two nodes the first retained attempt finds no peer. */
  function ScheduleSpec(n: nat, simTime: real, draws: seq<seq<Draw>>): Schedule
    requires ValidDraws(n, simTime, draws)
  {
    if n >= 2 then Scheduled(SortByTime(Generated(n, simTime, draws, n)))
    else if n == 1 && FirstArrival(simTime, draws[0]) then NoPeer
    else Scheduled([])
  }

  /** The generator itself: for every node a renewal loop that draws gaps
      until the clock passes the horizon and picks a peer for every retained
      time; then all attempts are sorted by time. Choosing a peer from an
      empty list fails. */
  method ScheduleAttempts(n: nat, simTime: real, draws: seq<seq<Draw>>) returns (r: Schedule)
    requires ValidDraws(n, simTime, draws)
    ensures r == ScheduleSpec(n, simTime, draws)
  {
    var attempts: seq<Attempt> := [];
    for node := 0 to n
      invariant n >= 2 ==> attempts == Generated(n, simTime, draws, node)
      invariant n < 2 ==> attempts == [] && (node > 0 ==> !FirstArrival(simTime, draws[0]))
    {
      var ds := draws[node];
      var t := 0.0;
      var k := 0;
      while t < simTime
        invariant 0 <= k <= |ds|
        invariant t + GapSum(ds[k..]) >= simTime
        invariant n >= 2 ==> attempts + Train(n, node, simTime, t, ds[k..]) == Generated(n, simTime, draws, node + 1)
        invariant n < 2 ==> k == 0 && t == 0.0 && attempts == []
        decreases |ds| - k
      {
        assert ds[k..] != [];
        assert ds[k..][0] == ds[k] && ds[k..][1..] == ds[k + 1..];
        ghost var before := t;
        t := t + ds[k].gap;
        if t >= simTime {
          assert n >= 2 ==> Train(n, node, simTime, before, ds[k..]) == [];
          break;
        }
        var peers := Peers(n, node);
        if |peers| == 0 {
          return NoPeer;
        }
        var target := peers[ds[k].pick];
        assert n >= 2 ==>
          (Train(n, node, simTime, before, ds[k..]) == [Attempt(node, t, target)] + Train(n, node, simTime, t, ds[k + 1..]));
        attempts := attempts + [Attempt(node, t, target)];
        k := k + 1;
      }
    }
    r := Scheduled(SortByTime(attempts));
  }

  /** A train holds exactly the prefix sums of the gaps that stay below the
      horizon: its k-th time is the clock advanced by the first k + 1 gaps,
      and the draw after the last retained one overshoots the horizon. */
  lemma {:induction false} TrainTimes(n: nat, node: nat, simTime: real, t: real, ds: seq<Draw>)
    requires 2 <= n && node < n
    requires forall k :: 0 <= k < |ds| ==> ds[k].gap >= 0.0 && ds[k].pick < n - 1
    ensures var train := Train(n, node, simTime, t, ds);
      (forall k :: 0 <= k < |train| ==> train[k].time == t + GapSum(ds[..k + 1])) &&
      (t < simTime && |train| < |ds| ==> t + GapSum(ds[..|train| + 1]) >= simTime)
    decreases |ds|
  {
    if t < simTime && ds != [] {
      var next := t + ds[0].gap;
      assert GapSum(ds[..1]) == ds[0].gap by {
        assert ds[..1][1..] == [];
      }
      if next < simTime {
        TrainTimes(n, node, simTime, next, ds[1..]);
        forall k | 0 <= k < |ds|
          ensures GapSum(ds[..k + 1]) == ds[0].gap + GapSum(ds[1..][..k])
        {
          assert ds[..k + 1][1..] == ds[1..][..k];
        }
      }
    }
  }

  /** The generator's output is sorted by time, and every attempt names two
      distinct nodes in range at a time inside the horizon. */
  lemma ScheduleWellFormed(n: nat, simTime: real, draws: seq<seq<Draw>>)
    requires ValidDraws(n, simTime, draws)
    requires ScheduleSpec(n, simTime, draws).Scheduled?
    ensures var s := ScheduleSpec(n, simTime, draws).attempts;
      SortedByTime(s) &&
      forall i :: 0 <= i < |s| ==>
        s[i].node < n && s[i].target < n && s[i].target != s[i].node && 0.0 <= s[i].time < simTime
  {
    if n >= 2 {
      var g := Generated(n, simTime, draws, n);
      var s := SortByTime(g);
      forall i | 0 <= i < |s|
        ensures s[i].node < n && s[i].target < n && s[i].target != s[i].node && 0.0 <= s[i].time < simTime
      {
        assert s[i] in multiset(g);
      }
    }
  }

  /** With at least two nodes the generator always succeeds; with one node it
      fails exactly when that node's first draw lands inside the horizon. */
  lemma ScheduleFails(n: nat, simTime: real, draws: seq<seq<Draw>>)
    requires ValidDraws(n, simTime, draws)
    ensures ScheduleSpec(n, simTime, draws) == NoPeer <==> n == 1 && 0.0 < simTime && draws[0][0].gap < simTime
  {
    if n == 1 && 0.0 < simTime {
      assert GapSum(draws[0]) >= simTime;
    }
  }
}
