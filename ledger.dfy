/** The transmission ledger and the collision detector that scans it. */
module Ledger {

  /** Which message of an exchange a transmission carries. */
  datatype Phase = Wake | Ack | Data

  /** One ledger entry: a transmission over the half-open interval [start, end). */
  datatype Transmission = Transmission(start: real, end: real, sender: nat, target: nat, phase: Phase)

  /** Half-open interval intersection test between two transmissions. */
  predicate Overlaps(x: Transmission, y: Transmission)
  {
    !(x.end <= y.start || x.start >= y.end)
  }

  /** Whether some wake-up in `earlier`, addressed to the same target as the
      candidate wake-up `w`, overlaps it in time. */
  predicate Collides(earlier: seq<Transmission>, w: Transmission)
  {
    exists i :: 0 <= i < |earlier| && earlier[i].target == w.target && earlier[i].phase == Wake && Overlaps(earlier[i], w)
  }

  /** The collision scan: walk the earlier entries in order and stop at the
      first wake-up to the same target whose interval overlaps `w`. */
  method ScanForCollision(earlier: seq<Transmission>, w: Transmission) returns (collided: bool)
    ensures collided <==> Collides(earlier, w)
  {
    collided := false;
    var i := 0;
    while i < |earlier|
      invariant 0 <= i <= |earlier|
      invariant forall j :: 0 <= j < i ==> !(earlier[j].target == w.target && earlier[j].phase == Wake && Overlaps(earlier[j], w))
    {
      var tr := earlier[i];
      if tr.target == w.target && tr.phase == Wake {
        if Overlaps(tr, w) {
          collided := true;
          break;
        }
      }
      i := i + 1;
    }
  }

  /** For intervals of positive length, the test is the usual strict
      intersection of the two intervals, and it is symmetric. */
  lemma OverlapsIff(x: Transmission, y: Transmission)
    ensures Overlaps(x, y) <==> x.start < y.end && y.start < x.end
    ensures Overlaps(x, y) <==> Overlaps(y, x)
  {
  }

  /** A wake-up of positive length always overlaps itself, so scanning the
      ledger including the just-appended entry would report every attempt
      as collided: that is why the scan excludes it. */
  lemma {:induction false} SelfWouldCollide(earlier: seq<Transmission>, w: Transmission)
    requires w.phase == Wake && w.start < w.end
    ensures Collides(earlier + [w], w)
  {
    var l := earlier + [w];
    assert l[|earlier|] == w;
  }

  /** Appending entries: a collision with `l + m` is a collision with `l` or with `m`. */
  lemma {:induction false} CollidesAppend(l: seq<Transmission>, m: seq<Transmission>, w: Transmission)
    ensures Collides(l + m, w) <==> Collides(l, w) || Collides(m, w)
  {
    if Collides(l + m, w) {
      var i :| 0 <= i < |l + m| && (l + m)[i].target == w.target && (l + m)[i].phase == Wake && Overlaps((l + m)[i], w);
      if i >= |l| {
        assert m[i - |l|] == (l + m)[i];
      }
    }
    if Collides(m, w) {
      var i :| 0 <= i < |m| && m[i].target == w.target && m[i].phase == Wake && Overlaps(m[i], w);
      assert (l + m)[|l| + i] == m[i];
    }
    if Collides(l, w) {
      var i :| 0 <= i < |l| && l[i].target == w.target && l[i].phase == Wake && Overlaps(l[i], w);
      assert (l + m)[i] == l[i];
    }
  }

  /** Acknowledgement and data entries never cause a collision: appending
      them leaves the verdict for every later wake-up unchanged. */
  lemma {:induction false} NonWakeIgnored(l: seq<Transmission>, m: seq<Transmission>, w: Transmission)
    requires forall k :: 0 <= k < |m| ==> m[k].phase != Wake
    ensures Collides(l + m, w) <==> Collides(l, w)
  {
    CollidesAppend(l, m, w);
  }
}
