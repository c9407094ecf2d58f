/** The counting loop as the program runs it: two counters and two maps
    updated in place, one observation at a time, then the cleanup. */
module DoorCounting {
  import opened Zones
  import opened Tracking

  /** A set of ids that is not empty has a member to pick. */
  lemma NonEmptyHasMember(ids: set<TrackId>)
    requires ids != {}
    ensures exists t :: t in ids
  {
    if forall t :: t !in ids {
      assert false;
    }
  }

  class DoorCounter {
    var entryCount: nat
    var exitCount: nat
    /** Last zone of each live track. */
    var personState: map<TrackId, Zone>
    /** Per-track flag meant to prevent double counting. */
    var countedState: map<TrackId, bool>

    /** The fields, read as a value of the state machine. */
    function Abstract(): State
      reads this
    {
      State(entryCount, exitCount, personState, countedState)
    }

    ghost predicate Valid()
      reads this
    {
      Tracking.Valid(Abstract())
    }

    /** Counters at zero and no track known. */
    constructor ()
      ensures Valid() && Abstract() == Initial
    {
      entryCount, exitCount := 0, 0;
      personState, countedState := map[], map[];
    }

    /** One confirmed track seen with horizontal edges `x1` and `x2`: returns
        its zone and updates the maps and counters as `Step` does. */
    method Observe(tid: TrackId, x1: int, x2: int) returns (zone: Zone)
      requires Valid()
      modifies this
      ensures Valid()
      ensures zone == Classify(x1, x2)
      ensures Abstract() == Step(old(Abstract()), tid, zone)
    {
      zone := Classify(x1, x2);
      ghost var s := Abstract();
      if tid !in personState {
        personState := personState[tid := zone];
        countedState := countedState[tid := false];
      } else {
        var prev := personState[tid];
        if prev == InDoor && zone == Right && !countedState[tid] {
          entryCount := entryCount + 1;
          countedState := countedState[tid := true];
        } else if prev == InDoor && zone == Left && !countedState[tid] {
          exitCount := exitCount + 1;
          countedState := countedState[tid := true];
        }
        if zone == Left || zone == Right {
          countedState := countedState[tid := false];
        }
        personState := personState[tid := zone];
      }
      StepPreservesValid(s, tid, zone);
    }

    /** End-of-frame cleanup: every tracked id absent from `active` is
        removed from both maps, one key at a time. */
    method Reconcile(active: set<TrackId>)
      requires Valid()
      modifies this
      ensures Valid()
      ensures Abstract() == Evict(old(Abstract()), active)
    {
      var pending := personState.Keys;
      while pending != {}
        invariant pending <= old(personState).Keys
        invariant Abstract() == Evict(old(Abstract()), active + pending)
        decreases pending
      {
        NonEmptyHasMember(pending);
        var tid: TrackId :| tid in pending;
        EvictDrop(old(Abstract()), active, pending, tid);
        if tid !in active {
          personState := personState - {tid};
          countedState := countedState - {tid};
        }
        pending := pending - {tid};
      }
      assert active + pending == active;
      EvictPreservesValid(old(Abstract()), active);
    }

    /** One processing cycle: every confirmed track of the frame is observed
        in order while the active ids are collected, then stale ids are
        dropped. */
    method ProcessFrame(boxes: seq<Box>)
      requires Valid()
      modifies this
      ensures Valid()
      ensures Abstract() == Frame(old(Abstract()), boxes)
    {
      var active: set<TrackId> := {};
      for i := 0 to |boxes|
        invariant Valid()
        invariant active == Ids(boxes[..i])
        invariant Abstract() == ObserveAll(old(Abstract()), boxes[..i])
      {
        var b := boxes[i];
        ObservePrefixStep(old(Abstract()), boxes, i);
        active := active + {b.tid};
        var zone := Observe(b.tid, b.x1, b.x2);
      }
      assert boxes[..|boxes|] == boxes;
      Reconcile(active);
    }
  }
}
