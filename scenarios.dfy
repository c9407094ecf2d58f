/** Concrete traces of the counter with the door band at [280, 360]. */
module Scenarios {
  import opened Zones
  import opened Tracking
  import opened DoorCounting

  /** Cleanup down to the one active id `t`. */
  lemma EvictToOne(s: State, t: TrackId)
    requires t in s.zones && t in s.counted
    ensures Evict(s, {t}) == s.(zones := map[t := s.zones[t]], counted := map[t := s.counted[t]])
  {
    assert Evict(s, {t}).zones == map[t := s.zones[t]];
    assert Evict(s, {t}).counted == map[t := s.counted[t]];
  }

  /** Track 1 walks left to right across three frames (one entry), then
      track 2 walks right to left across three frames (one exit); track 1 is
      forgotten as soon as it is missing from a frame. */
  lemma WalkInThenWalkOut()
    ensures var s3 := Frame(Frame(Frame(Initial, [Box(1, 200, 250)]), [Box(1, 300, 340)]), [Box(1, 370, 410)]);
      && s3.entries == 1 && s3.exits == 0 && Inside(s3) == 1
      && s3.zones == map[1 := Right]
    ensures var s3 := Frame(Frame(Frame(Initial, [Box(1, 200, 250)]), [Box(1, 300, 340)]), [Box(1, 370, 410)]);
      var s6 := Frame(Frame(Frame(s3, [Box(2, 400, 440)]), [Box(2, 300, 330)]), [Box(2, 200, 240)]);
      && s6.entries == 1 && s6.exits == 1 && Inside(s6) == 0
      && s6.zones == map[2 := Left]
  {
    FrameOfOne(Initial, Box(1, 200, 250));
    EvictToOne(Step(Initial, 1, Classify(200, 250)), 1);
    var s1 := Frame(Initial, [Box(1, 200, 250)]);
    assert s1 == State(0, 0, map[1 := Left], map[1 := false]);
    FrameOfOne(s1, Box(1, 300, 340));
    EvictToOne(Step(s1, 1, Classify(300, 340)), 1);
    var s2 := Frame(s1, [Box(1, 300, 340)]);
    assert s2 == State(0, 0, map[1 := InDoor], map[1 := false]);
    FrameOfOne(s2, Box(1, 370, 410));
    EvictToOne(Step(s2, 1, Classify(370, 410)), 1);
    var s3 := Frame(s2, [Box(1, 370, 410)]);
    assert s3 == State(1, 0, map[1 := Right], map[1 := false]);
    FrameOfOne(s3, Box(2, 400, 440));
    EvictToOne(Step(s3, 2, Classify(400, 440)), 2);
    var s4 := Frame(s3, [Box(2, 400, 440)]);
    assert s4 == State(1, 0, map[2 := Right], map[2 := false]);
    FrameOfOne(s4, Box(2, 300, 330));
    EvictToOne(Step(s4, 2, Classify(300, 330)), 2);
    var s5 := Frame(s4, [Box(2, 300, 330)]);
    assert s5 == State(1, 0, map[2 := InDoor], map[2 := false]);
    FrameOfOne(s5, Box(2, 200, 240));
    EvictToOne(Step(s5, 2, Classify(200, 240)), 2);
    var s6 := Frame(s5, [Box(2, 200, 240)]);
    assert s6 == State(1, 1, map[2 := Left], map[2 := false]);
  }

  /** A track that steps into the door and back out on the side it came from
      counts one exit when that side is the left. */
  lemma BounceCountsExit(s: State, tid: TrackId)
    requires Valid(s) && tid !in s.zones
    ensures Run(s, tid, [Left, InDoor, Left]).exits == s.exits + 1
    ensures Run(s, tid, [Left, InDoor, Left]).entries == s.entries
  {
    RunCountsNew(s, tid, [Left, InDoor, Left]);
  }

  /** After a counted entry the track is armed again: back through the door
      to the left it counts one exit. */
  lemma ReArmAfterEntry(s: State, tid: TrackId)
    requires Valid(s) && tid in s.zones && s.zones[tid] == Right
    ensures Run(s, tid, [Right, InDoor, Left]).exits == s.exits + 1
    ensures Run(s, tid, [Right, InDoor, Left]).entries == s.entries
  {
    RunCountsKnown(s, tid, [Right, InDoor, Left]);
  }

  /** Flicker across the right boundary counts every move out of the door:
      the flag does not hold back the second entry. */
  lemma FlickerCountsTwice(s: State, tid: TrackId)
    requires Valid(s) && tid in s.zones && s.zones[tid] == InDoor
    ensures Run(s, tid, [Right, InDoor, Right]).entries == s.entries + 2
    ensures Run(s, tid, [Right, InDoor, Right]).exits == s.exits
  {
    RunCountsKnown(s, tid, [Right, InDoor, Right]);
  }

  /** A track first seen in the door that leaves to the left drives the
      displayed inside count below zero. */
  lemma InsideCanBeNegative()
    ensures Inside(Run(Initial, 7, [InDoor, Left])) == -1
  {
    RunCountsNew(Initial, 7, [InDoor, Left]);
  }

  /** The walk-in, walk-out trace replayed on the counter object. */
  method CounterClient()
  {
    var c := new DoorCounter();
    c.ProcessFrame([Box(1, 200, 250)]);
    c.ProcessFrame([Box(1, 300, 340)]);
    c.ProcessFrame([Box(1, 370, 410)]);
    WalkInThenWalkOut();
    assert c.entryCount == 1 && c.exitCount == 0;
    c.ProcessFrame([Box(2, 400, 440)]);
    c.ProcessFrame([Box(2, 300, 330)]);
    c.ProcessFrame([Box(2, 200, 240)]);
    assert c.entryCount == 1 && c.exitCount == 1;
    assert Inside(c.Abstract()) == 0;
  }
}
