/** The per-track position state machine and the counters, as values: one
    observation of a track is a `Step`, the end-of-frame cleanup is an `Evict`,
    a whole frame is a `Frame`. The class in module DoorCounting is proved to
    implement these functions. */
module Tracking {
  import opened Zones

  type TrackId = int

  /** Everything the counting loop keeps between observations: the entry and
      exit counters, the last zone of each live track and its "counted" flag. */
  datatype State = State(entries: nat, exits: nat, zones: map<TrackId, Zone>, counted: map<TrackId, bool>)

  /** A confirmed track of one frame: its id and the left and right edges of its box. */
  datatype Box = Box(tid: TrackId, x1: int, x2: int)

  /** Counters at zero, no track known. */
  const Initial: State := State(0, 0, map[], map[])

  /** Both maps are keyed by the same track ids. */
  ghost predicate KeysAgree(s: State)
  {
    s.zones.Keys == s.counted.Keys
  }

  /** No track carries a raised "counted" flag. */
  ghost predicate GuardClear(s: State)
  {
    forall t :: t in s.counted ==> !s.counted[t]
  }

  /** The invariant every reachable state keeps. */
  ghost predicate Valid(s: State)
  {
    KeysAgree(s) && GuardClear(s)
  }

  /** Number of people counted in minus people counted out, as displayed:
      never more than the entries, and negative exactly when more exits than
      entries were counted. */
  function Inside(s: State): (r: int)
    ensures r <= s.entries
    ensures r < 0 <==> s.entries < s.exits
  {
    s.entries - s.exits
  }

  // ---------------------------------------------------------------------------
  // One observation
  // ---------------------------------------------------------------------------

  /** Observation of track `tid` in zone `current`: a new id is recorded with a
      cleared flag; for a known id, leaving the door to the right counts an
      entry and to the left an exit (unless its flag is raised), the flag is
      cleared whenever the track is on a side, and the zone is recorded. */
  function Step(s: State, tid: TrackId, current: Zone): (r: State)
    requires KeysAgree(s)
    ensures KeysAgree(r)
    ensures r.zones.Keys == s.zones.Keys + {tid}
  {
    if tid !in s.zones then
      s.(zones := s.zones[tid := current], counted := s.counted[tid := false])
    else
      var prev := s.zones[tid];
      var counted := s.counted[tid];
      var s1 :=
        if prev == InDoor && current == Right && !counted then
          s.(entries := s.entries + 1, counted := s.counted[tid := true])
        else if prev == InDoor && current == Left && !counted then
          s.(exits := s.exits + 1, counted := s.counted[tid := true])
        else
          s;
      var s2 :=
        if current == Left || current == Right then s1.(counted := s1.counted[tid := false]) else s1;
      s2.(zones := s2.zones[tid := current])
  }

  /** Observation of one box: its zone is classified, then the track steps. */
  function ObserveBox(s: State, b: Box): (r: State)
    requires KeysAgree(s)
    ensures KeysAgree(r)
    ensures b.tid in r.zones && r.zones[b.tid] == Classify(b.x1, b.x2)
  {
    Step(s, b.tid, Classify(b.x1, b.x2))
  }

  /** What a counter sees, independently of any flag: a crossing is a move out
      of the door band; towards the right it is an entry, towards the left an exit. */
  datatype Event = Entry | Exit | NoEvent

  function Crossing(prev: Zone, current: Zone): Event
  {
    if prev == InDoor && current == Right then Entry
    else if prev == InDoor && current == Left then Exit
    else NoEvent
  }

  /** The first sighting of an id records its zone with a cleared flag and
      changes no counter. */
  lemma StepFirstSighting(s: State, tid: TrackId, z: Zone)
    requires KeysAgree(s) && tid !in s.zones
    ensures Step(s, tid, z).zones == s.zones[tid := z]
    ensures Step(s, tid, z).counted == s.counted[tid := false]
    ensures Step(s, tid, z).entries == s.entries && Step(s, tid, z).exits == s.exits
  {
  }

  /** Counters of a step in general, with the flag taken into account: an
      entry is added exactly on a move from the door to the right with the
      flag lowered, an exit exactly on such a move to the left. */
  lemma StepCounters(s: State, tid: TrackId, z: Zone)
    requires KeysAgree(s)
    ensures var r := Step(s, tid, z);
      r.entries == s.entries + (if tid in s.zones && s.zones[tid] == InDoor && z == Right && !s.counted[tid] then 1 else 0)
    ensures var r := Step(s, tid, z);
      r.exits == s.exits + (if tid in s.zones && s.zones[tid] == InDoor && z == Left && !s.counted[tid] then 1 else 0)
  {
  }

  /** In door then right: exactly one more entry, no exit. */
  lemma StepEntry(s: State, tid: TrackId)
    requires Valid(s) && tid in s.zones && s.zones[tid] == InDoor
    ensures Step(s, tid, Right).entries == s.entries + 1
    ensures Step(s, tid, Right).exits == s.exits
  {
  }

  /** In door then left: exactly one more exit, no entry. */
  lemma StepExit(s: State, tid: TrackId)
    requires Valid(s) && tid in s.zones && s.zones[tid] == InDoor
    ensures Step(s, tid, Left).exits == s.exits + 1
    ensures Step(s, tid, Left).entries == s.entries
  {
  }

  /** Any other move of a known track (from a side to anywhere, a direct
      left-to-right jump, staying in the door) changes neither counter. */
  lemma StepNoCount(s: State, tid: TrackId, z: Zone)
    requires KeysAgree(s) && tid in s.zones
    requires s.zones[tid] != InDoor || z == InDoor
    ensures Step(s, tid, z).entries == s.entries
    ensures Step(s, tid, z).exits == s.exits
  {
  }

  /** Each observation raises at most one counter, by at most one, and never
      lowers either. */
  lemma StepMonotone(s: State, tid: TrackId, z: Zone)
    requires KeysAgree(s)
    ensures s.entries <= Step(s, tid, z).entries && s.exits <= Step(s, tid, z).exits
    ensures Step(s, tid, z).entries + Step(s, tid, z).exits <= s.entries + s.exits + 1
  {
  }

  /** After an observation the track's zone is the observed one; its flag is
      lowered, except that a known track observed in the door, whatever its
      previous zone, keeps its flag. */
  lemma StepRecords(s: State, tid: TrackId, z: Zone)
    requires KeysAgree(s)
    ensures Step(s, tid, z).zones[tid] == z
    ensures Step(s, tid, z).counted[tid] == (tid in s.counted && z == InDoor && s.counted[tid])
  {
  }

  /** An observation of `tid` leaves every other track as it was. */
  lemma StepFrame(s: State, tid: TrackId, z: Zone, t: TrackId)
    requires KeysAgree(s) && t != tid
    ensures t in Step(s, tid, z).zones <==> t in s.zones
    ensures t in s.zones ==> Step(s, tid, z).zones[t] == s.zones[t] && Step(s, tid, z).counted[t] == s.counted[t]
  {
  }

  /** The flag never survives an observation: every reachable state has all
      flags lowered, so the flag never blocks a count. */
  lemma StepPreservesValid(s: State, tid: TrackId, z: Zone)
    requires Valid(s)
    ensures Valid(Step(s, tid, z))
    ensures !Step(s, tid, z).counted[tid]
  {
  }

  /** In every reachable state a step counts exactly the crossings: an entry
      when the track leaves the door to the right, an exit when it leaves it
      to the left, nothing on a first sighting or any other move. */
  lemma StepCountsCrossing(s: State, tid: TrackId, z: Zone)
    requires Valid(s)
    ensures var e := if tid in s.zones then Crossing(s.zones[tid], z) else NoEvent;
      && Step(s, tid, z).entries == s.entries + (if e == Entry then 1 else 0)
      && Step(s, tid, z).exits == s.exits + (if e == Exit then 1 else 0)
  {
  }

  /** The displayed inside count goes up by one on an entry, down by one on an
      exit, and is otherwise unchanged. */
  lemma StepInside(s: State, tid: TrackId, z: Zone)
    requires Valid(s)
    ensures var e := if tid in s.zones then Crossing(s.zones[tid], z) else NoEvent;
      Inside(Step(s, tid, z)) == Inside(s) + (if e == Entry then 1 else if e == Exit then -1 else 0)
  {
    StepCountsCrossing(s, tid, z);
  }

  // ---------------------------------------------------------------------------
  // Cleanup of stale track ids
  // ---------------------------------------------------------------------------

  /** Forget every track whose id is not active in this frame. */
  function Evict(s: State, active: set<TrackId>): (r: State)
    ensures r.zones.Keys == s.zones.Keys * active && r.counted.Keys == s.counted.Keys * active
    ensures r.entries == s.entries && r.exits == s.exits
  {
    s.(zones := map t | t in s.zones && t in active :: s.zones[t],
       counted := map t | t in s.counted && t in active :: s.counted[t])
  }

  /** After cleanup only active ids remain, the active ones keep their zone
      and flag, and the counters are untouched. */
  lemma EvictKeeps(s: State, active: set<TrackId>)
    ensures Evict(s, active).zones.Keys == s.zones.Keys * active
    ensures Evict(s, active).counted.Keys == s.counted.Keys * active
    ensures forall t :: t in Evict(s, active).zones ==> Evict(s, active).zones[t] == s.zones[t]
    ensures forall t :: t in Evict(s, active).counted ==> Evict(s, active).counted[t] == s.counted[t]
    ensures Evict(s, active).entries == s.entries && Evict(s, active).exits == s.exits
  {
  }

  /** Cleanup keeps the invariant: the two maps still share their keys. */
  lemma EvictPreservesValid(s: State, active: set<TrackId>)
    requires Valid(s)
    ensures Valid(Evict(s, active))
  {
    assert Evict(s, active).zones.Keys == s.zones.Keys * active;
    assert Evict(s, active).counted.Keys == s.counted.Keys * active;
  }

  /** Cleanup with the ids `active + pending` after key `t` of `pending` is
      dropped from the maps, unless it is active, is cleanup with `t` removed
      from `pending`. */
  lemma EvictDrop(s: State, active: set<TrackId>, pending: set<TrackId>, t: TrackId)
    requires t in pending
    ensures t !in active ==>
      var e := Evict(s, active + pending);
      e.(zones := e.zones - {t}, counted := e.counted - {t}) == Evict(s, active + (pending - {t}))
    ensures t in active ==> Evict(s, active + pending) == Evict(s, active + (pending - {t}))
  {
    assert t in active ==> active + pending == active + (pending - {t});
  }

  /** Cleaning up twice with the same active set is cleaning up once. */
  lemma EvictIdempotent(s: State, active: set<TrackId>)
    ensures Evict(Evict(s, active), active) == Evict(s, active)
  {
  }

  /** An evicted id leaves no memory: seen again, it is a first sighting whatever
      its zone and flag were before. */
  lemma EvictForgets(s: State, active: set<TrackId>, tid: TrackId, z: Zone)
    requires Valid(s) && tid !in active
    ensures KeysAgree(Evict(s, active))
    ensures var r := Step(Evict(s, active), tid, z);
      && r.entries == s.entries && r.exits == s.exits
      && r.zones[tid] == z && !r.counted[tid]
  {
    EvictPreservesValid(s, active);
  }

  // ---------------------------------------------------------------------------
  // One frame: every confirmed track in order, then the cleanup
  // ---------------------------------------------------------------------------

  /** The ids of the tracks of a frame. */
  function Ids(boxes: seq<Box>): set<TrackId>
  {
    set i | 0 <= i < |boxes| :: boxes[i].tid
  }

  /** The ids of a frame grow by one id when a box is appended. */
  lemma IdsSnoc(boxes: seq<Box>, b: Box)
    ensures Ids(boxes + [b]) == Ids(boxes) + {b.tid}
  {
    var all := boxes + [b];
    assert all[|boxes|] == b;
    forall t | t in Ids(all) ensures t in Ids(boxes) + {b.tid} {
      var i :| 0 <= i < |all| && all[i].tid == t;
      if i < |boxes| { assert all[i] == boxes[i]; }
    }
    forall t | t in Ids(boxes) ensures t in Ids(all) {
      var i :| 0 <= i < |boxes| && boxes[i].tid == t;
      assert all[i] == boxes[i];
    }
  }

  /** The state after observing the boxes of a frame in order. */
  function ObserveAll(s: State, boxes: seq<Box>): (r: State)
    requires KeysAgree(s)
    ensures KeysAgree(r)
    ensures r.zones.Keys == s.zones.Keys + Ids(boxes)
    decreases |boxes|
  {
    if |boxes| == 0 then s
    else
      var prefix := boxes[..|boxes| - 1];
      IdsSnoc(prefix, boxes[|boxes| - 1]);
      assert prefix + [boxes[|boxes| - 1]] == boxes;
      ObserveBox(ObserveAll(s, prefix), boxes[|boxes| - 1])
  }

  /** Observing one more box is one more `ObserveBox`. */
  lemma ObserveAllSnoc(s: State, boxes: seq<Box>, b: Box)
    requires KeysAgree(s)
    ensures ObserveAll(s, boxes + [b]) == ObserveBox(ObserveAll(s, boxes), b)
  {
    assert (boxes + [b])[..|boxes|] == boxes;
  }

  /** Observing the first `i + 1` boxes of a frame is observing the first `i`,
      then box `i`; the ids seen grow by that box's id. */
  lemma ObservePrefixStep(s: State, boxes: seq<Box>, i: int)
    requires KeysAgree(s) && 0 <= i < |boxes|
    ensures ObserveAll(s, boxes[..i + 1]) == ObserveBox(ObserveAll(s, boxes[..i]), boxes[i])
    ensures Ids(boxes[..i + 1]) == Ids(boxes[..i]) + {boxes[i].tid}
  {
    assert boxes[..i + 1] == boxes[..i] + [boxes[i]];
    IdsSnoc(boxes[..i], boxes[i]);
    ObserveAllSnoc(s, boxes[..i], boxes[i]);
  }

  /** One processing cycle: observe every confirmed track, then drop the ids
      absent from the frame. */
  function Frame(s: State, boxes: seq<Box>): (r: State)
    requires KeysAgree(s)
    ensures KeysAgree(r) && r.zones.Keys == Ids(boxes)
  {
    Evict(ObserveAll(s, boxes), Ids(boxes))
  }

  /** A frame holding one box: the track steps, then every other id is dropped. */
  lemma FrameOfOne(s: State, b: Box)
    requires KeysAgree(s)
    ensures Frame(s, [b]) == Evict(Step(s, b.tid, Classify(b.x1, b.x2)), {b.tid})
  {
    IdsSnoc([], b);
    ObserveAllSnoc(s, [], b);
    assert [] + [b] == [b];
  }

  /** Box `i` is the last box of its track id in the frame. */
  ghost predicate LastOfId(boxes: seq<Box>, i: int)
  {
    0 <= i < |boxes| && forall j :: i < j < |boxes| ==> boxes[j].tid != boxes[i].tid
  }

  /** The last box of a frame decides its track's zone. */
  lemma ObserveAllFinalBox(s: State, boxes: seq<Box>)
    requires KeysAgree(s) && |boxes| > 0
    ensures var b := boxes[|boxes| - 1];
      b.tid in ObserveAll(s, boxes).zones && ObserveAll(s, boxes).zones[b.tid] == Classify(b.x1, b.x2)
  {
  }

  /** The last box of a frame leaves the zone of every other track as the
      earlier boxes left it. */
  lemma ObserveAllFinalBoxFrame(s: State, boxes: seq<Box>, t: TrackId)
    requires KeysAgree(s) && |boxes| > 0 && t != boxes[|boxes| - 1].tid
    requires t in ObserveAll(s, boxes[..|boxes| - 1]).zones
    ensures t in ObserveAll(s, boxes).zones
    ensures ObserveAll(s, boxes).zones[t] == ObserveAll(s, boxes[..|boxes| - 1]).zones[t]
  {
    ObserveAllUnfold(s, boxes);
    ObserveBoxFrame(ObserveAll(s, boxes[..|boxes| - 1]), ObserveAll(s, boxes), boxes[|boxes| - 1], t);
  }

  /** A non-empty frame is observed as its boxes but the last, then the last. */
  lemma ObserveAllUnfold(s: State, boxes: seq<Box>)
    requires KeysAgree(s) && |boxes| > 0
    ensures ObserveAll(s, boxes) == ObserveBox(ObserveAll(s, boxes[..|boxes| - 1]), boxes[|boxes| - 1])
  {
  }

  /** Observing box `b` in state `s`, giving `r`, leaves every other track's
      zone as it was. */
  lemma ObserveBoxFrame(s: State, r: State, b: Box, t: TrackId)
    requires KeysAgree(s) && r == ObserveBox(s, b) && t != b.tid && t in s.zones
    ensures t in r.zones && r.zones[t] == s.zones[t]
  {
    StepFrame(s, b.tid, Classify(b.x1, b.x2), t);
  }

  /** A track ends a frame's observations in the zone of its last box. */
  lemma {:induction false} ObserveAllLastBox(s: State, boxes: seq<Box>, i: int)
    requires KeysAgree(s) && LastOfId(boxes, i)
    ensures boxes[i].tid in ObserveAll(s, boxes).zones
    ensures ObserveAll(s, boxes).zones[boxes[i].tid] == Classify(boxes[i].x1, boxes[i].x2)
    decreases |boxes|
  {
    var n := |boxes| - 1;
    if i == n {
      ObserveAllFinalBox(s, boxes);
    } else {
      var prefix := boxes[..n];
      assert prefix[i] == boxes[i];
      assert LastOfId(prefix, i);
      ObserveAllLastBox(s, prefix, i);
      ObserveAllFinalBoxFrame(s, boxes, boxes[i].tid);
    }
  }

  /** Observing a frame keeps the invariant, never lowers a counter, and adds
      at most one count per box. */
  lemma {:induction false} ObserveAllPreserves(s: State, boxes: seq<Box>)
    requires Valid(s)
    ensures Valid(ObserveAll(s, boxes))
    ensures s.entries <= ObserveAll(s, boxes).entries && s.exits <= ObserveAll(s, boxes).exits
    ensures ObserveAll(s, boxes).entries + ObserveAll(s, boxes).exits <= s.entries + s.exits + |boxes|
    decreases |boxes|
  {
    if |boxes| > 0 {
      var prefix := boxes[..|boxes| - 1];
      var b := boxes[|boxes| - 1];
      ObserveAllPreserves(s, prefix);
      StepPreservesValid(ObserveAll(s, prefix), b.tid, Classify(b.x1, b.x2));
      StepMonotone(ObserveAll(s, prefix), b.tid, Classify(b.x1, b.x2));
    }
  }

  /** After a frame exactly the ids of that frame are tracked, the invariant
      holds, and the counters have grown by at most one per box. */
  lemma FrameProperties(s: State, boxes: seq<Box>)
    requires Valid(s)
    ensures Frame(s, boxes).zones.Keys == Ids(boxes)
    ensures Valid(Frame(s, boxes))
    ensures s.entries <= Frame(s, boxes).entries && s.exits <= Frame(s, boxes).exits
    ensures Frame(s, boxes).entries + Frame(s, boxes).exits <= s.entries + s.exits + |boxes|
    ensures forall i :: LastOfId(boxes, i) ==>
      Frame(s, boxes).zones[boxes[i].tid] == Classify(boxes[i].x1, boxes[i].x2)
  {
    forall i | LastOfId(boxes, i)
      ensures Frame(s, boxes).zones[boxes[i].tid] == Classify(boxes[i].x1, boxes[i].x2)
    {
      ObserveAllLastBox(s, boxes, i);
      assert boxes[i].tid in Ids(boxes);
    }
    ObserveAllPreserves(s, boxes);
    EvictPreservesValid(ObserveAll(s, boxes), Ids(boxes));
    EvictKeeps(ObserveAll(s, boxes), Ids(boxes));
  }

  // ---------------------------------------------------------------------------
  // The history of one track
  // ---------------------------------------------------------------------------

  /** The state after track `tid` is observed in the zones `zs`, in order. */
  function Run(s: State, tid: TrackId, zs: seq<Zone>): (r: State)
    requires KeysAgree(s)
    ensures KeysAgree(r)
    decreases |zs|
  {
    if zs == [] then s else Run(Step(s, tid, zs[0]), tid, zs[1..])
  }

  /** Number of moves from the door band to `side` in the zone history `zs`
      that follows a last known zone `prev`. */
  function Transitions(prev: Zone, zs: seq<Zone>, side: Zone): nat
    decreases |zs|
  {
    if zs == [] then 0
    else (if prev == InDoor && zs[0] == side then 1 else 0) + Transitions(zs[0], zs[1..], side)
  }

  /** For a track already known, the counters grow by exactly the number of
      moves out of the door to the right (entries) and to the left (exits),
      and the last observed zone is remembered. */
  lemma {:induction false} RunCountsKnown(s: State, tid: TrackId, zs: seq<Zone>)
    requires Valid(s) && tid in s.zones
    ensures Valid(Run(s, tid, zs)) && tid in Run(s, tid, zs).zones
    ensures Run(s, tid, zs).entries == s.entries + Transitions(s.zones[tid], zs, Right)
    ensures Run(s, tid, zs).exits == s.exits + Transitions(s.zones[tid], zs, Left)
    ensures zs != [] ==> Run(s, tid, zs).zones[tid] == zs[|zs| - 1]
    decreases |zs|
  {
    if zs != [] {
      var s1 := Step(s, tid, zs[0]);
      StepPreservesValid(s, tid, zs[0]);
      StepCountsCrossing(s, tid, zs[0]);
      RunCountsKnown(s1, tid, zs[1..]);
    }
  }

  /** For a new track, its first zone is only a baseline; the counters grow by
      the number of moves out of the door in the rest of its history. */
  lemma RunCountsNew(s: State, tid: TrackId, zs: seq<Zone>)
    requires Valid(s) && tid !in s.zones && zs != []
    ensures Run(s, tid, zs).entries == s.entries + Transitions(zs[0], zs[1..], Right)
    ensures Run(s, tid, zs).exits == s.exits + Transitions(zs[0], zs[1..], Left)
  {
    StepPreservesValid(s, tid, zs[0]);
    RunCountsKnown(Step(s, tid, zs[0]), tid, zs[1..]);
  }

  /** A stay of any length in the door followed by a move to one side is one
      move out of the door, to that side and not the other. */
  lemma {:induction false} DwellThenLeave(k: nat, side: Zone)
    requires side != InDoor
    ensures Transitions(InDoor, seq(k, _ => InDoor) + [side], side) == 1
    ensures Transitions(InDoor, seq(k, _ => InDoor) + [side], if side == Left then Right else Left) == 0
    decreases k
  {
    var zs := seq(k, _ => InDoor) + [side];
    if k > 0 {
      assert zs[0] == InDoor;
      assert zs[1..] == seq(k - 1, _ => InDoor) + [side];
      DwellThenLeave(k - 1, side);
    } else {
      assert zs == [side];
    }
  }

  /** A new track seen in the door one or more times and then on `side` is
      counted once, on that side, whatever the flicker inside the door. */
  lemma SinglePassCountsOnce(s: State, tid: TrackId, n: nat, side: Zone)
    requires Valid(s) && tid !in s.zones && n >= 1 && side != InDoor
    ensures var r := Run(s, tid, seq(n, _ => InDoor) + [side]);
      && r.entries == s.entries + (if side == Right then 1 else 0)
      && r.exits == s.exits + (if side == Left then 1 else 0)
  {
    var zs := seq(n, _ => InDoor) + [side];
    assert zs[0] == InDoor;
    assert zs[1..] == seq(n - 1, _ => InDoor) + [side];
    RunCountsNew(s, tid, zs);
    DwellThenLeave(n - 1, side);
  }
}
