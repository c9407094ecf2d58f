# Door people counter: the crossing state machine

This project models the counting core of a camera-based people counter,
`Human_in_out.py`. Each frame, the external tracker confirms a list of tracks. Each
track has an id and a bounding box. The counter sorts each box into one of three
zones with respect to a fixed vertical door band (`DOOR_X1 = 280`, `DOOR_X2 = 360`):
left of the door, in the door, or right of it. For each track id it keeps the last
zone and a "counted" flag. A move from the door to the right adds one to
`entry_count`. A move from the door to the left adds one to `exit_count`. After every
frame, the ids the tracker no longer reports are forgotten. The display shows
`entry_count - exit_count` as the number of people inside.

The model has four modules:

- `Zones` (zones.dfy): the zone datatype, the two door constants, and `Classify`.
  Its lemmas give the case table, the boundary behaviour, agreement with interval
  overlap, and monotonicity.
- `Tracking` (tracking.dfy): the counting state as a value. `State` holds the two
  counters and the two maps. `Step` is one observation, `Evict` is the cleanup,
  `ObserveAll` and `Frame` cover a whole frame, and `Run` is the history of one
  track. `Crossing` and `Transitions` are independent reference definitions of what
  ought to be counted. The lemmas connect the state machine to these definitions.
- `DoorCounting` (door_counter.dfy): the class `DoorCounter`. It has the source's two
  integer counters and two dictionaries as fields, updated in place. `Observe`,
  `Reconcile` (the cleanup loop) and `ProcessFrame` (the per-frame loop over tracks)
  are each proved equal to `Step`, `Evict` and `Frame` on the fields' abstract value.
- `Scenarios` (scenarios.dfy): concrete traces. They include the walk-in/walk-out
  trace, the bounce, the re-arm, flicker, and a negative inside count.

The proofs bring out three facts about the code:

- The "counted" flag never blocks a count. It is set only when the track moves to a
  side, and the same observation clears it again. Every reachable state therefore
  has all flags lowered (`StepPreservesValid`). The step counts exactly the crossings
  out of the door band (`StepCountsCrossing`). For a track observed again and again
  with no other track observed and no cleanup in between, the counters grow by
  exactly the number of its door-to-side moves (`RunCountsKnown`, `RunCountsNew`).
  In the running program the shared counters also move on other tracks' crossings,
  and a track missing from one frame is evicted and starts over from a new first
  sighting (`EvictForgets`). So flicker across a boundary is counted on every move out of the
  door (`FlickerCountsTwice`).
- A bounce counts. A track seen left, then in the door, then left again counts one
  exit (`BounceCountsExit`), although the person never crossed the door. The model
  follows the code.
- The inside count can be negative. A track first seen in the door that leaves to
  the left counts an exit with no matching entry (`InsideCanBeNegative`). Nothing in
  the code keeps the displayed count at zero or above.

## Model

| member | source | states |
|---|---|---|
| Zones.Classify | Human_in_out.py:70-75 | the strict if/elif classification; for a well-formed box it is in the door exactly when [x1, x2] shares a pixel with [280, 360] |
| Zones.ClassifyCases | Human_in_out.py:70-75 | every box falls in exactly one zone: left iff x2 < 280; right iff x2 >= 280 and x1 > 360; in the door iff 280 <= x2 and x1 <= 360 (the strict comparisons and the order of the tests) |
| Zones.ClassifyBoundaryTouch | Human_in_out.py:70-75 | a well-formed box whose right edge is exactly 280 or whose left edge is exactly 360 is in the door |
| Zones.ClassifyIsOverlap | Human_in_out.py:70-75 | for x1 <= x2, the zone agrees with interval geometry: in the door iff [x1, x2] shares a pixel with [280, 360], left iff it ends before, right iff it starts after |
| Zones.ClassifyMonotone | Human_in_out.py:70-75 | shifting a box to the right never moves its zone to the left |
| Tracking.Step | Human_in_out.py:78-98 | one observation keeps both maps on the same keys and adds the observed id to them |
| Tracking.ObserveBox | Human_in_out.py:67-98 | observing a box records the classified zone of its track id |
| Tracking.StepFirstSighting | Human_in_out.py:78-80 | a new id is stored with its zone and a lowered flag; neither counter changes |
| Tracking.StepCounters | Human_in_out.py:84-92 | in any state, an entry is added exactly on a door-to-right move with the flag lowered, and an exit exactly on a door-to-left move with the flag lowered |
| Tracking.StepEntry | Human_in_out.py:85-87 | in a reachable state, a known track moving from the door to the right adds exactly one entry and no exit |
| Tracking.StepExit | Human_in_out.py:90-92 | in a reachable state, a known track moving from the door to the left adds exactly one exit and no entry |
| Tracking.StepNoCount | Human_in_out.py:82-92 | a known track moving from a side to anywhere, or staying in the door, changes neither counter |
| Tracking.StepMonotone | Human_in_out.py:84-92 | an observation never lowers a counter and raises at most one of them, by at most one |
| Tracking.StepRecords | Human_in_out.py:79-98 | after an observation the stored zone is the observed one; the flag is lowered, except that a known track observed in the door, whatever its previous zone, keeps its flag |
| Tracking.StepFrame | Human_in_out.py:78-98 | observing one id leaves the zone and flag of every other id unchanged |
| Tracking.StepPreservesValid | Human_in_out.py:87-96 | the maps keep the same keys, all flags stay lowered, and the observed id's flag is lowered afterwards |
| Tracking.StepCountsCrossing | Human_in_out.py:82-96 | in a reachable state, the counters grow by exactly the crossing: entry for door-to-right, exit for door-to-left, nothing for a first sighting or any other move |
| Tracking.Inside | Human_in_out.py:119 | the displayed inside value never exceeds the entries, and is negative exactly when more exits than entries were counted |
| Tracking.StepInside | Human_in_out.py:119 | the displayed inside value rises by one on an entry, falls by one on an exit, and is otherwise unchanged |
| Tracking.Evict | Human_in_out.py:107-110 | cleanup keeps exactly the old keys that are active, in both maps, and leaves both counters unchanged |
| Tracking.EvictKeeps | Human_in_out.py:107-110 | after cleanup, the keys are the old keys that are active; active entries keep their zone and flag; the counters are untouched |
| Tracking.EvictDrop | Human_in_out.py:107-110 | one pass of the cleanup loop (pop a key that is not active, keep an active key) narrows the cleanup still to do by that key |
| Tracking.EvictPreservesValid | Human_in_out.py:107-110 | cleanup pops from both maps together, so they keep the same keys and all flags stay lowered |
| Tracking.EvictIdempotent | Human_in_out.py:107-110 | cleaning up twice with the same active set is the same as cleaning up once |
| Tracking.EvictForgets | Human_in_out.py:107-110 | an evicted id seen again is a first sighting: its zone is recorded, its flag is lowered, and no counter changes |
| Tracking.ObserveAll | Human_in_out.py:60-98 | observing a frame's tracks keeps both maps on the same keys and adds exactly the frame's ids to them |
| Tracking.ObserveAllPreserves | Human_in_out.py:60-98 | observing a frame keeps the invariant, never lowers a counter, and adds at most one count per box |
| Tracking.Frame | Human_in_out.py:57-110 | after a full cycle both maps share their keys, and the tracked ids are exactly the ids of that frame |
| Tracking.ObserveAllLastBox | Human_in_out.py:60-98 | after a frame's observations each id of the frame holds the zone of its last box in that frame |
| Tracking.FrameProperties | Human_in_out.py:57-110 | after a full cycle, exactly the ids of that frame are tracked, each with the zone of its last box in the frame; the invariant holds; the counters grew by at most one per box |
| Tracking.RunCountsKnown | Human_in_out.py:82-98 | over any history of a known track, entries grow by exactly the number of door-to-right moves and exits by exactly the number of door-to-left moves; the last zone is stored |
| Tracking.RunCountsNew | Human_in_out.py:78-98 | for a new track, the first zone is only a baseline; the counters grow by the door-to-side moves of the rest of its history |
| Tracking.SinglePassCountsOnce | Human_in_out.py:82-96 | a new track seen in the door one or more times and then on one side is counted exactly once, on that side |
| DoorCounting.DoorCounter.constructor | Human_in_out.py:26-30 | both counters start at zero and both maps start empty |
| DoorCounting.DoorCounter.Observe | Human_in_out.py:70-98 | classifies the box, updates the counters and maps in place exactly as `Step`, and keeps the invariant |
| DoorCounting.DoorCounter.Reconcile | Human_in_out.py:106-110 | the key-by-key cleanup loop leaves the fields equal to `Evict` of the old fields, and keeps the invariant |
| DoorCounting.DoorCounter.ProcessFrame | Human_in_out.py:58-110 | the loop over confirmed tracks collects the active ids and observes each track; then the cleanup runs; the result equals `Frame` of the old fields |
| Scenarios.WalkInThenWalkOut | Human_in_out.py:70-110 | track 1 at (200,250), (300,340), (370,410) gives entries 1, exits 0, inside 1; track 2 then at (400,440), (300,330), (200,240) gives entries 1, exits 1, inside 0 |
| Scenarios.BounceCountsExit | Human_in_out.py:89-92 | a new track seen left, in the door, then left counts one exit and no entry |
| Scenarios.ReArmAfterEntry | Human_in_out.py:94-96 | a track on the right after a counted entry that goes right, door, left counts one more exit |
| Scenarios.FlickerCountsTwice | Human_in_out.py:84-96 | a track in the door that goes right, door, right counts two entries; the flag does not prevent the second |
| Scenarios.InsideCanBeNegative | Human_in_out.py:119 | a track first seen in the door that leaves to the left makes the displayed inside value -1 |

## Left out

- Camera capture, frame reading, the quit key and window handling (Human_in_out.py:20-23, 36-39, 123-129): these are I/O and the host loop.
- YOLO detection, the every-second-frame detection cache, and box rescaling with the floating-point `scale` (Human_in_out.py:16, 41-55): these are a foreign model and float arithmetic.
- The conversion of the tracker's floating-point box to integers with `int` (Human_in_out.py:67), which cuts toward zero (a left edge of 360.7 becomes 360 and is classified in the door): the model starts from the integer edges this conversion produces.
- The DeepSort tracker and its `is_confirmed` filter (Human_in_out.py:17, 57, 61-62): this is a foreign library. `ProcessFrame` takes the list of confirmed tracks as its input.
- All drawing and text rendering (Human_in_out.py:101-104, 112-123). Only the arithmetic `entry_count - exit_count` of line 119 is kept, as `Tracking.Inside`.
- The y-coordinates of boxes: they play no part in the counting.
- Track ids are modelled as integers. The tracker's ids are opaque, and only their equality matters here.
- The cleanup loop visits keys in the dictionary's insertion order. The model visits them in an arbitrary order; the result does not depend on the order.
- The door boundaries are the two fixed constants of the program. No check that the left boundary is below the right one is modelled, because the program has none.
