/** Where a tracked person stands relative to the door band of the camera frame. */
module Zones {

  /** The three positions a bounding box can take with respect to the door band. */
  datatype Zone = Left | InDoor | Right

  /** Left boundary of the door band, in pixels. */
  const DoorX1: int := 280
  /** Right boundary of the door band, in pixels. */
  const DoorX2: int := 360

  /** Position of a box from its left edge `x1` and right edge `x2`; the
      comparisons are strict, the first test wins. For a well-formed box the
      box is in the door exactly when it shares a pixel with the band. */
  function Classify(x1: int, x2: int): (z: Zone)
    ensures x1 <= x2 ==> (z == InDoor <==> Max(x1, DoorX1) <= Min(x2, DoorX2))
  {
    if x2 < DoorX1 then Left
    else if x1 > DoorX2 then Right
    else InDoor
  }

  /** Left to right order of the zones. */
  function Rank(z: Zone): (r: nat)
    ensures r <= 2
    ensures z == Left <==> r == 0
    ensures z == Right <==> r == 2
  {
    match z
    case Left => 0
    case InDoor => 1
    case Right => 2
  }

  function Max(a: int, b: int): int { if a < b then b else a }
  function Min(a: int, b: int): int { if a < b then a else b }

  /** The classification as a case table: each box falls in exactly one zone,
      decided by these conditions on its edges. */
  lemma ClassifyCases(x1: int, x2: int)
    ensures Classify(x1, x2) == Left <==> x2 < DoorX1
    ensures Classify(x1, x2) == Right <==> DoorX1 <= x2 && DoorX2 < x1
    ensures Classify(x1, x2) == InDoor <==> DoorX1 <= x2 && x1 <= DoorX2
  {
  }

  /** A box whose edge lies exactly on a boundary of the band is in the door. */
  lemma ClassifyBoundaryTouch(x1: int, x2: int)
    requires x1 <= x2
    requires x2 == DoorX1 || x1 == DoorX2
    ensures Classify(x1, x2) == InDoor
  {
  }

  /** For a well-formed box, the classification agrees with plain interval
      geometry: in the door exactly when the pixel span [x1, x2] shares a pixel
      with the band [DoorX1, DoorX2], on the left when it ends before the band,
      on the right when it starts after it. */
  lemma ClassifyIsOverlap(x1: int, x2: int)
    requires x1 <= x2
    ensures Classify(x1, x2) == InDoor <==> Max(x1, DoorX1) <= Min(x2, DoorX2)
    ensures Classify(x1, x2) == Left <==> x2 < DoorX1
    ensures Classify(x1, x2) == Right <==> DoorX2 < x1
  {
  }

  /** Moving both edges of a box to the right never moves its zone to the left. */
  lemma ClassifyMonotone(x1: int, x2: int, y1: int, y2: int)
    requires x1 <= y1 && x2 <= y2
    ensures Rank(Classify(x1, x2)) <= Rank(Classify(y1, y2))
  {
  }
}
