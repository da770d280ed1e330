/**
 The spawn-lane allocator shared by LevelOne, LevelThree and LevelFour (`getAvailableYPosition`,
 `freeYPosition`, `usedYPositions`). The five predefined heights 0.0, 0.25, 0.5, 0.75 and 1.0 are
 lanes 0..4; the random height used once every lane is taken is an `Overflow` slot.
 */
module Slots {

  /** Number of predefined spawn heights (`PREDEFINED_Y_POSITIONS`). */
  const LaneCount: int := 5

  type LaneIndex = k: int | 0 <= k < LaneCount

  /** A spawn height: one of the palette lanes, or the random overflow height `y` (a spawn y position). */
  datatype Slot = Lane(index: LaneIndex) | Overflow(y: int)

  /** The palette in the order the allocator scans it. */
  const Palette: seq<Slot> := [Lane(0), Lane(1), Lane(2), Lane(3), Lane(4)]

  lemma PaletteHoldsEveryLane(k: LaneIndex)
    ensures Palette[k] == Lane(k)
    ensures Lane(k) in Palette
  {
  }

  lemma PaletteHoldsAllLanes()
    ensures forall s: Slot :: s.Lane? ==> s in Palette
  {
    forall s: Slot | s.Lane? ensures s in Palette { PaletteHoldsEveryLane(s.index); }
  }

  /** The slots of `ps` that are not in `used`, in the order of `ps` (the scan loop's `availablePositions`). */
  function Unused(ps: seq<Slot>, used: set<Slot>): (r: seq<Slot>)
    ensures forall s :: s in r <==> s in ps && s !in used
    ensures |r| <= |ps|
  {
    if ps == [] then []
    else if ps[0] in used then Unused(ps[1..], used)
    else [ps[0]] + Unused(ps[1..], used)
  }

  /** The free palette lanes, in palette order. */
  function FreeLanes(used: set<Slot>): (r: seq<Slot>)
    ensures forall s :: s in r <==> s.Lane? && s !in used
  {
    PaletteHoldsAllLanes();
    Unused(Palette, used)
  }

  /**
   `getAvailableYPosition`. `pick` stands for the random index into the free lanes (reduced modulo
   their number) and `overflowY` for the random height drawn when no lane is free.
   */
  function Allocate(used: set<Slot>, pick: nat, overflowY: int): (s: Slot)
    ensures s.Lane? ==> s !in used
    ensures s.Overflow? ==> s == Overflow(overflowY)
    ensures s.Overflow? <==> forall k: LaneIndex :: Lane(k) in used
  {
    var free := FreeLanes(used);
    if |free| == 0 then
      Overflow(overflowY)
    else
      assert free[0] in free;
      free[pick % |free|]
  }

  /** Every free lane can be the one allocated: the random index ranges over all of them. */
  lemma EveryFreeLaneReachable(used: set<Slot>, k: LaneIndex, overflowY: int)
    requires Lane(k) !in used
    ensures exists pick: nat :: Allocate(used, pick, overflowY) == Lane(k)
  {
    var free := FreeLanes(used);
    assert Lane(k) in free;
    var i :| 0 <= i < |free| && free[i] == Lane(k);
    assert i % |free| == i;
    assert Allocate(used, i, overflowY) == Lane(k);
  }

  /** `freeYPosition`: forgets exactly the given slot; freeing a slot that is not used changes nothing. */
  function Free(used: set<Slot>, s: Slot): (r: set<Slot>)
    ensures s !in r
    ensures forall t :: t != s ==> (t in r <==> t in used)
    ensures s !in used ==> r == used
  {
    used - {s}
  }

  /** Frees every slot of `released`, in order. */
  function FreeAll(used: set<Slot>, released: seq<Slot>): (r: set<Slot>)
    ensures forall t :: t in r <==> t in used && t !in released
  {
    if released == [] then used else FreeAll(Free(used, released[0]), released[1..])
  }

  /**
   The spawn height of a slot: lane `k` is `k/4` of the enemies' maximum height (whole-number
   division; exact when that height is a multiple of four, as it is for the 750-pixel screen).
   */
  function SlotY(s: Slot, enemyMaxY: int): (y: int)
    ensures s.Lane? && enemyMaxY >= 0 ==> 0 <= y <= enemyMaxY
    ensures s.Overflow? ==> y == s.y
  {
    match s
    case Lane(k) => k * enemyMaxY / 4
    case Overflow(oy) => oy
  }

  /** Different lanes get different heights when the maximum height is a positive multiple of four. */
  lemma LaneHeightsDistinct(j: LaneIndex, k: LaneIndex, enemyMaxY: int)
    requires enemyMaxY > 0 && enemyMaxY % 4 == 0 && j != k
    ensures SlotY(Lane(j), enemyMaxY) != SlotY(Lane(k), enemyMaxY)
  {
    var q := enemyMaxY / 4;
    assert enemyMaxY == 4 * q;
    assert j * enemyMaxY == 4 * (j * q);
    assert k * enemyMaxY == 4 * (k * q);
    assert SlotY(Lane(j), enemyMaxY) == j * q;
    assert SlotY(Lane(k), enemyMaxY) == k * q;
    if j < k {
      assert j * q < k * q;
    } else {
      assert k * q < j * q;
    }
  }
}
