/**
 The Boss's internal state machine: the shuffled vertical move pattern with its same-move counter
 and cursor, the vertical clamp, and the shield with its frame counter. Random rolls and the
 shuffle are inputs.
 */
module BossBrain {

  const VerticalVelocity: int := 8
  /** `MAX_FRAMES_WITH_SAME_MOVE`: frames a pattern entry is repeated before the cursor moves on. */
  const MaxFramesWithSameMove: int := 10
  /** `MAX_FRAMES_WITH_SHIELD`. */
  const MaxFramesWithShield: int := 150
  const YUpperBound: int := -250
  const YLowerBound: int := 375
  const Health: int := 15

  /** `MOVE_FREQUENCY_PER_CYCLE`: how many rounds of the three moves the pattern holds. */
  const MoveFrequencyPerCycle: nat := 5

  /** The loop of `initializeMovePattern`: `n` rounds of +8, -8, 0. */
  function Rounds(n: nat): (r: seq<int>)
    ensures |r| == 3 * n
    decreases n
  {
    if n == 0 then [] else Rounds(n - 1) + [VerticalVelocity, -VerticalVelocity, 0]
  }

  /** The pattern as `initializeMovePattern` builds it, before the shuffle. */
  const Unshuffled: seq<int> := Rounds(MoveFrequencyPerCycle)

  /** `n` rounds hold each of the three moves `n` times and nothing else. */
  lemma {:induction false} RoundsMoves(n: nat)
    ensures multiset(Rounds(n))[VerticalVelocity] == n
    ensures multiset(Rounds(n))[-VerticalVelocity] == n
    ensures multiset(Rounds(n))[0] == n
    ensures forall v :: v != VerticalVelocity && v != -VerticalVelocity && v != 0 ==> multiset(Rounds(n))[v] == 0
    decreases n
  {
    if n > 0 {
      RoundsMoves(n - 1);
      assert multiset(Rounds(n)) == multiset(Rounds(n - 1)) + multiset([VerticalVelocity, -VerticalVelocity, 0]);
    }
  }

  /**
   A move pattern: fifteen entries. That they are always five +8, five -8 and five 0 moves is
   proved of the functions that build and reshuffle it (`NewBrain`, `Shuffle`, `NextMove`).
   */
  type Pattern = p: seq<int> | |p| == 15
    witness [8, -8, 0, 8, -8, 0, 8, -8, 0, 8, -8, 0, 8, -8, 0]

  type Cursor = i: int | 0 <= i < 15
  type Streak = c: int | 0 <= c < MaxFramesWithSameMove
  type ShieldFrames = f: int | 0 <= f < MaxFramesWithShield

  datatype Brain = Brain(
    pattern: Pattern,
    streak: Streak,          // consecutiveMovesInSameDirection
    cursor: Cursor,          // indexOfCurrentMove
    shielded: bool,          // isShielded
    shieldFrames: ShieldFrames)  // framesWithShieldActivated

  /** How many entries of `p` equal `v`. */
  function Occurrences(p: seq<int>, v: int): nat
  {
    multiset(p)[v]
  }

  /** The pattern holds five of each move, so every move value of the cycle occurs in it. */
  lemma PatternContents(p: Pattern)
    requires multiset(p) == multiset(Unshuffled)
    ensures Occurrences(p, VerticalVelocity) == 5
    ensures Occurrences(p, -VerticalVelocity) == 5
    ensures Occurrences(p, 0) == 5
    ensures forall i :: 0 <= i < |p| ==> p[i] in {VerticalVelocity, -VerticalVelocity, 0}
  {
    RoundsMoves(MoveFrequencyPerCycle);
    forall i | 0 <= i < |p| ensures p[i] in {VerticalVelocity, -VerticalVelocity, 0} {
      assert p[i] in multiset(p);
    }
  }

  /**
   `Collections.shuffle`: `order` is the permutation the shuffle produced. An `order` that is not a
   rearrangement of the pattern stands for the identity shuffle, so every outcome is a permutation.
   */
  function Shuffle(p: Pattern, order: seq<int>): (q: Pattern)
    ensures multiset(q) == multiset(p)
    ensures multiset(order) == multiset(p) ==> q == order
    ensures multiset(order) != multiset(p) ==> q == p
  {
    MovesAreMultiset(order);
    MovesAreMultiset(p);
    if Moves(order) == Moves(p) then
      assert |order| == |multiset(order)| == |multiset(p)| == |p|;
      order
    else p
  }

  /** The multiset of a sequence's entries, built entry by entry. */
  function Moves(s: seq<int>): multiset<int>
    decreases |s|
  {
    if s == [] then multiset{} else Moves(s[..|s| - 1]) + multiset{s[|s| - 1]}
  }

  lemma {:induction false} MovesAreMultiset(s: seq<int>)
    ensures Moves(s) == multiset(s)
    decreases |s|
  {
    if s != [] {
      var n := |s| - 1;
      MovesAreMultiset(s[..n]);
      assert s == s[..n] + [s[n]];
    }
  }

  /** A fresh boss: `order` is the constructor's shuffle of the unshuffled pattern; counters at 0, unshielded. */
  function NewBrain(order: seq<int>): (b: Brain)
    ensures b.streak == 0 && b.cursor == 0 && b.shieldFrames == 0 && !b.shielded
    ensures multiset(b.pattern) == multiset(Unshuffled)
    ensures multiset(order) == multiset(Unshuffled) ==> b.pattern == order
  {
    Brain(Shuffle(Unshuffled, order), 0, 0, false, 0)
  }

  /**
   `getNextMove`: returns the pattern entry under the cursor as it was on entry. The counter counts
   the frames spent on that entry; on the tenth the pattern is reshuffled (by `order`), the counter
   restarts and the cursor moves on, wrapping after the last entry.
   */
  function NextMove(b: Brain, order: seq<int>): (r: (int, Brain))
    ensures r.0 == b.pattern[b.cursor]
    ensures multiset(r.1.pattern) == multiset(b.pattern)
    ensures r.1.shielded == b.shielded && r.1.shieldFrames == b.shieldFrames
    ensures b.streak + 1 < MaxFramesWithSameMove ==>
      r.1.pattern == b.pattern && r.1.cursor == b.cursor && r.1.streak == b.streak + 1
    ensures b.streak + 1 == MaxFramesWithSameMove ==>
      r.1.pattern == Shuffle(b.pattern, order) && r.1.streak == 0 && r.1.cursor == (b.cursor + 1) % 15
  {
    var current := b.pattern[b.cursor];
    var count := b.streak + 1;
    if count == MaxFramesWithSameMove then
      var next := b.cursor + 1;
      (current, b.(pattern := Shuffle(b.pattern, order), streak := 0, cursor := if next == 15 then 0 else next))
    else
      (current, b.(streak := count))
  }

  /** `updatePosition`'s clamp of the boss's vertical translation to the band [-250, 375]. */
  function ClampY(ty: int): (r: int)
    ensures YUpperBound <= r <= YLowerBound
    ensures YUpperBound <= ty <= YLowerBound ==> r == ty
    ensures ty < YUpperBound ==> r == YUpperBound
    ensures ty > YLowerBound ==> r == YLowerBound
  {
    if ty < YUpperBound then YUpperBound
    else if ty > YLowerBound then YLowerBound
    else ty
  }

  /**
   `updateShield`: while shielded the frame counter advances; unshielded, a successful `roll`
   (standing for the 0.005 chance) raises the shield. When the counter reaches 150 the shield drops
   and the counter returns to 0.
   */
  function UpdateShield(b: Brain, roll: bool): (r: Brain)
    ensures r.pattern == b.pattern && r.streak == b.streak && r.cursor == b.cursor
    ensures !b.shielded && !roll ==> r == b
    ensures !b.shielded && roll ==> r.shielded && r.shieldFrames == b.shieldFrames
    ensures b.shielded && b.shieldFrames + 1 < MaxFramesWithShield ==>
              r.shielded && r.shieldFrames == b.shieldFrames + 1
    ensures b.shielded && b.shieldFrames + 1 == MaxFramesWithShield ==>
              !r.shielded && r.shieldFrames == 0
    ensures r.shielded ==> b.shielded || roll
    ensures ShieldCoherent(b) ==> ShieldCoherent(r)
  {
    if b.shielded then
      if b.shieldFrames + 1 == MaxFramesWithShield then b.(shielded := false, shieldFrames := 0)
      else b.(shieldFrames := b.shieldFrames + 1)
    else if roll then
      // the exhaustion test that follows activation cannot fire: the counter is below 150
      b.(shielded := true)
    else
      b
  }

  /** The shield counter is zero whenever the shield is down. */
  ghost predicate ShieldCoherent(b: Brain)
  {
    !b.shielded ==> b.shieldFrames == 0
  }

  /** Applies one shield update per roll, in order. */
  function UpdateShieldMany(b: Brain, rolls: seq<bool>): Brain
    decreases |rolls|
  {
    if rolls == [] then b else UpdateShieldMany(UpdateShield(b, rolls[0]), rolls[1..])
  }

  /**
   A shield raised in some frame (counter 0) stays up through the next 149 updates, whatever the
   rolls, and exactly the 150th drops it with the counter back at 0.
   */
  lemma {:induction false} ShieldLastsExactly(b: Brain, rolls: seq<bool>)
    requires b.shielded && b.shieldFrames == 0
    requires |rolls| <= MaxFramesWithShield
    ensures UpdateShieldMany(b, rolls).shielded <==> |rolls| < MaxFramesWithShield
    ensures UpdateShieldMany(b, rolls).shieldFrames == if |rolls| < MaxFramesWithShield then |rolls| else 0
  {
    ShieldCounts(b, rolls);
  }

  lemma {:induction false} ShieldCounts(b: Brain, rolls: seq<bool>)
    requires b.shielded
    requires b.shieldFrames + |rolls| <= MaxFramesWithShield
    ensures UpdateShieldMany(b, rolls).shielded <==> b.shieldFrames + |rolls| < MaxFramesWithShield
    ensures UpdateShieldMany(b, rolls).shieldFrames ==
      if b.shieldFrames + |rolls| < MaxFramesWithShield then b.shieldFrames + |rolls| else 0
    decreases |rolls|
  {
    if rolls == [] {
    } else {
      var b1 := UpdateShield(b, rolls[0]);
      if b.shieldFrames + 1 == MaxFramesWithShield {
        assert |rolls| == 1;
        assert rolls[1..] == [];
        assert UpdateShieldMany(b, rolls) == b1;
      } else {
        assert b1.shielded && b1.shieldFrames == b.shieldFrames + 1;
        ShieldCounts(b1, rolls[1..]);
      }
    }
  }

  /** Applies `NextMove` once per shuffle outcome and collects the moves returned. */
  function MovesMany(b: Brain, orders: seq<seq<int>>): (r: (seq<int>, Brain))
    ensures |r.0| == |orders|
    decreases |orders|
  {
    if orders == [] then ([], b)
    else
      var (m, b1) := NextMove(b, orders[0]);
      var (ms, b2) := MovesMany(b1, orders[1..]);
      ([m] + ms, b2)
  }

  /**
   From a fresh counter, the next ten moves repeat the entry under the cursor, after which the
   counter is back at 0 and the cursor has moved one entry on.
   */
  lemma {:induction false} RunOfTen(b: Brain, orders: seq<seq<int>>)
    requires b.streak == 0 && |orders| == MaxFramesWithSameMove
    ensures forall i :: 0 <= i < |orders| ==> MovesMany(b, orders).0[i] == b.pattern[b.cursor]
    ensures MovesMany(b, orders).1.streak == 0
    ensures MovesMany(b, orders).1.cursor == (b.cursor + 1) % 15
  {
    RunContinues(b, orders);
  }

  lemma {:induction false} RunContinues(b: Brain, orders: seq<seq<int>>)
    requires b.streak + |orders| == MaxFramesWithSameMove
    ensures forall i :: 0 <= i < |orders| ==> MovesMany(b, orders).0[i] == b.pattern[b.cursor]
    ensures MovesMany(b, orders).1.streak == 0
    ensures MovesMany(b, orders).1.cursor == (b.cursor + 1) % 15
    decreases |orders|
  {
    var (m, b1) := NextMove(b, orders[0]);
    if |orders| == 1 {
      assert orders[1..] == [];
      assert MovesMany(b1, orders[1..]) == ([], b1);
      assert MovesMany(b, orders).0 == [m];
    } else {
      assert b1.pattern == b.pattern && b1.cursor == b.cursor;
      RunContinues(b1, orders[1..]);
      var (ms, b2) := MovesMany(b1, orders[1..]);
      assert MovesMany(b, orders) == ([m] + ms, b2);
    }
  }
}
