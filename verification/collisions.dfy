/**
 `CollisionHandler` and the level's purge of destroyed actors. Bounds come from the images, so
 whether two actors' bounds intersect is a parameter `meets`; damage never changes what the
 bounds are computed from, so the answers stay the same throughout a pass.
 */
module Collisions {
  import opened Slots
  import opened Actors
  import opened Damage

  /** `a.getBoundsInParent().intersects(b.getBoundsInParent())`, asked with `a`'s frame first. */
  type Intersects = (Frame, Frame) -> bool

  /** How many actors of `xs` the frame `f` meets, asked as `meets(f, x)`. */
  function Struck(f: Frame, xs: seq<Actor>, meets: Intersects): (n: nat)
    ensures n <= |xs|
  {
    if xs == [] then 0
    else Struck(f, xs[..|xs| - 1], meets) + (if meets(f, FrameOf(xs[|xs| - 1])) then 1 else 0)
  }

  /** How many actors of `xs` meet the frame `f`, asked as `meets(x, f)`. */
  function StruckBy(xs: seq<Actor>, f: Frame, meets: Intersects): (n: nat)
    ensures n <= |xs|
  {
    if xs == [] then 0
    else StruckBy(xs[..|xs| - 1], f, meets) + (if meets(FrameOf(xs[|xs| - 1]), f) then 1 else 0)
  }

  /** `Struck` only looks at frames, and damage keeps frames. */
  lemma {:induction false} StruckSeesFrames(f: Frame, xs: seq<Actor>, ys: seq<Actor>, meets: Intersects)
    requires AllDamagedFrom(ys, xs)
    ensures Struck(f, ys, meets) == Struck(f, xs, meets)
    decreases |xs|
  {
    if xs != [] {
      var n := |xs| - 1;
      assert AllDamagedFrom(ys[..n], xs[..n]);
      StruckSeesFrames(f, xs[..n], ys[..n], meets);
      DamagedKeepsFrame(ys[n], xs[n]);
    }
  }

  /** The result of the inner loop: one actor of `actors2` against every actor of `actors1`. */
  datatype Swept = Swept(others: seq<Actor>, actor: Actor, released: seq<Slot>)

  /**
   The inner loop of `handleCollisions`: `actor` is tested against each of `others` in order; a
   hit damages both, once each.
   */
  function Sweep(actor: Actor, others: seq<Actor>, meets: Intersects): (r: Swept)
    ensures |r.others| == |others|
    ensures r.actor == DamageTimes(actor, Struck(FrameOf(actor), others, meets)).actor
    ensures forall i :: 0 <= i < |others| ==>
              r.others[i] == if meets(FrameOf(actor), FrameOf(others[i])) then TakeDamage(others[i]).actor else others[i]
    ensures AllDamagedFrom(r.others, others)
    ensures ReleasedBy(r.released, r.others + [r.actor])
    ensures AllFreed(r.released, r.others, others) && Freed(r.released, r.actor, actor)
    decreases |others|
  {
    if others == [] then Swept([], actor, [])
    else
      var n := |others| - 1;
      var front := Sweep(actor, others[..n], meets);
      DamagedKeepsFrame(front.actor, actor);
      var other := others[n];
      var hit := meets(FrameOf(front.actor), FrameOf(other));
      if hit then
        var hitActor := TakeDamage(front.actor);
        var hitOther := TakeDamage(other);
        var r := Swept(front.others + [hitOther.actor], hitActor.actor,
                       front.released + hitActor.released + hitOther.released);
        SweepReleases(front, hitActor, hitOther, r);
        SweepStep(actor, others, meets, front, hit, r);
        SweepFreesHit(actor, others, front, hitActor, hitOther, r);
        r
      else
        var r := Swept(front.others + [other], front.actor, front.released);
        SweepKeeps(front, other, r);
        SweepStep(actor, others, meets, front, hit, r);
        SweepFreesMiss(actor, others, front, r);
        r
  }

  /** The last partner of the inner loop: hit or missed, both sides end as the contract says. */
  lemma SweepStep(actor: Actor, others: seq<Actor>, meets: Intersects, front: Swept, hit: bool, r: Swept)
    requires others != []
    requires |front.others| == |others| - 1
    requires forall i :: 0 <= i < |others| - 1 ==>
               front.others[i] == if meets(FrameOf(actor), FrameOf(others[i])) then TakeDamage(others[i]).actor else others[i]
    requires AllDamagedFrom(front.others, others[..|others| - 1])
    requires front.actor == DamageTimes(actor, Struck(FrameOf(actor), others[..|others| - 1], meets)).actor
    requires FrameOf(front.actor) == FrameOf(actor)
    requires hit == meets(FrameOf(front.actor), FrameOf(others[|others| - 1]))
    requires r.others == front.others + [if hit then TakeDamage(others[|others| - 1]).actor else others[|others| - 1]]
    requires r.actor == if hit then TakeDamage(front.actor).actor else front.actor
    ensures |r.others| == |others|
    ensures r.actor == DamageTimes(actor, Struck(FrameOf(actor), others, meets)).actor
    ensures forall i :: 0 <= i < |others| ==>
              r.others[i] == if meets(FrameOf(actor), FrameOf(others[i])) then TakeDamage(others[i]).actor else others[i]
    ensures AllDamagedFrom(r.others, others)
  {
    var n := |others| - 1;
    var f := FrameOf(actor);
    DamageStep(actor, Struck(f, others[..n], meets), Struck(f, others, meets), hit, front.actor, r.actor);
    SweepOthersStep(f, others, meets, front.others, r.others);
  }

  /** The inner list after one more partner: the last entry is hit exactly when it meets `f`. */
  lemma SweepOthersStep(f: Frame, others: seq<Actor>, meets: Intersects, before: seq<Actor>, after: seq<Actor>)
    requires others != []
    requires |before| == |others| - 1
    requires forall i :: 0 <= i < |others| - 1 ==>
               before[i] == if meets(f, FrameOf(others[i])) then TakeDamage(others[i]).actor else others[i]
    requires AllDamagedFrom(before, others[..|others| - 1])
    requires var last := others[|others| - 1];
             after == before + [if meets(f, FrameOf(last)) then TakeDamage(last).actor else last]
    ensures |after| == |others|
    ensures forall i :: 0 <= i < |others| ==>
              after[i] == if meets(f, FrameOf(others[i])) then TakeDamage(others[i]).actor else others[i]
    ensures AllDamagedFrom(after, others)
  {
    var n := |others| - 1;
    assert forall i :: 0 <= i < n ==> after[i] == before[i] && others[..n][i] == others[i];
  }

  /** A hit on the last partner: both deaths it may cause are recorded, and the earlier ones stay recorded. */
  lemma SweepFreesHit(actor: Actor, others: seq<Actor>, front: Swept, hitActor: Affected, hitOther: Affected, r: Swept)
    requires others != []
    requires AllFreed(front.released, front.others, others[..|others| - 1]) && Freed(front.released, front.actor, actor)
    requires front.actor.onDestroyed == actor.onDestroyed
    requires hitActor == TakeDamage(front.actor) && hitOther == TakeDamage(others[|others| - 1])
    requires r == Swept(front.others + [hitOther.actor], hitActor.actor, front.released + hitActor.released + hitOther.released)
    ensures AllFreed(r.released, r.others, others) && Freed(r.released, r.actor, actor)
  {
    var n := |others| - 1;
    forall k | 0 <= k < |others|
      ensures Freed(r.released, r.others[k], others[k])
    {
      if k < n {
        assert r.others[k] == front.others[k] && others[..n][k] == others[k];
        assert Freed(front.released, front.others[k], others[..n][k]);
      } else {
        assert r.others[k] == hitOther.actor;
      }
    }
    FreedChain(front.released, hitActor.released, hitActor.actor, front.actor, actor);
  }

  /** A miss on the last partner: nothing new dies, and the earlier deaths stay recorded. */
  lemma SweepFreesMiss(actor: Actor, others: seq<Actor>, front: Swept, r: Swept)
    requires others != []
    requires AllFreed(front.released, front.others, others[..|others| - 1]) && Freed(front.released, front.actor, actor)
    requires r == Swept(front.others + [others[|others| - 1]], front.actor, front.released)
    ensures AllFreed(r.released, r.others, others) && Freed(r.released, r.actor, actor)
  {
    var n := |others| - 1;
    forall k | 0 <= k < n
      ensures Freed(r.released, r.others[k], others[k])
    {
      assert r.others[k] == front.others[k] && others[..n][k] == others[k];
      assert Freed(front.released, front.others[k], others[..n][k]);
    }
  }

  lemma SweepReleases(front: Swept, hitActor: Affected, hitOther: Affected, r: Swept)
    requires ReleasedBy(front.released, front.others + [front.actor])
    requires hitActor == TakeDamage(front.actor)
    requires r == Swept(front.others + [hitOther.actor], hitActor.actor, front.released + hitActor.released + hitOther.released)
    requires hitOther.actor.destroyed || hitOther.released == []
    requires forall s :: s in hitOther.released ==> hitOther.actor.onDestroyed == FreeSlot(s)
    ensures ReleasedBy(r.released, r.others + [r.actor])
  {
    var before := front.others + [front.actor];
    var after := r.others + [r.actor];
    forall s | s in r.released
      ensures DiedHolding(after, s)
    {
      if s in front.released {
        var k :| 0 <= k < |before| && before[k].destroyed && before[k].onDestroyed == FreeSlot(s);
        if k < |front.others| {
          assert after[k] == front.others[k];
        } else {
          assert DamagedFrom(after[|after| - 1], front.actor);
        }
      } else if s in hitActor.released {
        assert after[|after| - 1] == hitActor.actor;
      } else {
        assert after[|after| - 2] == hitOther.actor;
      }
    }
  }

  lemma SweepKeeps(front: Swept, other: Actor, r: Swept)
    requires ReleasedBy(front.released, front.others + [front.actor])
    requires r == Swept(front.others + [other], front.actor, front.released)
    ensures ReleasedBy(r.released, r.others + [r.actor])
  {
    forall s | s in r.released
      ensures DiedHolding(r.others + [r.actor], s)
    {
      var before := front.others + [front.actor];
      var k :| 0 <= k < |before| && before[k].destroyed && before[k].onDestroyed == FreeSlot(s);
      if k < |front.others| {
        assert (r.others + [r.actor])[k] == before[k];
      } else {
        assert (r.others + [r.actor])[|r.others|] == before[k];
      }
    }
  }

  /** Both lists after `handleCollisions`, and the slots released by the damage. */
  datatype Collided = Collided(actors1: seq<Actor>, actors2: seq<Actor>, released: seq<Slot>)

  /**
   `handleCollisions(actors1, actors2)`: for every actor of `actors2`, in order, and every actor of
   `actors1`, in order, intersecting bounds damage both. There is no early exit and no
   `isDestroyed` filter: an actor meeting k partners takes exactly k hits, destroyed or not. No
   list gains or loses an entry.
   */
  function HandleCollisions(actors1: seq<Actor>, actors2: seq<Actor>, meets: Intersects): (r: Collided)
    ensures |r.actors1| == |actors1| && |r.actors2| == |actors2|
    ensures forall i :: 0 <= i < |actors1| ==>
              r.actors1[i] == DamageTimes(actors1[i], StruckBy(actors2, FrameOf(actors1[i]), meets)).actor
    ensures forall j :: 0 <= j < |actors2| ==>
              r.actors2[j] == DamageTimes(actors2[j], Struck(FrameOf(actors2[j]), actors1, meets)).actor
    ensures AllDamagedFrom(r.actors1, actors1) && AllDamagedFrom(r.actors2, actors2)
    ensures ReleasedBy(r.released, r.actors1 + r.actors2)
    ensures AllFreed(r.released, r.actors1, actors1) && AllFreed(r.released, r.actors2, actors2)
    decreases |actors2|
  {
    if actors2 == [] then Collided(actors1, [], [])
    else
      var n := |actors2| - 1;
      var front := HandleCollisions(actors1, actors2[..n], meets);
      var sweep := Sweep(actors2[n], front.actors1, meets);
      var r := Collided(sweep.others, front.actors2 + [sweep.actor], front.released + sweep.released);
      CollidedFirst(actors1, actors2, meets, front, sweep, r);
      CollidedSecond(actors1, actors2, meets, front, sweep, r);
      CollidedReleases(front, sweep, r);
      CollidedFrees(actors1, actors2, front, sweep, r);
      r
  }

  lemma CollidedFirst(actors1: seq<Actor>, actors2: seq<Actor>, meets: Intersects, front: Collided, sweep: Swept, r: Collided)
    requires actors2 != []
    requires |front.actors1| == |actors1|
    requires forall i :: 0 <= i < |actors1| ==>
               front.actors1[i] == DamageTimes(actors1[i], StruckBy(actors2[..|actors2| - 1], FrameOf(actors1[i]), meets)).actor
    requires sweep == Sweep(actors2[|actors2| - 1], front.actors1, meets)
    requires r.actors1 == sweep.others
    ensures forall i :: 0 <= i < |actors1| ==>
              r.actors1[i] == DamageTimes(actors1[i], StruckBy(actors2, FrameOf(actors1[i]), meets)).actor
  {
    var last := actors2[|actors2| - 1];
    forall i | 0 <= i < |actors1|
      ensures r.actors1[i] == DamageTimes(actors1[i], StruckBy(actors2, FrameOf(actors1[i]), meets)).actor
    {
      OneMoreStrike(actors1[i], actors2, meets, front.actors1[i], r.actors1[i]);
    }
  }

  /** One more partner in the outer loop means one more hit for an actor of the inner list. */
  lemma OneMoreStrike(a: Actor, actors2: seq<Actor>, meets: Intersects, before: Actor, after: Actor)
    requires actors2 != []
    requires before == DamageTimes(a, StruckBy(actors2[..|actors2| - 1], FrameOf(a), meets)).actor
    requires after == if meets(FrameOf(actors2[|actors2| - 1]), FrameOf(before)) then TakeDamage(before).actor else before
    ensures after == DamageTimes(a, StruckBy(actors2, FrameOf(a), meets)).actor
  {
    LastStrike(a, actors2, meets, before);
    DamageStep(a, StruckBy(actors2[..|actors2| - 1], FrameOf(a), meets), StruckBy(actors2, FrameOf(a), meets),
               meets(FrameOf(actors2[|actors2| - 1]), FrameOf(before)), before, after);
  }

  /** The last actor of `xs` counts for a damaged actor exactly as it would for the undamaged one. */
  lemma LastStrike(a: Actor, xs: seq<Actor>, meets: Intersects, before: Actor)
    requires xs != []
    requires DamagedFrom(before, a)
    ensures StruckBy(xs, FrameOf(a), meets)
         == StruckBy(xs[..|xs| - 1], FrameOf(a), meets) + (if meets(FrameOf(xs[|xs| - 1]), FrameOf(before)) then 1 else 0)
  {
    DamagedKeepsFrame(before, a);
  }

  /** One more hit, or none, after `n` hits. */
  lemma DamageStep(a: Actor, n: nat, total: nat, hit: bool, before: Actor, after: Actor)
    requires before == DamageTimes(a, n).actor
    requires after == if hit then TakeDamage(before).actor else before
    requires total == n + (if hit then 1 else 0)
    ensures after == DamageTimes(a, total).actor
  {
  }

  lemma CollidedSecond(actors1: seq<Actor>, actors2: seq<Actor>, meets: Intersects, front: Collided, sweep: Swept, r: Collided)
    requires actors2 != []
    requires |front.actors2| == |actors2| - 1
    requires AllDamagedFrom(front.actors1, actors1)
    requires forall j :: 0 <= j < |actors2| - 1 ==>
               front.actors2[j] == DamageTimes(actors2[j], Struck(FrameOf(actors2[j]), actors1, meets)).actor
    requires sweep == Sweep(actors2[|actors2| - 1], front.actors1, meets)
    requires r.actors2 == front.actors2 + [sweep.actor]
    ensures forall j :: 0 <= j < |actors2| ==>
              r.actors2[j] == DamageTimes(actors2[j], Struck(FrameOf(actors2[j]), actors1, meets)).actor
  {
    var n := |actors2| - 1;
    StruckSeesFrames(FrameOf(actors2[n]), actors1, front.actors1, meets);
  }

  /** One more outer round: its deaths join the released slots, and the earlier ones stay recorded. */
  lemma CollidedFrees(actors1: seq<Actor>, actors2: seq<Actor>, front: Collided, sweep: Swept, r: Collided)
    requires actors2 != []
    requires AllDamagedFrom(front.actors1, actors1)
    requires AllFreed(front.released, front.actors1, actors1)
    requires AllFreed(front.released, front.actors2, actors2[..|actors2| - 1])
    requires AllFreed(sweep.released, sweep.others, front.actors1)
    requires Freed(sweep.released, sweep.actor, actors2[|actors2| - 1])
    requires r == Collided(sweep.others, front.actors2 + [sweep.actor], front.released + sweep.released)
    ensures AllFreed(r.released, r.actors1, actors1) && AllFreed(r.released, r.actors2, actors2)
  {
    forall i | 0 <= i < |actors1|
      ensures Freed(r.released, r.actors1[i], actors1[i])
    {
      assert DamagedFrom(front.actors1[i], actors1[i]);
      FreedChain(front.released, sweep.released, sweep.others[i], front.actors1[i], actors1[i]);
    }
    var n := |actors2| - 1;
    forall j | 0 <= j < |actors2|
      ensures Freed(r.released, r.actors2[j], actors2[j])
    {
      if j < n {
        assert r.actors2[j] == front.actors2[j] && actors2[..n][j] == actors2[j];
        assert Freed(front.released, front.actors2[j], actors2[..n][j]);
      } else {
        assert r.actors2[j] == sweep.actor;
      }
    }
  }

  lemma CollidedReleases(front: Collided, sweep: Swept, r: Collided)
    requires ReleasedBy(front.released, front.actors1 + front.actors2)
    requires ReleasedBy(sweep.released, sweep.others + [sweep.actor])
    requires AllDamagedFrom(sweep.others, front.actors1)
    requires r == Collided(sweep.others, front.actors2 + [sweep.actor], front.released + sweep.released)
    ensures ReleasedBy(r.released, r.actors1 + r.actors2)
  {
    var after := r.actors1 + r.actors2;
    assert after == sweep.others + front.actors2 + [sweep.actor];
    forall s | s in r.released
      ensures DiedHolding(after, s)
    {
      if s in front.released {
        var before := front.actors1 + front.actors2;
        var k :| 0 <= k < |before| && before[k].destroyed && before[k].onDestroyed == FreeSlot(s);
        if k < |front.actors1| {
          assert DamagedFrom(sweep.others[k], front.actors1[k]);
          assert after[k] == sweep.others[k];
        } else {
          assert after[k] == before[k];
        }
      } else {
        var both := sweep.others + [sweep.actor];
        var k :| 0 <= k < |both| && both[k].destroyed && both[k].onDestroyed == FreeSlot(s);
        if k < |sweep.others| {
          assert after[k] == both[k];
        } else {
          assert after[|after| - 1] == both[k];
        }
      }
    }
  }

  /** `enemyHasPenetratedDefenses`: the enemy's screen x is left of 0. */
  function Penetrated(e: Actor): (b: bool)
    ensures b <==> e.pos.translateX + e.pos.layoutX < 0
  {
    e.pos.X() < 0
  }

  /** How many enemies of `es` are past the defences. */
  function Breaches(es: seq<Actor>): (n: nat)
    ensures n <= |es|
  {
    if es == [] then 0 else Breaches(es[..|es| - 1]) + (if Penetrated(es[|es| - 1]) then 1 else 0)
  }

  /** The user and the enemies after `handleEnemyPenetration`, and the slots released. */
  datatype Breached = Breached(user: Actor, enemies: seq<Actor>, released: seq<Slot>)

  /**
   `handleEnemyPenetration(user, enemyUnits)`: every enemy past x < 0, in order, damages the user
   once and is destroyed (whatever its health); the others are left alone.
   */
  function HandleEnemyPenetration(user: Actor, es: seq<Actor>): (r: Breached)
    ensures |r.enemies| == |es|
    ensures forall k :: 0 <= k < |es| ==> r.enemies[k] == if Penetrated(es[k]) then Destroy(es[k]).actor else es[k]
    ensures r.user == DamageTimes(user, Breaches(es)).actor
    ensures AllDamagedFrom(r.enemies, es)
    ensures ReleasedBy(r.released, [r.user] + r.enemies)
    ensures forall k :: 0 <= k < |es| && Penetrated(es[k]) && es[k].onDestroyed.FreeSlot? ==> es[k].onDestroyed.slot in r.released
    ensures Freed(r.released, r.user, user)
    decreases |es|
  {
    if es == [] then Breached(user, [], [])
    else
      var n := |es| - 1;
      var front := HandleEnemyPenetration(user, es[..n]);
      var e := es[n];
      if Penetrated(e) then
        var hit := TakeDamage(front.user);
        var gone := Destroy(e);
        var r := Breached(hit.actor, front.enemies + [gone.actor], front.released + hit.released + gone.released);
        BreachHit(user, es, front, hit, gone, r);
        r
      else
        var r := Breached(front.user, front.enemies + [e], front.released);
        BreachMiss(user, es, front, r);
        r
  }

  /** The last enemy is past the edge: the contract carries over from the shorter list. */
  lemma BreachHit(user: Actor, es: seq<Actor>, front: Breached, hit: Affected, gone: Affected, r: Breached)
    requires es != [] && Penetrated(es[|es| - 1])
    requires var past := es[..|es| - 1];
             && |front.enemies| == |past|
             && (forall k :: 0 <= k < |past| ==> front.enemies[k] == if Penetrated(past[k]) then Destroy(past[k]).actor else past[k])
             && front.user == DamageTimes(user, Breaches(past)).actor
             && AllDamagedFrom(front.enemies, past)
             && ReleasedBy(front.released, [front.user] + front.enemies)
             && (forall k :: 0 <= k < |past| && Penetrated(past[k]) && past[k].onDestroyed.FreeSlot? ==>
                   past[k].onDestroyed.slot in front.released)
             && Freed(front.released, front.user, user)
    requires hit == TakeDamage(front.user) && gone == Destroy(es[|es| - 1])
    requires r == Breached(hit.actor, front.enemies + [gone.actor], front.released + hit.released + gone.released)
    ensures |r.enemies| == |es|
    ensures forall k :: 0 <= k < |es| ==> r.enemies[k] == if Penetrated(es[k]) then Destroy(es[k]).actor else es[k]
    ensures r.user == DamageTimes(user, Breaches(es)).actor
    ensures AllDamagedFrom(r.enemies, es)
    ensures ReleasedBy(r.released, [r.user] + r.enemies)
    ensures forall k :: 0 <= k < |es| && Penetrated(es[k]) && es[k].onDestroyed.FreeSlot? ==> es[k].onDestroyed.slot in r.released
    ensures Freed(r.released, r.user, user)
  {
    var n := |es| - 1;
    assert forall k :: 0 <= k < n ==> es[..n][k] == es[k] && r.enemies[k] == front.enemies[k];
    DamageStep(user, Breaches(es[..n]), Breaches(es), true, front.user, r.user);
    BreachReleases(front, hit, gone, r);
    BreachFrees(user, es, front, hit, gone, r);
  }

  /** The last enemy is short of the edge: it is kept as it is and the rest carries over. */
  lemma BreachMiss(user: Actor, es: seq<Actor>, front: Breached, r: Breached)
    requires es != [] && !Penetrated(es[|es| - 1])
    requires var past := es[..|es| - 1];
             && |front.enemies| == |past|
             && (forall k :: 0 <= k < |past| ==> front.enemies[k] == if Penetrated(past[k]) then Destroy(past[k]).actor else past[k])
             && front.user == DamageTimes(user, Breaches(past)).actor
             && AllDamagedFrom(front.enemies, past)
             && ReleasedBy(front.released, [front.user] + front.enemies)
             && (forall k :: 0 <= k < |past| && Penetrated(past[k]) && past[k].onDestroyed.FreeSlot? ==>
                   past[k].onDestroyed.slot in front.released)
             && Freed(front.released, front.user, user)
    requires r == Breached(front.user, front.enemies + [es[|es| - 1]], front.released)
    ensures |r.enemies| == |es|
    ensures forall k :: 0 <= k < |es| ==> r.enemies[k] == if Penetrated(es[k]) then Destroy(es[k]).actor else es[k]
    ensures r.user == DamageTimes(user, Breaches(es)).actor
    ensures AllDamagedFrom(r.enemies, es)
    ensures ReleasedBy(r.released, [r.user] + r.enemies)
    ensures forall k :: 0 <= k < |es| && Penetrated(es[k]) && es[k].onDestroyed.FreeSlot? ==> es[k].onDestroyed.slot in r.released
    ensures Freed(r.released, r.user, user)
  {
    var n := |es| - 1;
    assert forall k :: 0 <= k < n ==> es[..n][k] == es[k] && r.enemies[k] == front.enemies[k];
    BreachSpares(front, es[n], r);
    BreachFreesMiss(es, front, r);
  }

  /** A penetrating last enemy: its own slot and the user's, should the hit kill the user, join the earlier ones. */
  lemma BreachFrees(user: Actor, es: seq<Actor>, front: Breached, hit: Affected, gone: Affected, r: Breached)
    requires es != []
    requires var past := es[..|es| - 1];
             forall k :: 0 <= k < |past| && Penetrated(past[k]) && past[k].onDestroyed.FreeSlot? ==>
               past[k].onDestroyed.slot in front.released
    requires Freed(front.released, front.user, user) && front.user.onDestroyed == user.onDestroyed
    requires hit == TakeDamage(front.user) && gone == Destroy(es[|es| - 1])
    requires r == Breached(hit.actor, front.enemies + [gone.actor], front.released + hit.released + gone.released)
    ensures forall k :: 0 <= k < |es| && Penetrated(es[k]) && es[k].onDestroyed.FreeSlot? ==> es[k].onDestroyed.slot in r.released
    ensures Freed(r.released, r.user, user)
  {
    var n := |es| - 1;
    assert forall k :: 0 <= k < n ==> es[..n][k] == es[k];
    FreedChain(front.released, hit.released, hit.actor, front.user, user);
  }

  /** A last enemy short of the edge: nothing new is released and nothing new dies. */
  lemma BreachFreesMiss(es: seq<Actor>, front: Breached, r: Breached)
    requires es != [] && !Penetrated(es[|es| - 1])
    requires var past := es[..|es| - 1];
             forall k :: 0 <= k < |past| && Penetrated(past[k]) && past[k].onDestroyed.FreeSlot? ==>
               past[k].onDestroyed.slot in front.released
    requires r.released == front.released
    ensures forall k :: 0 <= k < |es| && Penetrated(es[k]) && es[k].onDestroyed.FreeSlot? ==> es[k].onDestroyed.slot in r.released
  {
    var n := |es| - 1;
    assert forall k :: 0 <= k < n ==> es[..n][k] == es[k];
  }

  lemma BreachSpares(front: Breached, e: Actor, r: Breached)
    requires ReleasedBy(front.released, [front.user] + front.enemies)
    requires r == Breached(front.user, front.enemies + [e], front.released)
    ensures ReleasedBy(r.released, [r.user] + r.enemies)
  {
    assert [r.user] + r.enemies == [] + ([front.user] + front.enemies) + [e];
    forall s | s in r.released
      ensures DiedHolding([r.user] + r.enemies, s)
    {
      DiedHoldingGrows([front.user] + front.enemies, [], [e], s);
    }
  }

  lemma BreachReleases(front: Breached, hit: Affected, gone: Affected, r: Breached)
    requires ReleasedBy(front.released, [front.user] + front.enemies)
    requires hit == TakeDamage(front.user)
    requires gone.actor.destroyed
    requires forall s :: s in gone.released ==> gone.actor.onDestroyed == FreeSlot(s)
    requires r == Breached(hit.actor, front.enemies + [gone.actor], front.released + hit.released + gone.released)
    ensures ReleasedBy(r.released, [r.user] + r.enemies)
  {
    var before := [front.user] + front.enemies;
    var after := [r.user] + r.enemies;
    forall s | s in r.released
      ensures DiedHolding(after, s)
    {
      if s in front.released {
        var k :| 0 <= k < |before| && before[k].destroyed && before[k].onDestroyed == FreeSlot(s);
        if k == 0 {
          assert after[0] == hit.actor;
        } else {
          assert after[k] == before[k];
        }
      } else if s in hit.released {
        assert after[0] == hit.actor;
      } else {
        assert after[|after| - 1] == gone.actor;
      }
    }
  }

  /** The enemies a penetration pass leaves alone are exactly those not past the defences. */
  lemma PenetrationSparesTheRest(user: Actor, es: seq<Actor>, k: nat)
    requires k < |es| && !Penetrated(es[k])
    ensures HandleEnemyPenetration(user, es).enemies[k] == es[k]
  {
  }

  /**
   `removeDestroyedActors`: the destroyed actors are dropped, the rest keep their order. Nothing
   destroyed survives and nothing live is dropped.
   */
  function Purge(xs: seq<Actor>): (r: seq<Actor>)
    ensures forall k :: 0 <= k < |r| ==> !r[k].destroyed
    ensures forall x :: x in r <==> x in xs && !x.destroyed
    ensures |r| <= |xs|
    decreases |xs|
  {
    if xs == [] then []
    else
      var n := |xs| - 1;
      if xs[n].destroyed then Purge(xs[..n])
      else
        assert forall x :: x in xs <==> x in xs[..n] || x == xs[n];
        Purge(xs[..n]) + [xs[n]]
  }

  /** Purging works piecewise, so survivors keep their relative order. */
  lemma {:induction false} PurgeAppend(a: seq<Actor>, b: seq<Actor>)
    ensures Purge(a + b) == Purge(a) + Purge(b)
    decreases |b|
  {
    if b == [] {
      assert a + b == a;
    } else {
      var n := |b| - 1;
      assert (a + b)[..|a + b| - 1] == a + b[..n];
      PurgeAppend(a, b[..n]);
    }
  }

  /** A list with nothing destroyed is left as it is. */
  lemma {:induction false} PurgeKeepsLive(xs: seq<Actor>)
    requires forall k :: 0 <= k < |xs| ==> !xs[k].destroyed
    ensures Purge(xs) == xs
    decreases |xs|
  {
    if xs != [] {
      PurgeKeepsLive(xs[..|xs| - 1]);
    }
  }
}
