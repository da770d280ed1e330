/**
 `takeDamage` for every kind of actor: a FighterJet loses one health point and is destroyed when
 its health reaches exactly zero, the Boss ignores hits while shielded, and missiles and meteors
 are destroyed by any hit.
 */
module Damage {
  import opened Slots
  import opened Actors

  /**
   `FighterJet.takeDamage`: one health point less; `destroy` runs only when the new health is
   exactly 0, so a jet already below zero is not destroyed again.
   */
  function JetHit(a: Actor): (r: Affected)
    requires a.body.Jet?
    ensures r.actor.body.Jet? && r.actor.body.pilot == a.body.pilot
    ensures r.actor.body.health == a.body.health - 1
    ensures r.actor.pos == a.pos && r.actor.onDestroyed == a.onDestroyed
    ensures r.actor.destroyed <==> a.destroyed || a.body.health == 1
    ensures a.body.health == 1 ==> r.released == Runs(a.onDestroyed)
    ensures a.body.health != 1 ==> r.released == []
  {
    var hit := a.(body := a.body.(health := a.body.health - 1));
    if hit.body.health == 0 then Destroy(hit) else Affected(hit, [])
  }

  /**
   `takeDamage` as each class overrides it: the Boss delegates to the FighterJet rule only while
   unshielded; missiles and meteors call `destroy` on every hit.
   */
  function TakeDamage(a: Actor): (r: Affected)
    ensures DamagedFrom(r.actor, a)
    ensures IsShielded(a) ==> r.actor == a && r.released == []
    ensures a.body.Jet? && !IsShielded(a) ==>
              && r.actor.body.health == a.body.health - 1
              && (r.actor.destroyed <==> a.destroyed || a.body.health == 1)
              && r.released == (if a.body.health == 1 then Runs(a.onDestroyed) else [])
    ensures !a.body.Jet? ==> r.actor == a.(destroyed := true) && r.released == Runs(a.onDestroyed)
    ensures Freed(r.released, r.actor, a)
  {
    match a.body
    case Jet(_, pilot) =>
      if pilot.BossPilot? && pilot.brain.shielded then Affected(a, []) else JetHit(a)
    case Missile(_) => Destroy(a)
    case Rock(_) => Destroy(a)
  }

  /** `n` successive `takeDamage` calls, with every slot released along the way, in order. */
  function DamageTimes(a: Actor, n: nat): (r: Affected)
    ensures DamagedFrom(r.actor, a)
    ensures n == 0 ==> r == Affected(a, [])
    decreases n
  {
    if n == 0 then Affected(a, [])
    else
      var before := DamageTimes(a, n - 1);
      var hit := TakeDamage(before.actor);
      Affected(hit.actor, before.released + hit.released)
  }

  /**
   An unshielded jet hit `n` times has lost exactly `n` health points; it ends destroyed exactly
   when it already was or one of the hits took its health to 0, and then its callback ran once.
   */
  lemma {:induction false} JetHits(a: Actor, n: nat)
    requires a.body.Jet? && !IsShielded(a)
    ensures DamageTimes(a, n).actor.body.health == a.body.health - n
    ensures DamageTimes(a, n).actor.destroyed <==> a.destroyed || 1 <= a.body.health <= n
    ensures DamageTimes(a, n).released == (if 1 <= a.body.health <= n then Runs(a.onDestroyed) else [])
  {
    if n > 0 {
      JetHits(a, n - 1);
      var before := DamageTimes(a, n - 1);
      assert before.actor.body.pilot == a.body.pilot;
      assert !IsShielded(before.actor);
    }
  }

  /** The shielded Boss comes out of any number of hits unchanged, and nothing is released. */
  lemma {:induction false} ShieldedIgnoresHits(a: Actor, n: nat)
    requires IsShielded(a)
    ensures DamageTimes(a, n) == Affected(a, [])
  {
    if n > 0 {
      ShieldedIgnoresHits(a, n - 1);
      var hit := TakeDamage(a);
      assert hit == Affected(a, []);
      assert DamageTimes(a, n) == Affected(hit.actor, [] + hit.released);
    }
  }

  /**
   A missile or meteor is destroyed by the first hit and stays destroyed; every further hit runs
   its callback once more.
   */
  lemma {:induction false} OneHitKills(a: Actor, n: nat)
    requires !a.body.Jet? && n >= 1
    ensures DamageTimes(a, n).actor == a.(destroyed := true)
    ensures |DamageTimes(a, n).released| == n * |Runs(a.onDestroyed)|
    ensures forall k :: 0 <= k < |DamageTimes(a, n).released| ==> a.onDestroyed == FreeSlot(DamageTimes(a, n).released[k])
  {
    if n > 1 {
      OneHitKills(a, n - 1);
    }
  }

  /** An EnemyJet is destroyed by its first hit. */
  lemma EnemyJetDiesOnFirstHit(x: int, y: int)
    ensures DamageTimes(NewEnemyJet(x, y), 1).actor.destroyed
  {
    JetHits(NewEnemyJet(x, y), 1);
  }

  /** A BossJet survives two hits and is destroyed by the third. */
  lemma BossJetSurvivesTwoHits(x: int, y: int)
    ensures !DamageTimes(NewBossJet(x, y), 2).actor.destroyed
    ensures DamageTimes(NewBossJet(x, y), 3).actor.destroyed
  {
    JetHits(NewBossJet(x, y), 2);
    JetHits(NewBossJet(x, y), 3);
  }
}
