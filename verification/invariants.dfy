/**
 What holds of a level between frames, and that every frame keeps it. The central facts: the
 destruction callbacks live only on enemies, no two live enemies hold the same spawn lane, every
 lane a live enemy holds is recorded as used (so the allocator never hands out an occupied lane)
 and every lane recorded as used has a live holder (so a destroyed enemy's lane returns to the pool),
 the lists stay within their caps, LevelTwo's listed enemy is its one Boss, and a running level
 still lists its user, so the penetration check's `get(0)` never throws.
 */
module Invariants {
  import opened Wrappers
  import opened Slots
  import opened Actors
  import opened Damage
  import opened Motion
  import opened Collisions
  import opened Lanes
  import opened Spawning
  import opened Hearts
  import opened Levels
  import opened Scene

  /** Only enemies carry callbacks, and in LevelTwo none does: the Boss gets none. */
  ghost predicate Callbacks(l: Level)
  {
    && l.user.onDestroyed == NoCallback
    && NoCallbacks(l.userShots) && NoCallbacks(l.enemyShots) && NoCallbacks(l.meteors)
    && (l.rules.LevelTwo? ==> NoCallbacks(l.enemies) && l.rules.boss.onDestroyed == NoCallback)
  }

  /**
   Lanes held by enemies are distinct and recorded as used, and every lane recorded as used is held
   by a live enemy: none stays taken after its enemy is gone.
   */
  ghost predicate LanesOk(l: Level)
  {
    LanesDistinct(l.enemies) && LanesHeld(l.enemies, l.used) && NoLeak(l.enemies, l.used)
  }

  /** At most five enemies (one in LevelTwo) and two meteors; no meteors where the level has none. */
  ghost predicate Bounded(l: Level)
  {
    && |l.enemies| <= TotalEnemies && |l.meteors| <= MaxMeteorsOnScreen
    && (!HasMeteors(l.rules) ==> l.meteors == [])
    && (l.rules.LevelTwo? ==> |l.enemies| <= 1)
  }

  /** What holds at every step within a frame. */
  ghost predicate Sound(l: Level)
  {
    Callbacks(l) && LanesOk(l) && Bounded(l)
  }

  /** LevelTwo lists nothing or its Boss, as the record the level keeps. */
  ghost predicate BossListed(l: Level)
  {
    l.rules.LevelTwo? ==> l.enemies == [] || l.enemies == [l.rules.boss]
  }

  /** The invariant between frames. */
  ghost predicate Inv(l: Level)
  {
    Sound(l) && BossListed(l) && AllLive(l.enemies) && (l.stopped || l.userListed)
  }

  /**
   Between frames the used lanes are exactly the lanes the listed enemies hold: a lane is taken
   while its enemy is on screen and back in the pool once the enemy is gone.
   */
  lemma UsedLanesAreHeld(l: Level, s: Slot)
    requires Inv(l) && s.Lane?
    ensures s in l.used <==> exists i :: 0 <= i < |l.enemies| && l.enemies[i].onDestroyed == FreeSlot(s)
  {
    if s in l.used {
      assert LiveHolder(l.enemies, s);
    }
    if exists i :: 0 <= i < |l.enemies| && l.enemies[i].onDestroyed == FreeSlot(s) {
      var i :| 0 <= i < |l.enemies| && l.enemies[i].onDestroyed == FreeSlot(s);
      assert !l.enemies[i].destroyed && HoldsLane(l.enemies[i]);
    }
  }

  /** Entries without callbacks hold no lanes at all. */
  lemma QuietLanes(xs: seq<Actor>, used: set<Slot>)
    requires NoCallbacks(xs)
    ensures LanesDistinct(xs) && LanesHeld(xs, used)
  {
  }

  /** A fresh level of any stage satisfies the invariant. */
  lemma NewLevelInv(stage: Stage, screenHeight: int, screenWidth: int, bossOrder: seq<int>)
    ensures Inv(NewLevel(stage, screenHeight, screenWidth, bossOrder))
  {
  }

  lemma SpawnKeeps(l: Level, rolls: seq<SpawnRoll>, meteorX: int)
    requires Sound(l) && AllLive(l.enemies)
    ensures Sound(SpawnPhase(l, rolls, meteorX))
  {
    var r := SpawnPhase(l, rolls, meteorX);
    if l.rules.LevelTwo? {
      QuietLanes(r.enemies, r.used);
    } else {
      var w := SpawnEnemies(Wave(l.enemies, l.used), rolls, FoeOf(l.rules), l.screenWidth, l.enemyMaxY);
      assert r.enemies == w.enemies && r.used == w.used;
    }
  }

  lemma ActKeeps(l: Level, dice: seq<Dice>)
    requires Sound(l)
    ensures Sound(ActPhase(l, dice))
  {
    var r := ActPhase(l, dice);
    SameTagsKeep(r.enemies, l.enemies, l.used);
    SameTagsKeep(r.userShots, l.userShots, l.used);
    SameTagsKeep(r.meteors, l.meteors, l.used);
  }

  lemma PenetrationKeeps(l: Level)
    requires Sound(l) && l.userListed
    ensures Sound(PenetrationPhase(l).value)
  {
    var b := HandleEnemyPenetration(l.user, l.enemies);
    var r := PenetrationPhase(l).value;
    assert DeadFreed(r.enemies, l.enemies, r.used);
    DamageKeepsNoLeak(l.enemies, r.enemies, l.used, r.used);
    assert NoCallbacks([b.user]);
    assert [b.user] + b.enemies + [] == [b.user] + b.enemies;
    ReleaseAmongKeepsHeld([b.user], l.enemies, b.enemies, [], l.used, b.released);
    DamageKeepsCallbacks(b.enemies, l.enemies);
  }

  lemma UserShotsKeep(l: Level, meets: Intersects)
    requires Sound(l)
    ensures Sound(UserProjectileCollisions(l, meets))
  {
    var c := HandleCollisions(l.userShots, l.enemies, meets);
    DamageKeepsCallbacks(c.actors1, l.userShots);
    DamageKeepsCallbacks(c.actors2, l.enemies);
    assert c.actors1 + c.actors2 + [] == c.actors1 + c.actors2;
    ReleaseAmongKeepsHeld(c.actors1, l.enemies, c.actors2, [], l.used, c.released);
    var r := UserProjectileCollisions(l, meets);
    DamageKeepsNoLeak(l.enemies, r.enemies, l.used, r.used);
  }

  lemma EnemyShotsKeep(l: Level, meets: Intersects)
    requires Sound(l)
    ensures Sound(EnemyProjectileCollisions(l, meets))
  {
    var c := HandleCollisions(l.enemyShots, Friendly(l), meets);
    DamageKeepsCallbacks(c.actors1, l.enemyShots);
    DamageKeepsCallbacks(c.actors2, Friendly(l));
    ReleaseElsewhereKeepsHeld(c.actors1 + c.actors2, l.enemies, l.used, c.released);
  }

  lemma PlanesKeep(l: Level, meets: Intersects)
    requires Sound(l)
    ensures Sound(PlaneCollisions(l, meets))
  {
    var c := HandleCollisions(Friendly(l), l.enemies, meets);
    DamageKeepsCallbacks(c.actors1, Friendly(l));
    DamageKeepsCallbacks(c.actors2, l.enemies);
    assert c.actors1 + c.actors2 + [] == c.actors1 + c.actors2;
    ReleaseAmongKeepsHeld(c.actors1, l.enemies, c.actors2, [], l.used, c.released);
    var r := PlaneCollisions(l, meets);
    DamageKeepsNoLeak(l.enemies, r.enemies, l.used, r.used);
  }

  /** A one-entry list keeps its entry exactly when it is live. */
  lemma PurgeSingle(e: Actor)
    ensures Purge([e]) == if e.destroyed then [] else [e]
  {
    assert [e][..0] == [];
  }

  lemma PurgeKeeps(l: Level)
    requires Sound(l)
    ensures var r := RemoveAllDestroyedActors(l);
            Sound(r) && BossListed(r) && AllLive(r.enemies)
  {
    var r := RemoveAllDestroyedActors(l);
    PurgeKeepsLanes(l.enemies, l.used);
    PurgeKeepsLanes(l.userShots, l.used);
    PurgeKeepsLanes(l.enemyShots, l.used);
    PurgeKeepsLanes(l.meteors, l.used);
    PurgeKeepsNoLeak(l.enemies, l.used);
    if l.rules.LevelTwo? && |l.enemies| == 1 {
      PurgeSingle(l.enemies[0]);
      assert l.enemies == [l.enemies[0]];
    }
  }

  /**
   The collision passes, purge, kill count and heart update keep the frame's facts, and leave
   LevelTwo listing only its Boss and no list holding a destroyed enemy.
   */
  lemma ResolveKeeps(l: Level, meets: Intersects)
    requires Sound(l)
    ensures var r := Resolve(l, meets);
            Sound(r) && BossListed(r) && AllLive(r.enemies)
            && (r.userListed <==> l.userListed && !r.user.destroyed)
  {
    var a := UserProjectileCollisions(l, meets);
    UserShotsKeep(l, meets);
    var b := EnemyProjectileCollisions(a, meets);
    EnemyShotsKeep(a, meets);
    var c := PlaneCollisions(b, meets);
    PlanesKeep(b, meets);
    PurgeKeeps(c);
  }

  lemma AftermathKeeps(l: Level, meets: Intersects)
    requires Sound(l) && BossListed(l) && AllLive(l.enemies)
    ensures var r := Aftermath(l, meets);
            Sound(r) && BossListed(r) && AllLive(r.enemies)
  {
    var m := Misc(l);
    var r := MeteorCollisions(m, meets);
    if HasMeteors(m.rules) {
      var c := HandleCollisions(Friendly(m), m.meteors, meets);
      DamageKeepsCallbacks(c.actors1, Friendly(m));
      DamageKeepsCallbacks(c.actors2, m.meteors);
      ReleaseElsewhereKeepsHeld(c.actors1 + c.actors2, m.enemies, m.used, c.released);
      DamageKeepsCallbacks(DestroyFallen(r.meteors).meteors, r.meteors);
    }
  }

  /** Spawning, acting and the penetration check keep the frame's facts and leave the user listed. */
  lemma PrepareKeeps(l: Level, luck: Luck)
    requires Inv(l) && !l.stopped
    ensures PenetrationPhase(Prepare(l, luck)).Some?
    ensures Sound(PenetrationPhase(Prepare(l, luck)).value) && PenetrationPhase(Prepare(l, luck)).value.userListed
  {
    var s := SpawnPhase(l, luck.rolls, luck.meteorX);
    SpawnKeeps(l, luck.rolls, luck.meteorX);
    ActKeeps(s, luck.dice);
    PenetrationKeeps(Prepare(l, luck));
  }

  /** A user destroyed by the frame makes `checkIfGameOver` stop the timeline, so the level is running only while it is listed. */
  lemma ConcludeKeeps(l: Level, meets: Intersects)
    requires Sound(l) && BossListed(l) && AllLive(l.enemies)
    requires l.userListed || l.user.destroyed
    ensures Inv(Aftermath(CheckIfGameOver(l).level, meets))
  {
    var checked := CheckIfGameOver(l);
    AftermathKeeps(checked.level, meets);
    AftermathKeepsRules(checked.level, meets);
  }

  /**
   Every frame keeps the invariant, and a level satisfying it never throws: while the timeline
   runs the user is still listed.
   */
  lemma TickKeeps(l: Level, luck: Luck)
    requires Inv(l)
    ensures Tick(l, luck).Ticked? && Inv(Tick(l, luck).level)
  {
    if !l.stopped {
      PrepareKeeps(l, luck);
      var breached := PenetrationPhase(Prepare(l, luck)).value;
      ResolveKeeps(breached, luck.meets);
      ConcludeKeeps(Resolve(breached, luck.meets), luck.meets);
    }
  }
}
