/**
 The levels' `spawnEnemyUnits`: the wave of enemy jets placed on free lanes (LevelOne, LevelThree,
 LevelFour), the meteor top-up (LevelThree, LevelFour) and the Boss re-entry (LevelTwo). Every
 random draw is an input.
 */
module Spawning {
  import opened Geometry
  import opened Slots
  import opened Actors
  import opened Lanes

  /** `TOTAL_ENEMIES`: the spawn loop makes this many attempts less the enemies already listed. */
  const TotalEnemies: int := 5
  /** `MAX_METEORS_ON_SCREEN`. */
  const MaxMeteorsOnScreen: int := 2
  /** Meteors enter at a random x below this bound, at y = 0, falling 10 per frame. */
  const MeteorSpread: int := 1200
  const MeteorSpeed: int := 10

  /**
   The draws of one attempt of the spawn loop: whether `Math.random() < ENEMY_SPAWN_PROBABILITY`,
   the random index into the free lanes, and the random height used when no lane is free.
   */
  datatype SpawnRoll = SpawnRoll(spawns: bool, pick: nat, overflowY: int)

  const NoSpawn: SpawnRoll := SpawnRoll(false, 0, 0)

  /** The kind of jet a level's waves are made of. */
  datatype Foe = EnemyJets | BossJets

  function NewFoe(foe: Foe, x: int, y: int): (a: Actor)
    ensures a.body.Jet? && !a.destroyed && a.onDestroyed == NoCallback
    ensures a.pos == Place(x, y)
    ensures foe == EnemyJets ==> a == NewEnemyJet(x, y)
    ensures foe == BossJets ==> a == NewBossJet(x, y)
  {
    match foe
    case EnemyJets => NewEnemyJet(x, y)
    case BossJets => NewBossJet(x, y)
  }

  /** The enemy list and the used spawn slots (`usedYPositions`). */
  datatype Wave = Wave(enemies: seq<Actor>, used: set<Slot>)

  /**
   One attempt: on a successful roll a slot is allocated, the jet is placed at the screen's right
   edge at the slot's height, the slot is recorded as used, and the jet's callback frees it.
   */
  function SpawnOne(w: Wave, roll: SpawnRoll, foe: Foe, screenWidth: int, enemyMaxY: int): (r: Wave)
    ensures !roll.spawns ==> r == w
    ensures roll.spawns ==>
              var s := Allocate(w.used, roll.pick, roll.overflowY);
              && r.enemies == w.enemies + [SetOnDestroyed(NewFoe(foe, screenWidth, SlotY(s, enemyMaxY)), FreeSlot(s))]
              && r.used == w.used + {s}
  {
    if roll.spawns then
      var s := Allocate(w.used, roll.pick, roll.overflowY);
      var enemy := NewFoe(foe, screenWidth, SlotY(s, enemyMaxY));
      Wave(w.enemies + [SetOnDestroyed(enemy, FreeSlot(s))], w.used + {s})
    else
      w
  }

  /** How many of the attempts roll a spawn. */
  function Successes(rolls: seq<SpawnRoll>): (n: nat)
    ensures n <= |rolls|
    ensures (forall i :: 0 <= i < |rolls| ==> !rolls[i].spawns) ==> n == 0
    ensures (forall i :: 0 <= i < |rolls| ==> rolls[i].spawns) ==> n == |rolls|
    decreases |rolls|
  {
    if rolls == [] then 0
    else Successes(rolls[..|rolls| - 1]) + (if rolls[|rolls| - 1].spawns then 1 else 0)
  }

  /** What the spawn loop promises of the enemies it appended after position `from`. */
  ghost predicate Spawned(r: Wave, from: nat, foe: Foe, screenWidth: int, enemyMaxY: int)
    requires from <= |r.enemies|
  {
    forall k :: from <= k < |r.enemies| ==>
      && r.enemies[k].onDestroyed.FreeSlot?
      && r.enemies[k].onDestroyed.slot in r.used
      && r.enemies[k] == SetOnDestroyed(NewFoe(foe, screenWidth, SlotY(r.enemies[k].onDestroyed.slot, enemyMaxY)),
                                        r.enemies[k].onDestroyed)
  }

  /**
   The spawn loop over the given attempts, in order. Every successful roll appends exactly one jet
   and a failed roll appends none. The enemies already listed stay as they are; each new one is
   live, on a slot recorded as used, and no two jets of the wave share a lane, nor does any take a
   lane that was used before the wave.
   */
  function SpawnWave(w: Wave, rolls: seq<SpawnRoll>, foe: Foe, screenWidth: int, enemyMaxY: int): (r: Wave)
    ensures |r.enemies| == |w.enemies| + Successes(rolls)
    ensures r.enemies[..|w.enemies|] == w.enemies
    ensures w.used <= r.used
    ensures forall s :: s in r.used ==>
              s in w.used || exists k :: |w.enemies| <= k < |r.enemies| && r.enemies[k].onDestroyed == FreeSlot(s)
    ensures Spawned(r, |w.enemies|, foe, screenWidth, enemyMaxY)
    ensures forall k :: |w.enemies| <= k < |r.enemies| && HoldsLane(r.enemies[k]) ==> r.enemies[k].onDestroyed.slot !in w.used
    ensures LanesDistinct(r.enemies[|w.enemies|..])
    decreases |rolls|
  {
    if rolls == [] then w
    else
      var n := |rolls| - 1;
      var front := SpawnWave(w, rolls[..n], foe, screenWidth, enemyMaxY);
      var r := SpawnOne(front, rolls[n], foe, screenWidth, enemyMaxY);
      WaveStep(w, front, rolls[n], foe, screenWidth, enemyMaxY, r);
      r
  }

  /** The last attempt of a wave keeps every promise the earlier attempts made. */
  lemma WaveStep(w: Wave, front: Wave, roll: SpawnRoll, foe: Foe, screenWidth: int, enemyMaxY: int, r: Wave)
    requires |w.enemies| <= |front.enemies|
    requires front.enemies[..|w.enemies|] == w.enemies
    requires w.used <= front.used
    requires forall s :: s in front.used ==>
               s in w.used || exists k :: |w.enemies| <= k < |front.enemies| && front.enemies[k].onDestroyed == FreeSlot(s)
    requires Spawned(front, |w.enemies|, foe, screenWidth, enemyMaxY)
    requires forall k :: |w.enemies| <= k < |front.enemies| && HoldsLane(front.enemies[k]) ==>
               front.enemies[k].onDestroyed.slot !in w.used
    requires LanesDistinct(front.enemies[|w.enemies|..])
    requires r == SpawnOne(front, roll, foe, screenWidth, enemyMaxY)
    ensures r.enemies[..|w.enemies|] == w.enemies
    ensures forall s :: s in r.used ==>
              s in w.used || exists k :: |w.enemies| <= k < |r.enemies| && r.enemies[k].onDestroyed == FreeSlot(s)
    ensures Spawned(r, |w.enemies|, foe, screenWidth, enemyMaxY)
    ensures forall k :: |w.enemies| <= k < |r.enemies| && HoldsLane(r.enemies[k]) ==> r.enemies[k].onDestroyed.slot !in w.used
    ensures LanesDistinct(r.enemies[|w.enemies|..])
  {
    if roll.spawns {
      var s := Allocate(front.used, roll.pick, roll.overflowY);
      var m := |front.enemies|;
      var e := r.enemies[m];
      assert r.enemies == front.enemies + [e];
      assert e.onDestroyed == FreeSlot(s);
      assert r.enemies[..|w.enemies|] == front.enemies[..|w.enemies|];
      WaveUsedStep(w, front, r, e, s);
      WaveDistinctStep(front.enemies, e, |w.enemies|, front.used, s);
    }
  }

  /** The slot a new jet takes is covered by that jet; the earlier slots stay covered. */
  lemma WaveUsedStep(w: Wave, front: Wave, r: Wave, e: Actor, s: Slot)
    requires |w.enemies| <= |front.enemies|
    requires forall t :: t in front.used ==>
               t in w.used || exists k :: |w.enemies| <= k < |front.enemies| && front.enemies[k].onDestroyed == FreeSlot(t)
    requires r.enemies == front.enemies + [e] && r.used == front.used + {s} && e.onDestroyed == FreeSlot(s)
    ensures forall t :: t in r.used ==>
              t in w.used || exists k :: |w.enemies| <= k < |r.enemies| && r.enemies[k].onDestroyed == FreeSlot(t)
  {
    forall t | t in r.used
      ensures t in w.used || exists k :: |w.enemies| <= k < |r.enemies| && r.enemies[k].onDestroyed == FreeSlot(t)
    {
      if t != s {
        if t !in w.used {
          var k :| |w.enemies| <= k < |front.enemies| && front.enemies[k].onDestroyed == FreeSlot(t);
          assert r.enemies[k] == front.enemies[k];
        }
      } else {
        assert r.enemies[|front.enemies|] == e;
      }
    }
  }

  /** A jet on a lane outside `used` keeps the wave's lanes distinct when every earlier jet's slot is in `used`. */
  lemma WaveDistinctStep(front: seq<Actor>, e: Actor, from: nat, used: set<Slot>, s: Slot)
    requires from <= |front|
    requires LanesDistinct(front[from..])
    requires forall k :: from <= k < |front| ==> front[k].onDestroyed.FreeSlot? && front[k].onDestroyed.slot in used
    requires e.onDestroyed == FreeSlot(s) && (s.Lane? ==> s !in used)
    ensures LanesDistinct((front + [e])[from..])
  {
    var tail := (front + [e])[from..];
    assert tail == front[from..] + [e];
    forall i, j | 0 <= i < j < |tail| && HoldsLane(tail[i])
      ensures tail[i].onDestroyed != tail[j].onDestroyed
    {
      if j == |tail| - 1 {
        assert tail[i] == front[from + i];
      } else {
        assert tail[i] == front[from..][i] && tail[j] == front[from..][j];
      }
    }
  }

  /** The attempts of one call of `spawnEnemyUnits`: `TOTAL_ENEMIES` less the enemies listed, or none. */
  function Attempts(rolls: seq<SpawnRoll>, listed: nat): (r: seq<SpawnRoll>)
    ensures |r| == if listed < TotalEnemies then TotalEnemies - listed else 0
    ensures forall i :: 0 <= i < |r| ==> r[i] == if i < |rolls| then rolls[i] else NoSpawn
  {
    var n := if listed < TotalEnemies then TotalEnemies - listed else 0;
    seq(n, i requires 0 <= i < n => if i < |rolls| then rolls[i] else NoSpawn)
  }

  /**
   A level's wave: one jet per successful roll among the `TOTAL_ENEMIES` less listed attempts,
   appended after the listed enemies and placed at the screen's right edge on a recorded slot; at
   most five enemies afterwards when there were at most five before.
   */
  function SpawnEnemies(w: Wave, rolls: seq<SpawnRoll>, foe: Foe, screenWidth: int, enemyMaxY: int): (r: Wave)
    ensures |r.enemies| == |w.enemies| + Successes(Attempts(rolls, |w.enemies|))
    ensures r.enemies[..|w.enemies|] == w.enemies && w.used <= r.used
    ensures Spawned(r, |w.enemies|, foe, screenWidth, enemyMaxY)
    ensures |w.enemies| <= TotalEnemies ==> |r.enemies| <= TotalEnemies
    ensures |w.enemies| >= TotalEnemies ==> r == w
    ensures AllLive(w.enemies) && LanesDistinct(w.enemies) && LanesHeld(w.enemies, w.used) ==>
              AllLive(r.enemies) && LanesDistinct(r.enemies) && LanesHeld(r.enemies, r.used)
    ensures forall s :: s in r.used ==>
              s in w.used || exists k :: |w.enemies| <= k < |r.enemies| && r.enemies[k].onDestroyed == FreeSlot(s)
    ensures NoLeak(w.enemies, w.used) ==> NoLeak(r.enemies, r.used)
  {
    var r := SpawnWave(w, Attempts(rolls, |w.enemies|), foe, screenWidth, enemyMaxY);
    WaveKeepsLanes(w, r, foe, screenWidth, enemyMaxY);
    WaveKeepsNoLeak(w, r, foe, screenWidth, enemyMaxY);
    r
  }

  /** Every lane a wave records is held by the jet it spawned there, so the wave leaks no lane. */
  lemma WaveKeepsNoLeak(w: Wave, r: Wave, foe: Foe, screenWidth: int, enemyMaxY: int)
    requires |w.enemies| <= |r.enemies|
    requires r.enemies[..|w.enemies|] == w.enemies
    requires Spawned(r, |w.enemies|, foe, screenWidth, enemyMaxY)
    requires forall s :: s in r.used ==>
               s in w.used || exists k :: |w.enemies| <= k < |r.enemies| && r.enemies[k].onDestroyed == FreeSlot(s)
    ensures NoLeak(w.enemies, w.used) ==> NoLeak(r.enemies, r.used)
  {
    if NoLeak(w.enemies, w.used) {
      var m := |w.enemies|;
      forall s | s in r.used && s.Lane?
        ensures LiveHolder(r.enemies, s)
      {
        if s in w.used {
          var i :| 0 <= i < m && !w.enemies[i].destroyed && w.enemies[i].onDestroyed == FreeSlot(s);
          assert r.enemies[i] == w.enemies[i];
        } else {
          var k :| m <= k < |r.enemies| && r.enemies[k].onDestroyed == FreeSlot(s);
          assert !r.enemies[k].destroyed;
        }
      }
    }
  }

  /** When every attempt succeeds the wave tops the list up to exactly `TOTAL_ENEMIES`. */
  lemma LuckyWaveFills(w: Wave, rolls: seq<SpawnRoll>, foe: Foe, screenWidth: int, enemyMaxY: int)
    requires |w.enemies| <= TotalEnemies
    requires |rolls| >= TotalEnemies - |w.enemies|
    requires forall i :: 0 <= i < |rolls| ==> rolls[i].spawns
    ensures |SpawnEnemies(w, rolls, foe, screenWidth, enemyMaxY).enemies| == TotalEnemies
  {
    var a := Attempts(rolls, |w.enemies|);
    assert forall i :: 0 <= i < |a| ==> a[i] == rolls[i];
  }

  /** A wave appended to a list with distinct, recorded lanes keeps them distinct and recorded. */
  lemma WaveKeepsLanes(w: Wave, r: Wave, foe: Foe, screenWidth: int, enemyMaxY: int)
    requires |w.enemies| <= |r.enemies|
    requires r.enemies[..|w.enemies|] == w.enemies
    requires w.used <= r.used
    requires Spawned(r, |w.enemies|, foe, screenWidth, enemyMaxY)
    requires forall k :: |w.enemies| <= k < |r.enemies| && HoldsLane(r.enemies[k]) ==> r.enemies[k].onDestroyed.slot !in w.used
    requires LanesDistinct(r.enemies[|w.enemies|..])
    ensures AllLive(w.enemies) && LanesDistinct(w.enemies) && LanesHeld(w.enemies, w.used) ==>
              AllLive(r.enemies) && LanesDistinct(r.enemies) && LanesHeld(r.enemies, r.used)
  {
    if AllLive(w.enemies) && LanesDistinct(w.enemies) && LanesHeld(w.enemies, w.used) {
      WaveKeepsLanesOn(w, r, foe, screenWidth, enemyMaxY);
    }
  }

  lemma WaveKeepsLanesOn(w: Wave, r: Wave, foe: Foe, screenWidth: int, enemyMaxY: int)
    requires AllLive(w.enemies) && LanesDistinct(w.enemies) && LanesHeld(w.enemies, w.used)
    requires |w.enemies| <= |r.enemies|
    requires r.enemies[..|w.enemies|] == w.enemies
    requires w.used <= r.used
    requires Spawned(r, |w.enemies|, foe, screenWidth, enemyMaxY)
    requires forall k :: |w.enemies| <= k < |r.enemies| && HoldsLane(r.enemies[k]) ==> r.enemies[k].onDestroyed.slot !in w.used
    requires LanesDistinct(r.enemies[|w.enemies|..])
    ensures AllLive(r.enemies) && LanesDistinct(r.enemies) && LanesHeld(r.enemies, r.used)
  {
    var m := |w.enemies|;
    forall k | 0 <= k < |r.enemies| ensures !r.enemies[k].destroyed {
      if k < m {
        assert r.enemies[k] == w.enemies[k];
      }
    }
    forall i, j | 0 <= i < j < |r.enemies| && HoldsLane(r.enemies[i])
      ensures r.enemies[i].onDestroyed != r.enemies[j].onDestroyed
    {
      if j < m {
        assert r.enemies[i] == w.enemies[i] && r.enemies[j] == w.enemies[j];
      } else if i < m {
        assert r.enemies[i] == w.enemies[i];
        assert r.enemies[i].onDestroyed.slot in w.used;
      } else {
        assert r.enemies[i] == r.enemies[m..][i - m] && r.enemies[j] == r.enemies[m..][j - m];
      }
    }
    forall i | 0 <= i < |r.enemies| && !r.enemies[i].destroyed && HoldsLane(r.enemies[i])
      ensures r.enemies[i].onDestroyed.slot in r.used
    {
      if i < m {
        assert r.enemies[i] == w.enemies[i];
      }
    }
  }

  /** The meteor top-up: one meteor at a random x in [0, 1200) and y = 0 while fewer than two are listed. */
  function SpawnMeteor(meteors: seq<Actor>, meteorX: int): (r: seq<Actor>)
    ensures |meteors| < MaxMeteorsOnScreen ==> r == meteors + [NewMeteor(meteorX % MeteorSpread, 0, MeteorSpeed)]
    ensures |meteors| >= MaxMeteorsOnScreen ==> r == meteors
    ensures |meteors| <= MaxMeteorsOnScreen ==> |r| <= MaxMeteorsOnScreen
    ensures NoCallbacks(meteors) ==> NoCallbacks(r)
  {
    if |meteors| < MaxMeteorsOnScreen then meteors + [NewMeteor(meteorX % MeteorSpread, 0, MeteorSpeed)] else meteors
  }

  /** LevelTwo's spawn: the one Boss is listed again whenever the enemy list is empty. */
  function SpawnBoss(enemies: seq<Actor>, boss: Actor): (r: seq<Actor>)
    ensures enemies == [] ==> r == [boss]
    ensures enemies != [] ==> r == enemies
    ensures |enemies| <= 1 ==> |r| == 1
  {
    if |enemies| == 0 then [boss] else enemies
  }
}
