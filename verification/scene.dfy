/**
 One frame of the timeline: `LevelParent.updateScene` step by step, followed by the meteor steps
 that LevelThree and LevelFour add after it. Each step is a function of the level; `Tick` runs them
 in the order the source calls them.
 */
module Scene {
  import opened Wrappers
  import opened Geometry
  import opened Slots
  import opened Actors
  import opened Damage
  import opened Motion
  import opened Collisions
  import opened Lanes
  import opened Spawning
  import opened Hearts
  import opened Levels

  /** The screen y (`translateY`) past which a meteor is destroyed. */
  const MeteorOutOfBoundsY: int := 750

  /**
   What one frame consults besides the level: the spawn rolls, the meteor's random x, each
   enemy's dice (by position in the enemy list; missing entries roll nothing), and the bounds test.
   */
  datatype Luck = Luck(rolls: seq<SpawnRoll>, meteorX: int, dice: seq<Dice>, meets: Intersects)

  function DiceAt(dice: seq<Dice>, i: nat): Dice
  {
    if i < |dice| then dice[i] else NoLuck
  }

  /** LevelFour spawns BossJets where the other levels spawn EnemyJets. */
  function FoeOf(r: Rules): Foe
  {
    if r.LevelFour? then BossJets else EnemyJets
  }

  /**
   `spawnEnemyUnits` of each level: LevelTwo lists its Boss again when no enemy is listed; the
   others top the wave up to five, and LevelThree and LevelFour add a meteor while fewer than two
   are listed.
   */
  function SpawnPhase(l: Level, rolls: seq<SpawnRoll>, meteorX: int): (r: Level)
    ensures r == l.(enemies := r.enemies, used := r.used, meteors := r.meteors)
    ensures l.rules.LevelTwo? ==> r.used == l.used && r.enemies == (if l.enemies == [] then [l.rules.boss] else l.enemies)
    ensures !l.rules.LevelTwo? && |l.enemies| >= TotalEnemies ==> r.enemies == l.enemies && r.used == l.used
    ensures !l.rules.LevelTwo? ==>
              && |r.enemies| == |l.enemies| + Successes(Attempts(rolls, |l.enemies|))
              && r.enemies[..|l.enemies|] == l.enemies && l.used <= r.used
              && Spawned(Wave(r.enemies, r.used), |l.enemies|, FoeOf(l.rules), l.screenWidth, l.enemyMaxY)
    ensures |l.enemies| <= TotalEnemies ==> |r.enemies| <= TotalEnemies
    ensures HasMeteors(l.rules) && |l.meteors| < MaxMeteorsOnScreen ==>
              r.meteors == l.meteors + [NewMeteor(meteorX % MeteorSpread, 0, MeteorSpeed)]
    ensures !HasMeteors(l.rules) || |l.meteors| >= MaxMeteorsOnScreen ==> r.meteors == l.meteors
  {
    if l.rules.LevelTwo? then l.(enemies := SpawnBoss(l.enemies, l.rules.boss))
    else
      var w := SpawnEnemies(Wave(l.enemies, l.used), rolls, FoeOf(l.rules), l.screenWidth, l.enemyMaxY);
      l.(enemies := w.enemies, used := w.used,
         meteors := if HasMeteors(l.rules) then SpawnMeteor(l.meteors, meteorX) else l.meteors)
  }

  /** What each enemy fires when it acts, by position in the list: `None` when it does not fire. */
  function Fired(es: seq<Actor>, dice: seq<Dice>): (r: seq<Option<Actor>>)
    ensures |r| == |es|
  {
    seq(|es|, i requires 0 <= i < |es| => UpdateActor(es[i], DiceAt(dice, i)).fired)
  }

  /** The last enemy's shot comes after the others'. */
  lemma FiredSnoc(es: seq<Actor>, dice: seq<Dice>)
    requires es != []
    ensures Fired(es, dice) == Fired(es[..|es| - 1], dice) + [UpdateActor(es[|es| - 1], DiceAt(dice, |es| - 1)).fired]
  {
  }

  /** The last enemy's shot, if any, goes after the shots of the enemies before it. */
  lemma VolleyShotsStep(es: seq<Actor>, dice: seq<Dice>, shots: seq<Actor>, frontShots: seq<Actor>)
    requires es != []
    requires frontShots == shots + Present(Fired(es[..|es| - 1], dice))
    ensures SpawnEnemyProjectile(frontShots, UpdateActor(es[|es| - 1], DiceAt(dice, |es| - 1)).fired)
            == shots + Present(Fired(es, dice))
  {
    var n := |es| - 1;
    FiredSnoc(es, dice);
    PresentSnoc(Fired(es[..n], dice), UpdateActor(es[n], DiceAt(dice, n)).fired);
  }

  /** The enemies after acting, and the enemy projectile list with what they fired appended. */
  datatype Volley = Volley(actors: seq<Actor>, shots: seq<Actor>)

  /**
   `enemyUnits.forEach(updateActor)`: every enemy acts once, in list order, with its own dice, and
   each projectile it fires goes through `spawnEnemyProjectile` onto the end of `shots`.
   */
  function UpdateEnemies(es: seq<Actor>, dice: seq<Dice>, shots: seq<Actor>): (r: Volley)
    ensures |r.actors| == |es|
    ensures forall i :: 0 <= i < |es| ==> r.actors[i] == UpdateActor(es[i], DiceAt(dice, i)).actor
    ensures SameTags(r.actors, es)
    ensures |shots| <= |r.shots| <= |shots| + |es| && r.shots[..|shots|] == shots
    ensures forall k :: |shots| <= k < |r.shots| ==>
              && r.shots[k].body.Missile? && r.shots[k].body.shot != FromPlayer
              && !r.shots[k].destroyed && r.shots[k].onDestroyed == NoCallback
    ensures NoCallbacks(shots) ==> NoCallbacks(r.shots)
    decreases |es|
  {
    if es == [] then Volley([], shots)
    else
      var n := |es| - 1;
      var front := UpdateEnemies(es[..n], dice, shots);
      var acted := UpdateActor(es[n], DiceAt(dice, n));
      Volley(front.actors + [acted.actor], SpawnEnemyProjectile(front.shots, acted.fired))
  }

  /**
   The projectiles a volley appends are exactly the enemies' shots, in list order: one for each
   enemy whose `updateActor` fires, and nothing for the others.
   */
  lemma {:induction false} VolleyShots(es: seq<Actor>, dice: seq<Dice>, shots: seq<Actor>)
    ensures UpdateEnemies(es, dice, shots).shots == shots + Present(Fired(es, dice))
    decreases |es|
  {
    if es != [] {
      var n := |es| - 1;
      VolleyShots(es[..n], dice, shots);
      VolleyShotsStep(es, dice, shots, UpdateEnemies(es[..n], dice, shots).shots);
    }
  }

  /** An enemy jet past the defences stays past them: every frame moves it further left. */
  lemma PenetratedStaysPast(a: Actor, dice: Dice)
    requires a.body.Jet? && (a.body.pilot.EnemyPilot? || a.body.pilot.BossJetPilot?)
    requires Penetrated(a)
    ensures Penetrated(UpdateActor(a, dice).actor)
  {
  }

  /** No enemy whose roll fails fires: with every roll failing, the projectile list is unchanged. */
  lemma QuietDiceFireNothing(es: seq<Actor>, dice: seq<Dice>, shots: seq<Actor>)
    requires forall i :: 0 <= i < |es| ==> !DiceAt(dice, i).fires
    ensures UpdateEnemies(es, dice, shots).shots == shots
  {
    var f := Fired(es, dice);
    forall i | 0 <= i < |f| ensures f[i].None? {
      assert f[i] == UpdateActor(es[i], DiceAt(dice, i)).fired;
    }
  }

  /**
   `ys` is `xs` after one `updateActor` each: same length, same flags and callbacks, every missile
   moved horizontally by its class's velocity and every meteor moved down by its own speed.
   */
  ghost predicate Flown(ys: seq<Actor>, xs: seq<Actor>)
  {
    && |ys| == |xs|
    && (forall i :: 0 <= i < |xs| ==> ys[i].destroyed == xs[i].destroyed && ys[i].onDestroyed == xs[i].onDestroyed)
    && (forall i :: 0 <= i < |xs| && xs[i].body.Missile? ==>
          ys[i].body == xs[i].body && ys[i].pos == MoveHorizontally(xs[i].pos, ShotVelocity(xs[i].body.shot)))
    && (forall i :: 0 <= i < |xs| && xs[i].body.Rock? ==>
          ys[i].body == xs[i].body && ys[i].pos == MoveVertically(xs[i].pos, xs[i].body.speedY))
  }

  /** `forEach(updateActor)` over projectiles or meteors: each moves by its own velocity and fires nothing. */
  function MoveAll(xs: seq<Actor>): (r: seq<Actor>)
    ensures |r| == |xs| && SameTags(r, xs)
    ensures Flown(r, xs)
  {
    seq(|xs|, i requires 0 <= i < |xs| => UpdateActor(xs[i], NoLuck).actor)
  }

  /**
   `updateActors`: the friendly units, then the enemies (whose shots join the enemy projectiles),
   then the user's projectiles, then the enemy projectiles including the ones fired this frame,
   then (LevelThree, LevelFour) the meteors. No list loses an entry and no flag or callback changes.
   */
  function ActPhase(l: Level, dice: seq<Dice>): (r: Level)
    ensures r == l.(user := r.user, enemies := r.enemies, userShots := r.userShots,
                    enemyShots := r.enemyShots, meteors := r.meteors)
    ensures l.userListed ==> r.user == PlayerUpdate(l.user)
    ensures !l.userListed ==> r.user == l.user
    ensures r.user.body == l.user.body && r.user.destroyed == l.user.destroyed && r.user.onDestroyed == l.user.onDestroyed
    ensures SameTags(r.enemies, l.enemies) && SameTags(r.userShots, l.userShots) && SameTags(r.meteors, l.meteors)
    ensures forall i :: 0 <= i < |l.enemies| ==> r.enemies[i] == UpdateActor(l.enemies[i], DiceAt(dice, i)).actor
    ensures Flown(r.userShots, l.userShots)
    ensures Flown(r.enemyShots, l.enemyShots + Present(Fired(l.enemies, dice)))
    ensures HasMeteors(l.rules) ==> Flown(r.meteors, l.meteors)
    ensures !HasMeteors(l.rules) ==> r.meteors == l.meteors
    ensures |l.enemyShots| <= |r.enemyShots| <= |l.enemyShots| + |l.enemies|
    ensures NoCallbacks(l.enemyShots) ==> NoCallbacks(r.enemyShots)
  {
    var user := if l.userListed then PlayerUpdate(l.user) else l.user;
    var v := UpdateEnemies(l.enemies, dice, l.enemyShots);
    VolleyShots(l.enemies, dice, l.enemyShots);
    var shots := MoveAll(v.shots);
    SameTagsKeep(shots, v.shots, l.used);
    l.(user := user, enemies := v.actors, userShots := MoveAll(l.userShots), enemyShots := shots,
       meteors := if HasMeteors(l.rules) then MoveAll(l.meteors) else l.meteors)
  }

  /** `updateNumberOfEnemies`: the enemy count the kill update compares against. */
  function UpdateNumberOfEnemies(l: Level): (r: Level)
    ensures r.snapshot == |l.enemies|
    ensures r == l.(snapshot := r.snapshot)
  {
    l.(snapshot := |l.enemies|)
  }

  /** The user after damage, as the level's user again: damage never changes the pilot. */
  function AsPlayer(u: Player, a: Actor): (r: Player)
    requires DamagedFrom(a, u)
    ensures r == a && DamagedFrom(r, u)
  {
    a
  }

  /**
   `handleEnemyPenetration(friendlyUnits.get(0), enemyUnits)`: `None` when the friendly list is
   empty, where `get(0)` throws. Otherwise every enemy past the left edge damages the user once and
   is destroyed, and the slot its callback frees leaves `used`; no other slot is added.
   */
  function PenetrationPhase(l: Level): (r: Option<Level>)
    ensures r.None? <==> !l.userListed
    ensures r.Some? ==> r.value == l.(user := r.value.user, enemies := r.value.enemies, used := r.value.used)
    ensures r.Some? ==> r.value.user == DamageTimes(l.user, Breaches(l.enemies)).actor
    ensures r.Some? ==> |r.value.enemies| == |l.enemies|
    ensures r.Some? ==> forall k :: 0 <= k < |l.enemies| ==>
              r.value.enemies[k] == if Penetrated(l.enemies[k]) then Destroy(l.enemies[k]).actor else l.enemies[k]
    ensures r.Some? ==> r.value.used <= l.used
    ensures r.Some? ==> forall k :: 0 <= k < |l.enemies| && Penetrated(l.enemies[k]) && l.enemies[k].onDestroyed.FreeSlot? ==>
              l.enemies[k].onDestroyed.slot !in r.value.used
  {
    if !l.userListed then None
    else
      var b := HandleEnemyPenetration(l.user, l.enemies);
      Some(l.(user := AsPlayer(l.user, b.user), enemies := b.enemies, used := FreeAll(l.used, b.released)))
  }

  /** The user after a pass over `Friendly(l)` left `fs`: the first entry while listed, unchanged otherwise. */
  function UserAfter(l: Level, fs: seq<Actor>): (r: Player)
    requires AllDamagedFrom(fs, Friendly(l))
    ensures l.userListed ==> r == fs[0]
    ensures !l.userListed ==> r == l.user
    ensures DamagedFrom(r, l.user)
  {
    if l.userListed then AsPlayer(l.user, fs[0]) else l.user
  }

  /**
   `handleUserProjectileCollisions`: `handleCollisions(userProjectiles, enemyUnits)`. Every enemy
   takes one hit per user projectile whose bounds meet it, and every projectile one hit per enemy;
   an enemy killed here gives its slot back.
   */
  function UserProjectileCollisions(l: Level, meets: Intersects): (r: Level)
    ensures r == l.(userShots := r.userShots, enemies := r.enemies, used := r.used)
    ensures |r.enemies| == |l.enemies| && |r.userShots| == |l.userShots|
    ensures forall j :: 0 <= j < |l.enemies| ==>
              r.enemies[j] == DamageTimes(l.enemies[j], Struck(FrameOf(l.enemies[j]), l.userShots, meets)).actor
    ensures forall i :: 0 <= i < |l.userShots| ==>
              r.userShots[i] == DamageTimes(l.userShots[i], StruckBy(l.enemies, FrameOf(l.userShots[i]), meets)).actor
    ensures r.used <= l.used && DeadFreed(r.enemies, l.enemies, r.used)
  {
    var c := HandleCollisions(l.userShots, l.enemies, meets);
    FreeingFreesDead(c.released, c.actors2, l.enemies, l.used);
    l.(userShots := c.actors1, enemies := c.actors2, used := FreeAll(l.used, c.released))
  }

  /**
   `handleEnemyProjectileCollisions`: `handleCollisions(enemyProjectiles, friendlyUnits)`. The
   listed user takes one hit per enemy projectile meeting it.
   */
  function EnemyProjectileCollisions(l: Level, meets: Intersects): (r: Level)
    ensures r == l.(enemyShots := r.enemyShots, user := r.user, used := r.used)
    ensures AllDamagedFrom(r.enemyShots, l.enemyShots)
    ensures l.userListed ==> r.user == DamageTimes(l.user, Struck(FrameOf(l.user), l.enemyShots, meets)).actor
    ensures l.userListed ==> forall i :: 0 <= i < |l.enemyShots| ==>
              r.enemyShots[i] == DamageTimes(l.enemyShots[i], StruckBy([l.user], FrameOf(l.enemyShots[i]), meets)).actor
    ensures !l.userListed ==> r.user == l.user && r.enemyShots == l.enemyShots
    ensures r.used <= l.used
  {
    var c := HandleCollisions(l.enemyShots, Friendly(l), meets);
    l.(enemyShots := c.actors1, user := UserAfter(l, c.actors2), used := FreeAll(l.used, c.released))
  }

  /**
   `handlePlaneCollisions`: `handleCollisions(friendlyUnits, enemyUnits)`. A listed user and an
   enemy whose bounds meet damage each other once; an enemy killed here gives its slot back.
   */
  function PlaneCollisions(l: Level, meets: Intersects): (r: Level)
    ensures r == l.(user := r.user, enemies := r.enemies, used := r.used)
    ensures AllDamagedFrom(r.enemies, l.enemies) && DamagedFrom(r.user, l.user)
    ensures l.userListed ==> r.user == DamageTimes(l.user, StruckBy(l.enemies, FrameOf(l.user), meets)).actor
    ensures l.userListed ==> forall j :: 0 <= j < |l.enemies| ==>
              r.enemies[j] == DamageTimes(l.enemies[j], Struck(FrameOf(l.enemies[j]), [l.user], meets)).actor
    ensures !l.userListed ==> r.user == l.user && r.enemies == l.enemies
    ensures r.used <= l.used && DeadFreed(r.enemies, l.enemies, r.used)
  {
    var c := HandleCollisions(Friendly(l), l.enemies, meets);
    FreeingFreesDead(c.released, c.actors2, l.enemies, l.used);
    l.(user := UserAfter(l, c.actors1), enemies := c.actors2, used := FreeAll(l.used, c.released))
  }

  /**
   `removeAllDestroyedActors`: every list drops its destroyed actors (meteors too in LevelThree and
   LevelFour), keeping the rest in order, and a destroyed user leaves the friendly list. LevelTwo's
   listed enemy is its Boss, so the Boss record is brought up to date first.
   */
  function RemoveAllDestroyedActors(l: Level): (r: Level)
    ensures r == l.(rules := r.rules, userListed := r.userListed, enemies := r.enemies,
                    userShots := r.userShots, enemyShots := r.enemyShots, meteors := r.meteors)
    ensures r.userListed <==> l.userListed && !l.user.destroyed
    ensures r.enemies == Purge(l.enemies) && r.userShots == Purge(l.userShots) && r.enemyShots == Purge(l.enemyShots)
    ensures HasMeteors(l.rules) ==> r.meteors == Purge(l.meteors)
    ensures !HasMeteors(l.rules) ==> r.meteors == l.meteors
    ensures r.rules.LevelTwo? <==> l.rules.LevelTwo?
    ensures l.rules.LevelTwo? ==>
              && r.rules.twoFinished == l.rules.twoFinished && r.rules.shieldShown == l.rules.shieldShown
              && r.rules.boss == (if |l.enemies| == 1 then l.enemies[0] else l.rules.boss)
    ensures !l.rules.LevelTwo? ==> r.rules == l.rules
  {
    var rules := if l.rules.LevelTwo? && |l.enemies| == 1 then l.rules.(boss := l.enemies[0]) else l.rules;
    l.(rules := rules, userListed := l.userListed && !l.user.destroyed,
       enemies := Purge(l.enemies), userShots := Purge(l.userShots), enemyShots := Purge(l.enemyShots),
       meteors := if HasMeteors(l.rules) then Purge(l.meteors) else l.meteors)
  }

  /** The loop of `updateKillCount`: `n` calls of `incrementKillCount`, none when `n` is not positive. */
  function KillTimes(u: Player, n: int): (r: Player)
    ensures Kills(r) == Kills(u) + (if n > 0 then n else 0)
    ensures r.body.health == u.body.health
    ensures r.body.pilot.verticalMultiplier == u.body.pilot.verticalMultiplier
    ensures r.body.pilot.horizontalMultiplier == u.body.pilot.horizontalMultiplier
    ensures r.pos == u.pos && r.destroyed == u.destroyed && r.onDestroyed == u.onDestroyed
    decreases n
  {
    if n <= 0 then u else KillTimes(IncrementKillCount(u), n - 1)
  }

  /**
   `updateKillCount`: the user gains one kill for each enemy the frame removed, counted against the
   snapshot taken after spawning; it is the `user` field that counts, listed or not.
   */
  function UpdateKillCount(l: Level): (r: Level)
    ensures Kills(r.user) == Kills(l.user) + (if l.snapshot > |l.enemies| then l.snapshot - |l.enemies| else 0)
    ensures r.user.body.health == l.user.body.health && r.user.destroyed == l.user.destroyed
    ensures r.user.onDestroyed == l.user.onDestroyed && r.user.pos == l.user.pos
    ensures r == l.(user := r.user)
  {
    l.(user := KillTimes(l.user, l.snapshot - |l.enemies|))
  }

  /** `updateLevelView`: the heart display is trimmed to the user's health. */
  function UpdateLevelView(l: Level): (r: Level)
    ensures r.view == RemoveHearts(l.view, l.user.body.health)
    ensures l.user.body.health >= |l.view.hearts| ==> r.view == l.view
    ensures r == l.(view := r.view)
  {
    l.(view := RemoveHearts(l.view, l.user.body.health))
  }

  /** After the update the display shows as many hearts as the user has health, unless it already showed fewer. */
  lemma ViewTracksHealth(l: Level)
    ensures var h := l.user.body.health;
            var n := |l.view.hearts|;
            |UpdateLevelView(l).view.hearts| == if h <= 0 then 0 else if h < n then h else n
  {
  }

  /**
   `handleMeteorCollisions` (LevelThree, LevelFour): `handleCollisions(friendlyUnits, meteors)`; a
   listed user and a meteor whose bounds meet damage each other once. The other levels have no step.
   */
  function MeteorCollisions(l: Level, meets: Intersects): (r: Level)
    ensures r == l.(user := r.user, meteors := r.meteors, used := r.used)
    ensures DamagedFrom(r.user, l.user) && AllDamagedFrom(r.meteors, l.meteors)
    ensures HasMeteors(l.rules) && l.userListed ==>
              r.user == DamageTimes(l.user, StruckBy(l.meteors, FrameOf(l.user), meets)).actor
    ensures HasMeteors(l.rules) && l.userListed ==> forall j :: 0 <= j < |l.meteors| ==>
              r.meteors[j] == DamageTimes(l.meteors[j], Struck(FrameOf(l.meteors[j]), [l.user], meets)).actor
    ensures !HasMeteors(l.rules) || !l.userListed ==> r.user == l.user && r.meteors == l.meteors
    ensures r.used <= l.used
  {
    if !HasMeteors(l.rules) then l
    else
      var c := HandleCollisions(Friendly(l), l.meteors, meets);
      l.(user := UserAfter(l, c.actors1), meteors := c.actors2, used := FreeAll(l.used, c.released))
  }

  /** The meteors after the out-of-bounds pass, and the slots their callbacks released. */
  datatype Fallen = Fallen(meteors: seq<Actor>, released: seq<Slot>)

  /** The loop of `handleMeteorOutOfBounds`: every meteor below y = 750 is destroyed, in order. */
  function DestroyFallen(ms: seq<Actor>): (r: Fallen)
    ensures |r.meteors| == |ms|
    ensures forall k :: 0 <= k < |ms| ==>
              r.meteors[k] == if ms[k].pos.translateY > MeteorOutOfBoundsY then Destroy(ms[k]).actor else ms[k]
    ensures AllDamagedFrom(r.meteors, ms)
    ensures NoCallbacks(ms) ==> r.released == []
    decreases |ms|
  {
    if ms == [] then Fallen([], [])
    else
      var n := |ms| - 1;
      var front := DestroyFallen(ms[..n]);
      if ms[n].pos.translateY > MeteorOutOfBoundsY then
        var gone := Destroy(ms[n]);
        Fallen(front.meteors + [gone.actor], front.released + gone.released)
      else Fallen(front.meteors + [ms[n]], front.released)
  }

  /** `handleMeteorOutOfBounds` (LevelThree, LevelFour); the other levels have no step. */
  function MeteorOutOfBounds(l: Level): (r: Level)
    ensures r == l.(meteors := r.meteors, used := r.used)
    ensures HasMeteors(l.rules) ==> r.meteors == DestroyFallen(l.meteors).meteors
    ensures !HasMeteors(l.rules) ==> r == l
    ensures NoCallbacks(l.meteors) ==> r.used == l.used
  {
    if !HasMeteors(l.rules) then l
    else
      var f := DestroyFallen(l.meteors);
      l.(meteors := f.meteors, used := FreeAll(l.used, f.released))
  }

  /** What a frame produced: the level and signal, or the exception `get(0)` throws on an empty friendly list. */
  datatype Outcome = Crashed | Ticked(level: Level, signal: Signal)

  /** The steps of `updateScene` up to the kill count and heart update, after the penetration check. */
  function Resolve(l: Level, meets: Intersects): (r: Level)
  {
    var collided := PlaneCollisions(EnemyProjectileCollisions(UserProjectileCollisions(l, meets), meets), meets);
    UpdateLevelView(UpdateKillCount(RemoveAllDestroyedActors(collided)))
  }

  /**
   One timeline frame. A stopped timeline does nothing. Otherwise: spawn, act, take the enemy
   count, check penetration (which throws once the user has left the friendly list), resolve the
   three collision passes, purge, count kills, trim the hearts, check for the end of the level, run
   `misc`, and finally (LevelThree, LevelFour) the meteor collisions and the out-of-bounds pass,
   which follow `checkIfGameOver` within the same frame.
   */
  function Tick(l: Level, luck: Luck): (r: Outcome)
    ensures l.stopped ==> r == Ticked(l, Quiet)
    ensures r.Crashed? <==> !l.stopped && !l.userListed
  {
    if l.stopped then Ticked(l, Quiet)
    else
      match PenetrationPhase(Prepare(l, luck))
      case None => Crashed
      case Some(breached) =>
        var checked := CheckIfGameOver(Resolve(breached, luck.meets));
        Ticked(Aftermath(checked.level, luck.meets), checked.signal)
  }

  /** The steps before the penetration check: spawn, act, take the enemy count. */
  function Prepare(l: Level, luck: Luck): (r: Level)
  {
    UpdateNumberOfEnemies(ActPhase(SpawnPhase(l, luck.rolls, luck.meteorX), luck.dice))
  }

  /** The steps after `checkIfGameOver`: `misc`, then the meteor steps. */
  function Aftermath(l: Level, meets: Intersects): (r: Level)
  {
    MeteorOutOfBounds(MeteorCollisions(Misc(l), meets))
  }

  /** No step before `checkIfGameOver` touches the level's rules beyond LevelTwo's Boss record, or the timeline. */
  lemma ResolveKeepsRules(l: Level, meets: Intersects)
    ensures var r := Resolve(l, meets);
            && StageOf(r.rules) == StageOf(l.rules) && Finished(r.rules) == Finished(l.rules)
            && r.stopped == l.stopped
  {
  }

  lemma PrepareKeepsRules(l: Level, luck: Luck)
    ensures Prepare(l, luck).rules == l.rules && Prepare(l, luck).stopped == l.stopped
    ensures Kills(Prepare(l, luck).user) == Kills(l.user)
    ensures Prepare(l, luck).snapshot == |SpawnPhase(l, luck.rolls, luck.meteorX).enemies|
  {
  }

  lemma AftermathKeepsRules(l: Level, meets: Intersects)
    ensures var r := Aftermath(l, meets);
            && StageOf(r.rules) == StageOf(l.rules) && Finished(r.rules) == Finished(l.rules)
            && r.stopped == l.stopped && DamagedFrom(r.user, l.user)
            && r.enemies == l.enemies && r.snapshot == l.snapshot
  {
  }

  /**
   What a frame signals. Levels One to Three advance at most once (the frame that advances finds
   the level unfinished and leaves it finished), only LevelFour wins, and losing or winning stops
   the timeline in the very frame that reports it, which nothing else does. A lost frame ends with
   the user destroyed.
   */
  lemma TickSignals(l: Level, luck: Luck)
    ensures var r := Tick(l, luck);
            r.Ticked? ==>
              && StageOf(r.level.rules) == StageOf(l.rules)
              && (Finished(l.rules) ==> Finished(r.level.rules))
              && (r.signal.Advance? ==>
                    !Finished(l.rules) && Finished(r.level.rules) && Some(r.signal.next) == NextLevel(StageOf(l.rules)))
              && (r.signal == Won ==> l.rules.LevelFour?)
              && (r.signal == Lost ==> r.level.user.destroyed)
              && (r.level.stopped <==> l.stopped || r.signal == Won || r.signal == Lost)
              && (l.stopped ==> r.signal == Quiet)
  {
    if !l.stopped && l.userListed {
      var counted := Prepare(l, luck);
      PrepareKeepsRules(l, luck);
      var breached := PenetrationPhase(counted).value;
      var resolved := Resolve(breached, luck.meets);
      ResolveKeepsRules(breached, luck.meets);
      var checked := CheckIfGameOver(resolved);
      AftermathKeepsRules(checked.level, luck.meets);
    }
  }

  /** The collision passes keep the user's kills and the enemy count; the kill update then adds the difference. */
  lemma ResolveKills(l: Level, meets: Intersects)
    ensures var r := Resolve(l, meets);
            && r.snapshot == l.snapshot
            && Kills(r.user) == Kills(l.user) + (if l.snapshot > |r.enemies| then l.snapshot - |r.enemies| else 0)
  {
  }

  /**
   The kill count of a running frame: the user gains exactly the number of enemies listed after
   spawning that the frame's purge removed, and never loses one. An enemy spawned and destroyed in
   the same frame counts; one still listed does not.
   */
  lemma TickKills(l: Level, luck: Luck)
    requires !l.stopped
    ensures var r := Tick(l, luck);
            r.Ticked? ==>
              && r.level.snapshot == |SpawnPhase(l, luck.rolls, luck.meteorX).enemies|
              && Kills(r.level.user)
                 == Kills(l.user) + (if r.level.snapshot > |r.level.enemies| then r.level.snapshot - |r.level.enemies| else 0)
  {
    if l.userListed {
      var counted := Prepare(l, luck);
      PrepareKeepsRules(l, luck);
      var breached := PenetrationPhase(counted).value;
      var resolved := Resolve(breached, luck.meets);
      ResolveKills(breached, luck.meets);
      var checked := CheckIfGameOver(resolved);
      AftermathKeepsRules(checked.level, luck.meets);
    }
  }

  /** After a running frame no list holds a destroyed enemy or projectile: the purge removed them all. */
  lemma TickPurges(l: Level, luck: Luck)
    requires !l.stopped
    ensures var r := Tick(l, luck);
            r.Ticked? ==> AllLive(r.level.enemies) && AllLive(r.level.userShots) && AllLive(r.level.enemyShots)
  {
    if l.userListed {
      var breached := PenetrationPhase(Prepare(l, luck)).value;
      var resolved := Resolve(breached, luck.meets);
      var checked := CheckIfGameOver(resolved);
      assert Tick(l, luck).level.userShots == resolved.userShots;
    }
  }
}
