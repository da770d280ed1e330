/**
 The game's actors. Java builds them as a class hierarchy (ActiveActor -> ActiveActorDestructible
 -> FighterJet -> PlayerJet / EnemyJet / BossJet / Boss, and -> Missiles -> three missile kinds,
 and -> Meteor); here one `Actor` record carries a `Body` tag saying which of these it is.
 */
module Actors {
  import opened Geometry
  import opened Slots
  import opened BossBrain

  /**
   The Runnable registered with `setOnDestroyed`. The only callback the levels register frees the
   spawn slot the enemy was placed in.
   */
  datatype Callback = NoCallback | FreeSlot(slot: Slot)

  /** Which missile class: PlayerMissiles, EnemyMissiles or BossMissiles. */
  datatype Shot = FromPlayer | FromEnemy | FromBoss

  /** The FighterJet subclasses; the player's jet carries its velocity multipliers and kill count. */
  datatype Pilot =
    | PlayerPilot(verticalMultiplier: int, horizontalMultiplier: int, kills: int)
    | EnemyPilot
    | BossJetPilot
    | BossPilot(brain: Brain)

  /** FighterJets have integer health; missiles and meteors are destroyed by any hit. */
  datatype Body =
    | Jet(health: int, pilot: Pilot)
    | Missile(shot: Shot)
    | Rock(speedY: int)

  datatype Actor = Actor(body: Body, pos: Pos, destroyed: bool, onDestroyed: Callback)

  /** The actor the level keeps as its user: always a PlayerJet. */
  type Player = a: Actor | a.body.Jet? && a.body.pilot.PlayerPilot?
    witness Actor(Jet(0, PlayerPilot(0, 0, 0)), Pos(0, 0, 0, 0), false, NoCallback)

  /**
   The image files the actors are drawn with: userplane.png, enemyplane.png, bossplane.png,
   userfire.png, enemyFire.png, fireball.png and meteor.png.
   */
  datatype Image = UserPlane | EnemyPlane | BossPlane | UserFire | EnemyFire | Fireball | MeteorImage

  /** The image an actor is drawn with and the height it is scaled to. */
  datatype Sprite = Sprite(image: Image, height: int)

  function SpriteOf(b: Body): Sprite
  {
    match b
    case Jet(_, PlayerPilot(_, _, _)) => Sprite(UserPlane, 45)
    case Jet(_, EnemyPilot) => Sprite(EnemyPlane, 57)
    case Jet(_, BossJetPilot) => Sprite(BossPlane, 57)
    case Jet(_, BossPilot(_)) => Sprite(BossPlane, 50)
    case Missile(FromPlayer) => Sprite(UserFire, 125)
    case Missile(FromEnemy) => Sprite(EnemyFire, 27)
    case Missile(FromBoss) => Sprite(Fireball, 75)
    case Rock(_) => Sprite(MeteorImage, 70)
  }

  /** What `getBoundsInParent` is computed from: the scaled image and where it is drawn. */
  datatype Frame = Frame(sprite: Sprite, pos: Pos)

  function FrameOf(a: Actor): Frame
  {
    Frame(SpriteOf(a.body), a.pos)
  }

  /** An actor after something happened to it, and the spawn slots whose release callbacks ran meanwhile. */
  datatype Affected = Affected(actor: Actor, released: seq<Slot>)

  /** The slots a callback frees when it runs. */
  function Runs(cb: Callback): (r: seq<Slot>)
    ensures cb.NoCallback? ==> r == []
    ensures cb.FreeSlot? ==> r == [cb.slot]
  {
    match cb
    case NoCallback => []
    case FreeSlot(s) => [s]
  }

  /** The ActiveActorDestructible constructor: placed at (x, y), not destroyed, no callback registered. */
  function NewActor(body: Body, x: int, y: int): (a: Actor)
    ensures a.body == body && !a.destroyed && a.onDestroyed == NoCallback
    ensures a.pos == Place(x, y)
  {
    Actor(body, Place(x, y), false, NoCallback)
  }

  /** A new actor is drawn exactly at (x, y): its layout is the position and its translation is 0. */
  lemma NewActorAt(body: Body, x: int, y: int)
    ensures NewActor(body, x, y).pos.layoutX == x && NewActor(body, x, y).pos.layoutY == y
    ensures NewActor(body, x, y).pos.X() == x && NewActor(body, x, y).pos.Y() == y
  {
  }

  /**
   `destroy`: sets the destroyed flag and runs the registered callback if there is one. It is not
   guarded: destroying an already destroyed actor runs the callback again.
   */
  function Destroy(a: Actor): (r: Affected)
    ensures r.actor.destroyed
    ensures r.actor.body == a.body && r.actor.pos == a.pos && r.actor.onDestroyed == a.onDestroyed
    ensures a.onDestroyed.NoCallback? ==> r.released == []
    ensures a.onDestroyed.FreeSlot? ==> r.released == [a.onDestroyed.slot]
  {
    Affected(a.(destroyed := true), Runs(a.onDestroyed))
  }

  /** A second `destroy` leaves the actor as the first left it but runs the callback once more. */
  lemma DestroyAgain(a: Actor)
    ensures Destroy(Destroy(a).actor).actor == Destroy(a).actor
    ensures Destroy(Destroy(a).actor).released == Destroy(a).released
    ensures a.onDestroyed.FreeSlot? ==> |Destroy(a).released + Destroy(Destroy(a).actor).released| == 2
  {
  }

  /** `setOnDestroyed`: the new callback replaces whatever was registered; nothing else changes. */
  function SetOnDestroyed(a: Actor, cb: Callback): (r: Actor)
    ensures r.onDestroyed == cb
    ensures r.body == a.body && r.pos == a.pos && r.destroyed == a.destroyed
  {
    a.(onDestroyed := cb)
  }

  lemma SetOnDestroyedReplaces(a: Actor, first: Callback, second: Callback)
    ensures SetOnDestroyed(SetOnDestroyed(a, first), second) == SetOnDestroyed(a, second)
  {
  }

  /** The FighterJet constructor: a placed actor with the given health. */
  function NewFighterJet(pilot: Pilot, x: int, y: int, health: int): (a: Actor)
    ensures a.body == Jet(health, pilot) && !a.destroyed && a.onDestroyed == NoCallback
    ensures a.pos == Place(x, y)
  {
    NewActor(Jet(health, pilot), x, y)
  }

  const PlayerInitialX: int := 5
  const PlayerInitialY: int := 300

  /** The PlayerJet constructor: at (5, 300), both multipliers 0, no kills, the given health. */
  function NewPlayerJet(initialHealth: int): (u: Player)
    ensures u.body.health == initialHealth
    ensures u.body.pilot == PlayerPilot(0, 0, 0)
    ensures u.pos == Place(PlayerInitialX, PlayerInitialY)
    ensures !u.destroyed && u.onDestroyed == NoCallback
  {
    Actor(Jet(initialHealth, PlayerPilot(0, 0, 0)), Place(PlayerInitialX, PlayerInitialY), false, NoCallback)
  }

  /** The user's jet starts on screen at (5, 300). */
  lemma PlayerStartsAt(initialHealth: int)
    ensures NewPlayerJet(initialHealth).pos.X() == 5 && NewPlayerJet(initialHealth).pos.Y() == 300
    ensures NewPlayerJet(initialHealth).pos.layoutX == 5 && NewPlayerJet(initialHealth).pos.layoutY == 300
  {
  }

  /** The EnemyJet constructor: one health point. */
  function NewEnemyJet(x: int, y: int): (a: Actor)
    ensures a.body == Jet(1, EnemyPilot) && a.pos == Place(x, y) && !a.destroyed
  {
    NewFighterJet(EnemyPilot, x, y, 1)
  }

  /** The BossJet constructor: the three-health variant of the enemy jet. */
  function NewBossJet(x: int, y: int): (a: Actor)
    ensures a.body == Jet(3, BossJetPilot) && a.pos == Place(x, y) && !a.destroyed
  {
    NewFighterJet(BossJetPilot, x, y, 3)
  }

  /** The Boss constructor: at (1000, 250) with 15 health and a fresh brain shuffled by `order`. */
  function NewBoss(order: seq<int>): (a: Actor)
    ensures a.body == Jet(Health, BossPilot(NewBrain(order))) && a.pos == Place(1000, 250)
    ensures !a.destroyed && a.onDestroyed == NoCallback
  {
    NewFighterJet(BossPilot(NewBrain(order)), 1000, 250, Health)
  }

  /** The PlayerMissiles constructor: exactly at the caller's (x, y). */
  function NewPlayerMissile(x: int, y: int): (a: Actor)
    ensures a.body == Missile(FromPlayer) && a.pos == Place(x, y) && !a.destroyed
  {
    NewActor(Missile(FromPlayer), x, y)
  }

  /** The EnemyMissiles constructor: exactly at the caller's (x, y). */
  function NewEnemyMissile(x: int, y: int): (a: Actor)
    ensures a.body == Missile(FromEnemy) && a.pos == Place(x, y) && !a.destroyed
  {
    NewActor(Missile(FromEnemy), x, y)
  }

  /** The BossMissiles constructor: x is always 950, only y comes from the caller. */
  function NewBossMissile(y: int): (a: Actor)
    ensures a.body == Missile(FromBoss) && a.pos == Place(950, y) && !a.destroyed
  {
    NewActor(Missile(FromBoss), 950, y)
  }

  /** The Meteor constructor: placed at (x, y) falling `speedY` per frame. */
  function NewMeteor(x: int, y: int, speedY: int): (a: Actor)
    ensures a.body == Rock(speedY) && a.pos == Place(x, y) && !a.destroyed
  {
    NewActor(Rock(speedY), x, y)
  }

  /** True for the Boss while its shield is up (`getIsShielded`). */
  predicate IsShielded(a: Actor)
  {
    a.body.Jet? && a.body.pilot.BossPilot? && a.body.pilot.brain.shielded
  }

  /**
   `b` is what `a` can have become by taking damage or being destroyed: same position, image and
   callback, still destroyed if it was, and for a jet the same pilot and no more health.
   */
  ghost predicate DamagedFrom(b: Actor, a: Actor)
  {
    && b.pos == a.pos
    && b.onDestroyed == a.onDestroyed
    && (a.destroyed ==> b.destroyed)
    && (if a.body.Jet? then b.body.Jet? && b.body.pilot == a.body.pilot && b.body.health <= a.body.health
        else b.body == a.body)
  }

  /** Damage never changes what the bounds are computed from. */
  lemma DamagedKeepsFrame(b: Actor, a: Actor)
    requires DamagedFrom(b, a)
    ensures FrameOf(b) == FrameOf(a)
  {
  }

  /** A destroyed actor whose callback frees `s` sits somewhere in `xs`. */
  ghost predicate DiedHolding(xs: seq<Actor>, s: Slot)
  {
    exists k :: 0 <= k < |xs| && xs[k].destroyed && xs[k].onDestroyed == FreeSlot(s)
  }

  /** Position-wise `DamagedFrom` between two lists of equal length. */
  ghost predicate AllDamagedFrom(ys: seq<Actor>, xs: seq<Actor>)
  {
    |ys| == |xs| && forall k :: 0 <= k < |xs| ==> DamagedFrom(ys[k], xs[k])
  }

  /** Every slot in `released` was freed by the callback of an actor of `xs` that is now destroyed. */
  ghost predicate ReleasedBy(released: seq<Slot>, xs: seq<Actor>)
  {
    forall s :: s in released ==> DiedHolding(xs, s)
  }

  /**
   `x` became `y`: when it died on the way and its callback frees a slot, that slot is among
   `released`, because every `destroy` runs the callback.
   */
  ghost predicate Freed(released: seq<Slot>, y: Actor, x: Actor)
  {
    !x.destroyed && y.destroyed && x.onDestroyed.FreeSlot? ==> x.onDestroyed.slot in released
  }

  /** Position-wise `Freed` between two lists of equal length. */
  ghost predicate AllFreed(released: seq<Slot>, ys: seq<Actor>, xs: seq<Actor>)
  {
    |ys| == |xs| && forall k :: 0 <= k < |xs| ==> Freed(released, ys[k], xs[k])
  }

  /** Two passes in a row: a death in either is recorded in what the two released together. */
  lemma FreedChain(first: seq<Slot>, second: seq<Slot>, z: Actor, y: Actor, x: Actor)
    requires Freed(first, y, x) && Freed(second, z, y)
    requires y.onDestroyed == x.onDestroyed
    ensures Freed(first + second, z, x)
  {
  }

  /** A death stays recorded when the list grows at either end. */
  lemma DiedHoldingGrows(xs: seq<Actor>, front: seq<Actor>, back: seq<Actor>, s: Slot)
    requires DiedHolding(xs, s)
    ensures DiedHolding(front + xs + back, s)
  {
    var k :| 0 <= k < |xs| && xs[k].destroyed && xs[k].onDestroyed == FreeSlot(s);
    assert (front + xs + back)[|front| + k] == xs[k];
  }

  /** A death stays recorded through further damage. */
  lemma DiedHoldingPersists(xs: seq<Actor>, ys: seq<Actor>, s: Slot)
    requires DiedHolding(xs, s) && AllDamagedFrom(ys, xs)
    ensures DiedHolding(ys, s)
  {
    var k :| 0 <= k < |xs| && xs[k].destroyed && xs[k].onDestroyed == FreeSlot(s);
    assert DamagedFrom(ys[k], xs[k]);
  }
}
