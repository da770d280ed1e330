/**
 What every actor does in one frame (`updateActor`): the player's bounded movement, the fixed
 velocities of missiles, enemy jets and meteors, the Boss's pattern move, clamp and shield, and
 the projectiles the jets fire. Random rolls arrive as a `Dice` value.
 */
module Motion {
  import opened Wrappers
  import opened Geometry
  import opened BossBrain
  import opened Actors

  /** The random outcomes one actor draws in a frame. */
  datatype Dice = Dice(
    fires: bool,            // Math.random() < FIRE_RATE (or BOSS_FIRE_RATE)
    shields: bool,          // Math.random() < BOSS_SHIELD_PROBABILITY
    reshuffle: seq<int>)    // the permutation Collections.shuffle produces, if the boss reshuffles

  /** Nothing fires, the shield stays down, no reshuffle takes effect. */
  const NoLuck: Dice := Dice(false, false, [])

  /** An actor after `updateActor`, with the projectile it handed to `spawnEnemyProjectile` (null is `None`). */
  datatype Acted = Acted(actor: Actor, fired: Option<Actor>)

  const PlayerVelocity: int := 8
  const PlayerYUpperBound: int := 0
  const PlayerYLowerBound: int := 670
  const PlayerXLeftBound: int := 0
  const PlayerXRightBound: int := 1250

  const PlayerMissileVelocity: int := 15
  const EnemyMissileVelocity: int := -10
  const BossMissileVelocity: int := -15
  const EnemyJetVelocity: int := -6

  /** Where the player's jet may be. */
  predicate InPlayerBounds(p: Pos)
  {
    PlayerYUpperBound <= p.Y() <= PlayerYLowerBound && PlayerXLeftBound <= p.X() <= PlayerXRightBound
  }

  /**
   The vertical half of `PlayerJet.updatePosition`: with a non-zero multiplier the jet moves
   8 units per unit of multiplier, and a step that leaves [0, 670] is undone.
   */
  function PlayerStepVertically(p: Pos, multiplier: int): (q: Pos)
    ensures q.X() == p.X() && q.layoutX == p.layoutX && q.layoutY == p.layoutY && q.translateX == p.translateX
    ensures multiplier == 0 ==> q == p
    ensures PlayerYUpperBound <= p.Y() + PlayerVelocity * multiplier <= PlayerYLowerBound ==>
              q.Y() == p.Y() + PlayerVelocity * multiplier
    ensures !(PlayerYUpperBound <= p.Y() + PlayerVelocity * multiplier <= PlayerYLowerBound) ==> q == p
  {
    if multiplier == 0 then p
    else
      var moved := MoveVertically(p, PlayerVelocity * multiplier);
      if moved.Y() < PlayerYUpperBound || moved.Y() > PlayerYLowerBound then moved.(translateY := p.translateY)
      else moved
  }

  /** The horizontal half: the same rule on x against [0, 1250]. */
  function PlayerStepHorizontally(p: Pos, multiplier: int): (q: Pos)
    ensures q.Y() == p.Y() && q.layoutX == p.layoutX && q.layoutY == p.layoutY && q.translateY == p.translateY
    ensures multiplier == 0 ==> q == p
    ensures PlayerXLeftBound <= p.X() + PlayerVelocity * multiplier <= PlayerXRightBound ==>
              q.X() == p.X() + PlayerVelocity * multiplier
    ensures !(PlayerXLeftBound <= p.X() + PlayerVelocity * multiplier <= PlayerXRightBound) ==> q == p
  {
    if multiplier == 0 then p
    else
      var moved := MoveHorizontally(p, PlayerVelocity * multiplier);
      if moved.X() < PlayerXLeftBound || moved.X() > PlayerXRightBound then moved.(translateX := p.translateX)
      else moved
  }

  /**
   `PlayerJet.updatePosition` (and `updateActor`, which only calls it): vertical step first, then
   horizontal. A jet inside the bounds stays inside; the layout never changes.
   */
  function PlayerUpdate(u: Player): (r: Player)
    ensures InPlayerBounds(u.pos) ==> InPlayerBounds(r.pos)
    ensures r.pos.layoutX == u.pos.layoutX && r.pos.layoutY == u.pos.layoutY
    ensures r.body == u.body && r.destroyed == u.destroyed && r.onDestroyed == u.onDestroyed
    ensures r.pos.Y() == PlayerStepVertically(u.pos, u.body.pilot.verticalMultiplier).Y()
    ensures r.pos.X() == PlayerStepHorizontally(u.pos, u.body.pilot.horizontalMultiplier).X()
  {
    var p := PlayerStepVertically(u.pos, u.body.pilot.verticalMultiplier);
    u.(pos := PlayerStepHorizontally(p, u.body.pilot.horizontalMultiplier))
  }

  /** With both multipliers at zero the player's jet does not move. */
  lemma StoppedPlayerStays(u: Player)
    requires u.body.pilot.verticalMultiplier == 0 && u.body.pilot.horizontalMultiplier == 0
    ensures PlayerUpdate(u) == u
  {
  }

  /** Whenever the jet moves on an axis, it moves by exactly 8 units times that axis's multiplier. */
  lemma PlayerStepSize(u: Player)
    ensures PlayerUpdate(u).pos.Y() != u.pos.Y() ==>
              PlayerUpdate(u).pos.Y() - u.pos.Y() == PlayerVelocity * u.body.pilot.verticalMultiplier
    ensures PlayerUpdate(u).pos.X() != u.pos.X() ==>
              PlayerUpdate(u).pos.X() - u.pos.X() == PlayerVelocity * u.body.pilot.horizontalMultiplier
  {
  }

  /** The player's velocity commands (`moveUp`, `moveDown`, `stopVertical`, `moveLeft`, `moveRight`, `stopHorizontal`). */
  datatype Command = MoveUp | MoveDown | StopVertical | MoveLeft | MoveRight | StopHorizontal

  /** The multiplier a command sets, on the axis it belongs to. */
  function CommandMultiplier(c: Command): (m: int)
    ensures -1 <= m <= 1
  {
    match c
    case MoveUp => -1
    case MoveDown => 1
    case StopVertical => 0
    case MoveLeft => -1
    case MoveRight => 1
    case StopHorizontal => 0
  }

  predicate IsVertical(c: Command)
  {
    c.MoveUp? || c.MoveDown? || c.StopVertical?
  }

  /** Applies a command: it sets one multiplier and leaves the other, the position and the health alone. */
  function Steer(u: Player, c: Command): (r: Player)
    ensures IsVertical(c) ==> r.body.pilot.verticalMultiplier == CommandMultiplier(c)
                              && r.body.pilot.horizontalMultiplier == u.body.pilot.horizontalMultiplier
    ensures !IsVertical(c) ==> r.body.pilot.horizontalMultiplier == CommandMultiplier(c)
                               && r.body.pilot.verticalMultiplier == u.body.pilot.verticalMultiplier
    ensures r.body.pilot.kills == u.body.pilot.kills && r.body.health == u.body.health
    ensures r.pos == u.pos && r.destroyed == u.destroyed && r.onDestroyed == u.onDestroyed
  {
    var pilot := u.body.pilot;
    var steered :=
      if IsVertical(c) then pilot.(verticalMultiplier := CommandMultiplier(c))
      else pilot.(horizontalMultiplier := CommandMultiplier(c));
    u.(body := u.body.(pilot := steered))
  }

  /** Multipliers only ever take the values -1, 0 and 1. */
  predicate SaneMultipliers(u: Player)
  {
    -1 <= u.body.pilot.verticalMultiplier <= 1 && -1 <= u.body.pilot.horizontalMultiplier <= 1
  }

  lemma SteerKeepsSane(u: Player, c: Command)
    requires SaneMultipliers(u)
    ensures SaneMultipliers(Steer(u, c))
  {
  }

  /** `incrementKillCount`: one more kill, nothing else changes. */
  function IncrementKillCount(u: Player): (r: Player)
    ensures r.body.pilot.kills == u.body.pilot.kills + 1
    ensures r.body.health == u.body.health
    ensures r.body.pilot.verticalMultiplier == u.body.pilot.verticalMultiplier
    ensures r.body.pilot.horizontalMultiplier == u.body.pilot.horizontalMultiplier
    ensures r.pos == u.pos && r.destroyed == u.destroyed && r.onDestroyed == u.onDestroyed
  {
    u.(body := u.body.(pilot := u.body.pilot.(kills := u.body.pilot.kills + 1)))
  }

  /** `getProjectileXPosition`: the jet's screen x plus the offset. */
  function ProjectileX(a: Actor, offset: int): (x: int)
    ensures x == a.pos.layoutX + a.pos.translateX + offset
  {
    a.pos.X() + offset
  }

  /** `getProjectileYPosition`: the jet's screen y plus the offset. */
  function ProjectileY(a: Actor, offset: int): (y: int)
    ensures y == a.pos.layoutY + a.pos.translateY + offset
  {
    a.pos.Y() + offset
  }

  /** The launch point follows the jet: moving it moves the point by the same amount on that axis only. */
  lemma LaunchPointFollows(a: Actor, d: int, dx: int, dy: int)
    ensures ProjectileX(a.(pos := MoveHorizontally(a.pos, d)), dx) == ProjectileX(a, dx) + d
    ensures ProjectileY(a.(pos := MoveHorizontally(a.pos, d)), dy) == ProjectileY(a, dy)
    ensures ProjectileY(a.(pos := MoveVertically(a.pos, d)), dy) == ProjectileY(a, dy) + d
    ensures ProjectileX(a.(pos := MoveVertically(a.pos, d)), dx) == ProjectileX(a, dx)
  {
  }

  /**
   `PlayerJet.fireProjectile`: a player missile 100 to the right of the jet's translation (its
   layout x is not added) and 20 above its screen y.
   */
  function PlayerFire(u: Player): (m: Actor)
    ensures m.body == Missile(FromPlayer) && !m.destroyed && m.onDestroyed == NoCallback
    ensures m.pos.X() == ProjectileX(u, 100) - u.pos.layoutX
    ensures m.pos.Y() == ProjectileY(u, -20)
  {
    NewPlayerMissile(u.pos.translateX + 100, ProjectileY(u, -20))
  }

  /** The jet's layout x (5 for the player) is missing from the missile's start: it lags by that much. */
  lemma PlayerMissileLags(u: Player)
    requires u.pos.layoutX == PlayerInitialX
    ensures PlayerFire(u).pos.X() == u.pos.X() + 100 - 5
  {
  }

  /**
   The `HORIZONTAL_VELOCITY` of each missile class: player missiles fly right at 15, enemy
   missiles left at 10 and the Boss's left at 15.
   */
  function ShotVelocity(s: Shot): (v: int)
    ensures v > 0 <==> s == FromPlayer
    ensures s == FromPlayer ==> v == 15
    ensures s == FromEnemy ==> v == -10
    ensures s == FromBoss ==> v == -15
  {
    match s
    case FromPlayer => PlayerMissileVelocity
    case FromEnemy => EnemyMissileVelocity
    case FromBoss => BossMissileVelocity
  }

  /**
   `updateActor` of an EnemyJet or BossJet: move 6 left, then, on a successful roll, fire an
   enemy missile 80 left of and 50 below the moved jet (a BossJet fires enemy missiles too).
   */
  function EnemyJetUpdate(a: Actor, dice: Dice): (r: Acted)
    requires a.body.Jet? && (a.body.pilot.EnemyPilot? || a.body.pilot.BossJetPilot?)
    ensures r.actor == a.(pos := MoveHorizontally(a.pos, EnemyJetVelocity))
    ensures r.actor.pos.X() == a.pos.X() - 6 && r.actor.pos.Y() == a.pos.Y()
    ensures dice.fires <==> r.fired.Some?
    ensures r.fired.Some? ==> && r.fired.value.body == Missile(FromEnemy)
                              && r.fired.value.pos.X() == ProjectileX(r.actor, -80)
                              && r.fired.value.pos.Y() == ProjectileY(r.actor, 50)
                              && !r.fired.value.destroyed && r.fired.value.onDestroyed == NoCallback
  {
    var moved := a.(pos := MoveHorizontally(a.pos, EnemyJetVelocity));
    Acted(moved,
      if dice.fires then Some(NewEnemyMissile(ProjectileX(moved, -80), ProjectileY(moved, 50))) else None)
  }

  /**
   `Boss.updateActor`: the pattern move with the clamp on the translation, then the shield update,
   then, on a successful roll, a boss missile at the boss's new screen y.
   */
  function BossUpdate(a: Actor, dice: Dice): (r: Acted)
    requires a.body.Jet? && a.body.pilot.BossPilot?
    ensures r.actor.body.Jet? && r.actor.body.pilot.BossPilot? && r.actor.body.health == a.body.health
    ensures r.actor.destroyed == a.destroyed && r.actor.onDestroyed == a.onDestroyed
    ensures YUpperBound <= r.actor.pos.translateY <= YLowerBound
    ensures r.actor.pos.translateY ==
              ClampY(a.pos.translateY + a.body.pilot.brain.pattern[a.body.pilot.brain.cursor])
    ensures r.actor.pos.layoutX == a.pos.layoutX && r.actor.pos.layoutY == a.pos.layoutY
    ensures r.actor.pos.translateX == a.pos.translateX
    ensures r.actor.body.pilot.brain ==
              UpdateShield(NextMove(a.body.pilot.brain, dice.reshuffle).1, dice.shields)
    ensures dice.fires <==> r.fired.Some?
    ensures r.fired.Some? ==> r.fired.value == NewBossMissile(r.actor.pos.Y())
  {
    var (move, brain) := NextMove(a.body.pilot.brain, dice.reshuffle);
    var moved := MoveVertically(a.pos, move);
    var clamped := moved.(translateY := ClampY(moved.translateY));
    var shielded := UpdateShield(brain, dice.shields);
    var boss := a.(body := a.body.(pilot := BossPilot(shielded)), pos := clamped);
    Acted(boss, if dice.fires then Some(NewBossMissile(ProjectileY(boss, 0))) else None)
  }

  /**
   `updateActor` for every kind of actor: the player, enemy jets and the Boss each follow their own
   class's update, missiles fly level and meteors fall. Only enemy jets and the Boss can hand back a
   projectile; nothing changes health, the destroyed flag or the callback.
   */
  function UpdateActor(a: Actor, dice: Dice): (r: Acted)
    ensures r.actor.destroyed == a.destroyed && r.actor.onDestroyed == a.onDestroyed
    ensures a.body.Jet? <==> r.actor.body.Jet?
    ensures a.body.Jet? ==> r.actor.body.health == a.body.health
    ensures a.body.Jet? ==> (r.actor.body.pilot.PlayerPilot? <==> a.body.pilot.PlayerPilot?)
                            && (r.actor.body.pilot.BossPilot? <==> a.body.pilot.BossPilot?)
    ensures a.body.Jet? && a.body.pilot.PlayerPilot? ==> r.actor.body == a.body
    ensures !a.body.Jet? ==> r.actor.body == a.body
    ensures a.body.Jet? && a.body.pilot.PlayerPilot? ==> r == Acted(PlayerUpdate(a), None)
    ensures a.body.Jet? && (a.body.pilot.EnemyPilot? || a.body.pilot.BossJetPilot?) ==>
              r == EnemyJetUpdate(a, dice)
    ensures a.body.Jet? && a.body.pilot.BossPilot? ==> r == BossUpdate(a, dice)
    ensures a.body.Missile? ==> r.actor.pos == MoveHorizontally(a.pos, ShotVelocity(a.body.shot))
    ensures a.body.Rock? ==> r.actor.pos == MoveVertically(a.pos, a.body.speedY)
    ensures r.fired.Some? ==> a.body.Jet? && !a.body.pilot.PlayerPilot? && dice.fires
    ensures r.fired.Some? ==> && r.fired.value.body.Missile? && r.fired.value.body.shot != FromPlayer
                              && !r.fired.value.destroyed && r.fired.value.onDestroyed == NoCallback
  {
    match a.body
    case Jet(_, pilot) =>
      (match pilot
       case PlayerPilot(_, _, _) => Acted(PlayerUpdate(a), None)
       case EnemyPilot => EnemyJetUpdate(a, dice)
       case BossJetPilot => EnemyJetUpdate(a, dice)
       case BossPilot(_) => BossUpdate(a, dice))
    case Missile(shot) => Acted(a.(pos := MoveHorizontally(a.pos, ShotVelocity(shot))), None)
    case Rock(speed) => Acted(a.(pos := MoveVertically(a.pos, speed)), None)
  }

  /** A missile keeps its height: only x changes, by the class velocity. */
  lemma MissileFlightIsLevel(a: Actor, dice: Dice)
    requires a.body.Missile?
    ensures UpdateActor(a, dice).actor.pos.Y() == a.pos.Y()
    ensures UpdateActor(a, dice).actor.pos.X() == a.pos.X() + ShotVelocity(a.body.shot)
    ensures UpdateActor(a, dice).fired == None
  {
  }

  /** A meteor falls by its own speed and never drifts sideways; its speed never changes. */
  lemma MeteorFalls(a: Actor, dice: Dice)
    requires a.body.Rock?
    ensures UpdateActor(a, dice).actor.pos.X() == a.pos.X()
    ensures UpdateActor(a, dice).actor.pos.Y() == a.pos.Y() + a.body.speedY
    ensures UpdateActor(a, dice).actor.body.speedY == a.body.speedY
  {
  }
}
