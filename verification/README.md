# Tick model of the CW2024 arcade shooter

This project models the simulation behind the JavaFX side-scrolling shooter: the actors and their
damage rules, the Boss's move and shield state machine, the collision and penetration handler, the
spawn-lane allocator, the four levels' policies, one frame of `LevelParent.updateScene`, the input
manager and the heart display. Everything is a pure function over immutable values.

- Positions are integer layout plus translation (`Geometry`). Images and bounds are left abstract:
  whether two actors' bounds intersect is an oracle `Intersects` over their frames.
- Actors are one `Actor` datatype (`Actors`): a body (a jet with health and pilot, a missile, or a
  meteor), a destroyed flag and a destruction callback. The only callback the code ever registers
  frees a spawn lane, so it is the value `FreeSlot(slot)`. Running it is reported as a released
  slot, and the level removes released slots from its used set.
- Every `Math.random()` and `Collections.shuffle` result is an input: spawn rolls, per-enemy
  `Dice`, the meteor's x and the shuffle's permutation (`Scene.Luck`).
- A frame is `Scene.Tick`, the chain of phases in `updateScene`'s order, followed by the meteor
  steps of LevelThree and LevelFour. Its `Signal` says whether the level advanced, was won or was
  lost. The timeline becomes a `stopped` flag. `Crashed` is the `IndexOutOfBoundsException` that
  `friendlyUnits.get(0)` throws once the user has been purged. `Invariants.TickKeeps` shows that
  no level reachable from a fresh one by frames and key events ever gets there.
- The invariant kept between frames (`Invariants.Inv`) includes the lane bookkeeping: no two
  enemies hold the same lane, every lane a live enemy holds is recorded as used, and every lane
  recorded as used has a live holder, so a destroyed enemy's lane is back in the pool by the end of
  the frame (`Invariants.UsedLanesAreHeld`).
- `Game` strings frames and key events into runs and proves the run-level facts for such runs:
  each level advances at most once, a win or loss is final, kills never decrease and nothing
  throws. The pause menu's resume is not one of these events. It restarts even a timeline that a
  win or loss stopped, and after a loss the next frame throws (`Game.ResumeAfterLossThrows`).

Modules follow the source: `Geometry` (ActiveActor), `Actors` and `Damage` (the destructible
classes), `BossBrain` and `Motion` (the `updateActor`s), `Collisions` (CollisionHandler), `Slots`,
`Spawning` and `Lanes` (the levels' spawn code), `Hearts` (HeartDisplay and LevelView), `Levels`
and `Scene` (LevelParent and its subclasses), `Input` (InputManager), and `Invariants` and `Game`
(the whole-game facts).

The model follows these behaviours of the code:
- `destroy()` is not idempotent. Every call sets the flag again and runs the callback again
  (`Actors.DestroyAgain`).
- Hitting a destroyed jet still lowers its health. The jet is not destroyed a second time, because
  the check is `health == 0` (`Damage.JetHits`).
- Callbacks run when an actor is destroyed, not when it is purged.
- The kill count compares against the enemy count taken after spawning and acting, not before the
  frame (`Scene.TickKills`). An enemy spawned and destroyed in the same frame therefore counts,
  and so does an enemy that penetrated the defences.
- LevelTwo advances on the Boss's destruction, not on a kill target. LevelFour has no finished
  flag and relies on `winGame` stopping the timeline.
- `InputManager` keeps the set of held keys (`Input`).

## Model

| member | source | states |
|---|---|---|
| Geometry.Place | src/main/java/com/example/demo/activeactor/ActiveActor.java:21-28 | a new actor's layout is the given initial position and its translation is zero |
| Geometry.MoveHorizontally | src/main/java/com/example/demo/activeactor/ActiveActor.java:45-47 | x grows by exactly d; y, both layout values and translateY are unchanged |
| Geometry.MoveVertically | src/main/java/com/example/demo/activeactor/ActiveActor.java:57-59 | y grows by exactly d; x, both layout values and translateX are unchanged |
| Geometry.HorizontalMovesAdd | src/main/java/com/example/demo/activeactor/ActiveActor.java:45-47 | two horizontal moves by a and b are one move by a + b |
| Geometry.VerticalMovesAdd | src/main/java/com/example/demo/activeactor/ActiveActor.java:57-59 | two vertical moves by a and b are one move by a + b |
| Geometry.HorizontalMoveUndone | src/main/java/com/example/demo/activeactor/ActiveActor.java:45-47 | a move by d followed by a move by -d restores the position |
| Geometry.MovesCommute | src/main/java/com/example/demo/activeactor/ActiveActor.java:45-59 | horizontal and vertical moves commute |
| Actors.NewActor | src/main/java/com/example/demo/activeactor/ActiveActorDestructible.java:26-29 | a new destructible actor is not destroyed, has no callback and stands at its initial position |
| Actors.NewActorAt | src/main/java/com/example/demo/activeactor/ActiveActor.java:24-25 | the constructor's position is both the layout and the on-screen position |
| Actors.Destroy | src/main/java/com/example/demo/activeactor/ActiveActorDestructible.java:59-64 | the flag becomes true; a registered callback releases its slot; without one only the flag changes |
| Actors.DestroyAgain | src/main/java/com/example/demo/activeactor/ActiveActorDestructible.java:59-64 | a second destroy leaves the actor as it was but runs the callback again, so a lane is released twice |
| Actors.SetOnDestroyed | src/main/java/com/example/demo/activeactor/ActiveActorDestructible.java:89-91 | the callback becomes the given one; nothing else changes |
| Actors.SetOnDestroyedReplaces | src/main/java/com/example/demo/activeactor/ActiveActorDestructible.java:89-91 | registering twice keeps only the second callback |
| Actors.NewFighterJet | src/main/java/com/example/demo/activeactor/FighterJet.java:19-22 | health starts at the constructor argument |
| Actors.NewPlayerJet | src/main/java/com/example/demo/activeactor/PlayerJet.java:27-31 | the user starts with the given health, both multipliers and kills at 0, at (5, 300), alive |
| Actors.PlayerStartsAt | src/main/java/com/example/demo/activeactor/PlayerJet.java:10-11 | the user's layout and on-screen position start at (5, 300) |
| Actors.NewEnemyJet | src/main/java/com/example/demo/activeactor/EnemyJet.java:27-31 | an enemy jet starts with health 1 at the given position |
| Actors.NewBossJet | src/main/java/com/example/demo/activeactor/BossJet.java:25-28 | a BossJet starts with health 3 at the given position |
| Actors.NewBoss | src/main/java/com/example/demo/activeactor/Boss.java:37-46 | the Boss starts with health 15 at (1000, 250), unshielded, with a fresh brain and no callback |
| Actors.NewPlayerMissile | src/main/java/com/example/demo/activeactor/PlayerMissiles.java:12-14 | a player missile is built at the caller's (x, y) |
| Actors.NewEnemyMissile | src/main/java/com/example/demo/activeactor/EnemyMissiles.java:16-18 | an enemy missile is built at the caller's (x, y) |
| Actors.NewBossMissile | src/main/java/com/example/demo/activeactor/BossMissiles.java:17-19 | a boss missile always starts at x = 950, with y from the argument |
| Actors.NewMeteor | src/main/java/com/example/demo/activeactor/Meteor.java:16-20 | a meteor is built at (x, y) with the given fall speed |
| Damage.JetHit | src/main/java/com/example/demo/activeactor/FighterJet.java:39-45 | health drops by exactly 1; the jet is destroyed, and its callback runs, exactly when health was 1 |
| Damage.TakeDamage | src/main/java/com/example/demo/activeactor/Boss.java:98-102 | a shielded Boss is unchanged; other jets lose one health point; missiles and meteors are destroyed; a hit that kills an actor releases the slot its callback frees |
| Damage.DamageTimes | src/main/java/com/example/demo/activeactor/FighterJet.java:39-45 | repeated damage keeps position and callback, never revives and never raises health |
| Damage.JetHits | src/main/java/com/example/demo/activeactor/FighterJet.java:72-74 | n hits lower health by n; the jet dies iff its health was in 1..n; hits below zero destroy nothing again |
| Damage.ShieldedIgnoresHits | src/main/java/com/example/demo/activeactor/Boss.java:98-102 | any number of hits on a shielded Boss changes nothing and releases nothing |
| Damage.OneHitKills | src/main/java/com/example/demo/activeactor/Missiles.java:23-25 | one or more hits destroy a missile or meteor, and each hit re-runs its callback |
| Damage.EnemyJetDiesOnFirstHit | src/main/java/com/example/demo/activeactor/EnemyJet.java:13 | a fresh enemy jet dies on its first hit |
| Damage.BossJetSurvivesTwoHits | src/main/java/com/example/demo/activeactor/BossJet.java:12 | a fresh BossJet survives two hits and dies on the third |
| Motion.PlayerStepVertically | src/main/java/com/example/demo/activeactor/PlayerJet.java:41-48 | a vertical step of 8 times the multiplier is kept if y stays within [0, 670] and reverted otherwise |
| Motion.PlayerStepHorizontally | src/main/java/com/example/demo/activeactor/PlayerJet.java:51-58 | a horizontal step of 8 times the multiplier is kept if x stays within [0, 1250] and reverted otherwise |
| Motion.PlayerUpdate | src/main/java/com/example/demo/activeactor/PlayerJet.java:38-59 | an in-bounds user stays in bounds; layout, health, flag and callback are untouched |
| Motion.StoppedPlayerStays | src/main/java/com/example/demo/activeactor/PlayerJet.java:86-97 | zero multipliers mean no movement at all |
| Motion.PlayerStepSize | src/main/java/com/example/demo/activeactor/PlayerJet.java:13-14 | an accepted step moves exactly 8 per axis with a unit multiplier |
| Motion.CommandMultiplier | src/main/java/com/example/demo/activeactor/PlayerJet.java:102-139 | every command sets a multiplier in -1..1 |
| Motion.Steer | src/main/java/com/example/demo/activeactor/PlayerJet.java:102-139 | up, down and stop-vertical set the vertical multiplier to -1, 1 and 0, left, right and stop-horizontal do the same horizontally, and the other axis is kept |
| Motion.SteerKeepsSane | src/main/java/com/example/demo/activeactor/PlayerJet.java:102-139 | steering keeps both multipliers in -1..1 |
| Motion.IncrementKillCount | src/main/java/com/example/demo/activeactor/PlayerJet.java:153-155 | kills grow by exactly 1; nothing else changes |
| Motion.ProjectileX | src/main/java/com/example/demo/activeactor/FighterJet.java:54-56 | the launch x is layoutX + translateX + offset |
| Motion.ProjectileY | src/main/java/com/example/demo/activeactor/FighterJet.java:64-66 | the launch y is layoutY + translateY + offset |
| Motion.LaunchPointFollows | src/main/java/com/example/demo/activeactor/FighterJet.java:54-66 | moving a jet moves its launch point by the same amount on that axis and leaves the other axis alone |
| Motion.PlayerFire | src/main/java/com/example/demo/activeactor/PlayerJet.java:77-79 | the missile is at x = translateX + 100, ignoring layoutX, and y = layoutY + translateY - 20 |
| Motion.PlayerMissileLags | src/main/java/com/example/demo/activeactor/PlayerJet.java:78 | with the start layout x of 5, the missile appears 95, not 100, ahead of the jet |
| Motion.EnemyJetUpdate | src/main/java/com/example/demo/activeactor/EnemyJet.java:37-69 | the jet moves 6 left and keeps y, then fires an enemy missile at offset (-80, +50) iff the roll fires; a BossJet fires enemy missiles too |
| Motion.BossUpdate | src/main/java/com/example/demo/activeactor/Boss.java:62-91 | the Boss moves by the pattern's move, is clamped to [-250, 375], updates its shield, then fires a boss missile at its y iff the roll fires |
| Motion.UpdateActor | src/main/java/com/example/demo/level/LevelParent.java:227-232 | each actor runs its own class's update: the player's is `PlayerUpdate`, an enemy jet's or BossJet's is `EnemyJetUpdate`, the Boss's is `BossUpdate`, a missile flies level at its class's speed and a meteor falls by its speed; flag, callback and health are kept, and only enemy jets and the Boss fire, never a player missile |
| Motion.ShotVelocity | src/main/java/com/example/demo/activeactor/PlayerMissiles.java:7 | player missiles fly right at 15, enemy missiles (EnemyMissiles.java:7) left at 10, boss missiles (BossMissiles.java:7) left at 15; only player missiles fly right |
| Motion.MissileFlightIsLevel | src/main/java/com/example/demo/activeactor/PlayerMissiles.java:19-30 | a missile's update moves it by its class's velocity (+15, -10, -15) and never changes y |
| Motion.MeteorFalls | src/main/java/com/example/demo/activeactor/Meteor.java:26-39 | a meteor falls by its fixed speed, keeps x and keeps its speed |
| BossBrain.RoundsMoves | src/main/java/com/example/demo/activeactor/Boss.java:108-113 | n rounds hold n each of +8, -8 and 0 and nothing else |
| BossBrain.PatternContents | src/main/java/com/example/demo/activeactor/Boss.java:108-115 | any permutation of the pattern holds five each of +8, -8 and 0 |
| BossBrain.Shuffle | src/main/java/com/example/demo/activeactor/Boss.java:114 | shuffling yields a permutation of the pattern: the given order when it is one, else the pattern unchanged |
| BossBrain.NewBrain | src/main/java/com/example/demo/activeactor/Boss.java:37-46 | a new brain has counters and cursor at 0, no shield, and a shuffled pattern of five each of +8, -8 and 0 |
| BossBrain.NextMove | src/main/java/com/example/demo/activeactor/Boss.java:135-147 | the move is the entry at the cursor read before the update; the counter wraps at 10 and only then does the cursor advance and the pattern reshuffle |
| BossBrain.ClampY | src/main/java/com/example/demo/activeactor/Boss.java:63-70 | the clamped y lies in [-250, 375] and equals y whenever y already does |
| BossBrain.UpdateShield | src/main/java/com/example/demo/activeactor/Boss.java:121-125 | unshielded, only a successful roll raises the shield and a failed one changes nothing; shielded, the counter grows and the 150th frame lowers the shield and resets the counter; a down shield keeps its counter at 0 |
| BossBrain.ShieldLastsExactly | src/main/java/com/example/demo/activeactor/Boss.java:121-125 | a freshly raised shield stays up for exactly 149 more updates and drops on the 150th |
| BossBrain.ShieldCounts | src/main/java/com/example/demo/activeactor/Boss.java:121-125 | while shielded, every update adds one frame until the count reaches 150 |
| BossBrain.RunOfTen | src/main/java/com/example/demo/activeactor/Boss.java:135-147 | from a zero counter, ten moves repeat the same pattern entry and then the cursor has advanced by one, modulo 15 |
| BossBrain.RunContinues | src/main/java/com/example/demo/activeactor/Boss.java:135-147 | the moves that finish a run of ten repeat the current entry, then the cursor advances |
| Slots.PaletteHoldsAllLanes | src/main/java/com/example/demo/level/LevelOne.java:18 | the palette lists every one of the five lanes |
| Slots.Unused | src/main/java/com/example/demo/level/LevelOne.java:97-102 | the result is exactly the palette values not in the used set |
| Slots.FreeLanes | src/main/java/com/example/demo/level/LevelOne.java:96-102 | the free lanes are exactly the lanes not in the used set |
| Slots.Allocate | src/main/java/com/example/demo/level/LevelOne.java:96-109 | the slot is an unused lane while one exists, and an overflow height exactly when all five lanes are used |
| Slots.EveryFreeLaneReachable | src/main/java/com/example/demo/level/LevelOne.java:108 | every free lane is returned for some random pick |
| Slots.Free | src/main/java/com/example/demo/level/LevelOne.java:88-90 | freeing removes only the given value, and is a no-op when the value is absent |
| Slots.FreeAll | src/main/java/com/example/demo/level/LevelOne.java:88-90 | freeing a list of slots leaves exactly the used slots not in the list |
| Slots.SlotY | src/main/java/com/example/demo/level/LevelOne.java:75 | a lane's height lies within the enemies' height range; an overflow slot keeps its own height |
| Slots.LaneHeightsDistinct | src/main/java/com/example/demo/level/LevelOne.java:75 | different lanes spawn at different heights |
| Hearts.NewHeartDisplay | src/main/java/com/example/demo/userinterface/HeartDisplay.java:47-53 | a display starts with exactly the requested number of hearts, none for a non-positive request |
| Hearts.RemoveHeart | src/main/java/com/example/demo/userinterface/HeartDisplay.java:60-62 | an empty display is unchanged; otherwise the first heart goes and the rest keep their order |
| Hearts.RemoveHeartTimesDrops | src/main/java/com/example/demo/level/LevelView.java:64-66 | n removals drop the first n hearts, all of them when n exceeds the count, none when n is not positive |
| Hearts.RemoveHearts | src/main/java/com/example/demo/level/LevelView.java:62-67 | `removeHearts(h)` leaves the last min(count, max(h, 0)) hearts, and changes nothing when h is at least the count |
| Hearts.RemoveHeartsIdempotent | src/main/java/com/example/demo/level/LevelView.java:62-67 | the count never grows, and trimming twice to the same h is trimming once |
| Hearts.FreshDisplayTracksHealth | src/main/java/com/example/demo/level/LevelView.java:30 | a fresh view trimmed to any health up to its start shows exactly that many hearts |
| Input.HandleKeyPressed | src/main/java/com/example/demo/InputManager.java:66-68 | the key becomes pressed and no other key changes |
| Input.IsKeyPressed | src/main/java/com/example/demo/InputManager.java:85-87 | a key counts as pressed exactly when it is in the held set |
| Input.HeldIffLastPressed | src/main/java/com/example/demo/InputManager.java:66-87 | after any stream of presses and releases, a key is held exactly when its last event was a press, or, when no event concerns it, when it was held before |
| Input.HandleKeyReleased | src/main/java/com/example/demo/InputManager.java:75-77 | the key is no longer pressed and no other key changes |
| Input.ClearAllKeys | src/main/java/com/example/demo/InputManager.java:92-94 | no key is pressed afterwards |
| Input.PressThenReleaseRestores | src/main/java/com/example/demo/InputManager.java:66-77 | pressing and releasing a key that was not pressed restores the set |
| Input.PressIdempotent | src/main/java/com/example/demo/InputManager.java:66-68 | pressing a key twice is pressing it once |
| Input.PressReaction | src/main/java/com/example/demo/InputManager.java:45-52 | UP gives moveUp, DOWN moveDown, LEFT moveLeft and RIGHT moveRight; SPACE and only SPACE fires; any other key does nothing |
| Input.PressSteersTowards | src/main/java/com/example/demo/InputManager.java:47-50 | after pressing an arrow the jet heads that way on screen: UP and LEFT set their axis's multiplier to -1, DOWN and RIGHT to 1 |
| Input.ReleaseReaction | src/main/java/com/example/demo/InputManager.java:54-58 | releasing UP or DOWN stops vertical motion, LEFT or RIGHT stops horizontal motion, and a release never fires |
| Input.PressThenReleaseStops | src/main/java/com/example/demo/InputManager.java:45-58 | pressing then releasing an arrow leaves that axis stopped and the other axis as it was |
| Input.GetInstance | src/main/java/com/example/demo/InputManager.java:27-32 | the first call creates the manager, later calls return the stored one |
| Input.SameInstance | src/main/java/com/example/demo/InputManager.java:27-32 | two calls return the same instance |
| Spawning.NewFoe | src/main/java/com/example/demo/level/LevelFour.java:125 | LevelFour's waves are BossJets and the other levels' are EnemyJets, placed at the given point |
| Spawning.SpawnOne | src/main/java/com/example/demo/level/LevelOne.java:72-80 | a failed roll changes nothing; a successful one appends a jet at the screen's edge on the allocated slot's height, records the slot and gives the jet a callback freeing it |
| Spawning.SpawnWave | src/main/java/com/example/demo/level/LevelOne.java:71-81 | exactly one jet is appended per successful roll (the count `Successes`); the listed enemies stay; each new jet stands at the right edge at its slot's height and holds a slot now recorded; no two new jets share a lane; none takes a lane used before the wave |
| Spawning.LuckyWaveFills | src/main/java/com/example/demo/level/LevelOne.java:70-81 | when every attempt succeeds, the wave tops the list up to exactly five |
| Spawning.Attempts | src/main/java/com/example/demo/level/LevelOne.java:70-71 | the loop makes 5 minus the listed count attempts, none when five or more are listed |
| Spawning.SpawnEnemies | src/main/java/com/example/demo/level/LevelThree.java:117-129 | one new jet per successful roll among the first 5 minus listed attempts, appended after the listed enemies, each at the right edge on a recorded slot with a callback that frees it; at most five enemies afterwards if at most five before; live, distinct, recorded lanes stay so; every slot recorded afterwards was recorded before or is held by a new jet, so a wave leaves no used lane without a live holder |
| Spawning.WaveKeepsLanesOn | src/main/java/com/example/demo/level/LevelOne.java:73-79 | a wave appended to live enemies on distinct recorded lanes keeps every lane distinct and recorded |
| Spawning.WaveKeepsNoLeak | src/main/java/com/example/demo/level/LevelOne.java:71-81 | every lane a wave records is held by the live jet spawned on it |
| Spawning.SpawnMeteor | src/main/java/com/example/demo/level/LevelThree.java:131-134 | one meteor at (x mod 1200, 0) with speed 10 is added exactly when fewer than two exist, so at most two remain |
| Spawning.SpawnBoss | src/main/java/com/example/demo/level/LevelTwo.java:50-54 | the same Boss is listed exactly when the list is empty, so at most one enemy is listed |
| Collisions.StruckSeesFrames | src/main/java/com/example/demo/CollisionHandler.java:42-48 | damage never moves an actor, so destroyed actors still meet the same partners |
| Collisions.Sweep | src/main/java/com/example/demo/CollisionHandler.java:43-48 | the outer actor takes one hit per intersecting partner and each partner one hit if it meets the outer actor; every actor the round kills releases the slot its callback frees |
| Collisions.HandleCollisions | src/main/java/com/example/demo/CollisionHandler.java:40-50 | every actor takes exactly as many hits as intersecting partners in the other list, with no early exit and no list resized; every actor the pass kills has its callback slot among the released ones, and every released slot belongs to an actor now destroyed |
| Collisions.Penetrated | src/main/java/com/example/demo/CollisionHandler.java:30-32 | an enemy has penetrated exactly when translateX + layoutX is below 0 |
| Collisions.HandleEnemyPenetration | src/main/java/com/example/demo/CollisionHandler.java:15-22 | every enemy with x < 0 is destroyed and costs the user one hit; others are untouched; the callback slot of every penetrating enemy is released, and every released slot belongs to an actor now destroyed |
| Collisions.PenetrationSparesTheRest | src/main/java/com/example/demo/CollisionHandler.java:17 | an enemy with x >= 0 comes out of the penetration check unchanged |
| Collisions.Purge | src/main/java/com/example/demo/level/LevelParent.java:247-252 | the result holds exactly the live actors of the list and none that is destroyed |
| Collisions.PurgeAppend | src/main/java/com/example/demo/level/LevelParent.java:248-251 | purging a concatenation purges each part, so survivors keep their order |
| Collisions.PurgeKeepsLive | src/main/java/com/example/demo/level/LevelParent.java:247-252 | a list of live actors is left as it is |
| Lanes.ReleaseKeepsHeld | src/main/java/com/example/demo/level/LevelOne.java:79 | freeing the lanes released in a damage pass never frees a lane a surviving enemy holds |
| Lanes.PurgeKeepsLanes | src/main/java/com/example/demo/level/LevelParent.java:237-242 | the purge keeps lanes distinct and recorded and leaves only live actors |
| Lanes.FreeingFreesDead | src/main/java/com/example/demo/level/LevelOne.java:79-90 | freeing the slots a damage pass released removes from `used` the slot of every actor that pass killed |
| Lanes.DamageKeepsNoLeak | src/main/java/com/example/demo/level/LevelOne.java:79-90 | after a damage pass that frees the slots of the enemies it killed, every lane still recorded as used has a live holder |
| Lanes.PurgeKeepsNoLeak | src/main/java/com/example/demo/level/LevelParent.java:237-242 | the purge drops no live enemy, so every used lane keeps its live holder |
| Levels.Friendly | src/main/java/com/example/demo/level/LevelParent.java:70 | the friendly list is the user while it is listed and empty after the purge removed it |
| Levels.BossRules | src/main/java/com/example/demo/level/LevelTwo.java:20-23 | LevelTwo starts unfinished, its shield image hidden, with one live Boss without callback |
| Levels.NewLevel | src/main/java/com/example/demo/level/LevelParent.java:52-71 | a new level lists only the user (health 5), no enemies, projectiles, meteors or used slots, shows five hearts and runs |
| Levels.NextLevel | src/main/java/com/example/demo/level/LevelOne.java:13 | levels One to Three name their successor class; LevelFour has none |
| Levels.LevelLabel | src/main/java/com/example/demo/level/LevelParent.java:194-195 | the label is the first five characters, a space and the rest; a name under five characters throws |
| Levels.LabelSplits | src/main/java/com/example/demo/level/LevelParent.java:194-195 | a five-character head and any rest are labelled head, space, rest |
| Levels.StageLabels | src/main/java/com/example/demo/level/LevelParent.java:194-195 | "LevelOne" to "LevelFour" are labelled "Level One" to "Level Four" |
| Levels.ResumeGame | src/main/java/com/example/demo/level/LevelParent.java:174-176 | the timeline runs afterwards whatever stopped it, and nothing else changes |
| Levels.CheckIfGameOver | src/main/java/com/example/demo/level/LevelOne.java:43-52 | a destroyed user loses, before anything else; levels One to Three advance only when the target is met and they are unfinished, and become finished; LevelFour wins; win and loss stop the timeline |
| Levels.Misc | src/main/java/com/example/demo/level/LevelTwo.java:69-83 | in LevelTwo the shield image is shown exactly while the Boss is shielded; the other levels are unchanged |
| Levels.FireProjectile | src/main/java/com/example/demo/level/LevelParent.java:208-212 | exactly one player missile is appended to the user's projectiles; nothing else changes |
| Levels.SpawnEnemyProjectile | src/main/java/com/example/demo/level/LevelParent.java:217-222 | null leaves the enemy projectiles unchanged; a projectile is appended once |
| Scene.SpawnPhase | src/main/java/com/example/demo/level/LevelThree.java:117-135 | outside LevelTwo, one jet per successful roll of the wave's attempts is appended, placed and on a recorded slot; the enemy cap of five and the meteor top-up hold; LevelTwo relists its Boss only on an empty list; nothing else changes |
| Scene.UpdateEnemies | src/main/java/com/example/demo/level/LevelParent.java:229 | every enemy becomes its own `updateActor` result, in order; fired projectiles are appended after the existing ones, one per enemy at most, and are live enemy missiles |
| Scene.VolleyShots | src/main/java/com/example/demo/level/LevelParent.java:217-229 | the appended projectiles are exactly the shots of the enemies that fire, in enemy order |
| Scene.QuietDiceFireNothing | src/main/java/com/example/demo/activeactor/EnemyJet.java:66-68 | when no enemy's roll fires, the enemy projectile list is unchanged |
| Scene.PenetratedStaysPast | src/main/java/com/example/demo/CollisionHandler.java:30-32 | an enemy jet already past the defences is still past them after its update |
| Scene.MoveAll | src/main/java/com/example/demo/level/LevelParent.java:230-231 | each missile flies by its velocity and each meteor falls; flags and callbacks are unchanged |
| Scene.ActPhase | src/main/java/com/example/demo/level/LevelParent.java:227-232 | a listed user moves; each enemy becomes its `updateActor` result; the user's missiles fly by their velocity; the enemy projectiles are the old ones plus this frame's shots in enemy order, all flown; meteors fall in LevelThree and LevelFour and are untouched elsewhere |
| Scene.UpdateNumberOfEnemies | src/main/java/com/example/demo/level/LevelParent.java:361-363 | the snapshot is the enemy count at that point; nothing else changes |
| Scene.PenetrationPhase | src/main/java/com/example/demo/level/LevelParent.java:143 | the check throws exactly when the friendly list is empty; otherwise the user takes one hit per penetrating enemy; the slot of every penetrating enemy leaves `used`, and no slot is added |
| Scene.UserProjectileCollisions | src/main/java/com/example/demo/level/LevelParent.java:264-266 | every enemy and user projectile takes one hit per intersecting partner; the slot of every enemy killed here leaves `used`, and no slot is added |
| Scene.EnemyProjectileCollisions | src/main/java/com/example/demo/level/LevelParent.java:271-273 | a listed user takes one hit per enemy projectile it meets, and each enemy projectile one hit if it meets the user; with the user unlisted nothing is hit; no slot is added to `used` |
| Scene.PlaneCollisions | src/main/java/com/example/demo/level/LevelParent.java:257-259 | a listed user takes one hit per enemy it meets, and each enemy one hit if it meets the user; the slot of every enemy killed here leaves `used`, and no slot is added; an unlisted user changes nothing |
| Scene.RemoveAllDestroyedActors | src/main/java/com/example/demo/level/LevelParent.java:237-242 | every list is purged, meteors only in LevelThree and LevelFour, and a destroyed user leaves the friendly list |
| Scene.KillTimes | src/main/java/com/example/demo/level/LevelParent.java:286-288 | n increments add max(n, 0) kills and change nothing else |
| Scene.UpdateKillCount | src/main/java/com/example/demo/level/LevelParent.java:285-289 | kills grow by the snapshot minus the current enemy count when positive, else not at all |
| Scene.UpdateLevelView | src/main/java/com/example/demo/level/LevelParent.java:278-280 | the display is trimmed to the user's health by `removeHearts`, and is unchanged when the health is at least the hearts shown; nothing else changes |
| Scene.ViewTracksHealth | src/main/java/com/example/demo/level/LevelParent.java:278-280 | after the update the display shows min(hearts shown, max(health, 0)) hearts |
| Scene.MeteorCollisions | src/main/java/com/example/demo/level/LevelThree.java:52-54 | in LevelThree and LevelFour a listed user takes one hit per meteor it meets, and each meteor one hit if it meets the user; elsewhere, or with the user unlisted, nothing is hit; no slot is added to `used` |
| Scene.DestroyFallen | src/main/java/com/example/demo/level/LevelThree.java:60-65 | exactly the meteors with translateY > 750 are destroyed; the others are untouched |
| Scene.MeteorOutOfBounds | src/main/java/com/example/demo/level/LevelFour.java:67-72 | the fallen meteors are destroyed in the meteor levels; the other levels are unchanged |
| Scene.Tick | src/main/java/com/example/demo/level/LevelParent.java:139-152 | a stopped level is unchanged and quiet; a running frame throws exactly when the user is no longer listed |
| Scene.TickSignals | src/main/java/com/example/demo/level/LevelThree.java:91-101 | a frame keeps the stage and never unfinishes; it advances only an unfinished level, to its successor, and finishes it; only LevelFour wins; a loss means a destroyed user; only a win or loss stops the timeline |
| Scene.ResolveKills | src/main/java/com/example/demo/level/LevelParent.java:143-148 | from penetration to the kill update, kills grow by exactly the shrinkage of the enemy list since the snapshot |
| Scene.TickKills | src/main/java/com/example/demo/level/LevelParent.java:285-289 | a frame adds exactly max(0, enemies after spawning - enemies after the purge) kills, counting penetrations |
| Scene.TickPurges | src/main/java/com/example/demo/level/LevelParent.java:237-252 | after a frame no enemy or projectile list holds a destroyed actor |
| Invariants.NewLevelInv | src/main/java/com/example/demo/level/LevelParent.java:52-71 | every fresh level satisfies the between-frames invariant |
| Invariants.UsedLanesAreHeld | src/main/java/com/example/demo/level/LevelOne.java:76-90 | between frames a lane is recorded as used exactly when a listed enemy's callback frees it |
| Invariants.SpawnKeeps | src/main/java/com/example/demo/level/LevelOne.java:73-79 | spawning keeps callbacks on enemies only, lanes distinct and recorded, and the caps |
| Invariants.ActKeeps | src/main/java/com/example/demo/level/LevelParent.java:227-232 | acting keeps the frame's facts |
| Invariants.PenetrationKeeps | src/main/java/com/example/demo/CollisionHandler.java:15-22 | the penetration check keeps the frame's facts: the lanes of the enemies it destroys are back in the pool, so every used lane still has a live holder |
| Invariants.UserShotsKeep | src/main/java/com/example/demo/level/LevelParent.java:264-266 | the user-projectile pass keeps the frame's facts |
| Invariants.EnemyShotsKeep | src/main/java/com/example/demo/level/LevelParent.java:271-273 | the enemy-projectile pass keeps the frame's facts |
| Invariants.PlanesKeep | src/main/java/com/example/demo/level/LevelParent.java:257-259 | the plane-collision pass keeps the frame's facts |
| Invariants.PurgeSingle | src/main/java/com/example/demo/level/LevelParent.java:247-252 | a one-actor list keeps its actor exactly when it is live |
| Invariants.PurgeKeeps | src/main/java/com/example/demo/level/LevelParent.java:237-242 | the purge keeps the frame's facts, leaves only live enemies and LevelTwo listing at most its Boss |
| Invariants.ResolveKeeps | src/main/java/com/example/demo/level/LevelParent.java:144-149 | collisions, purge, kills and hearts keep the facts; the user stays listed iff it was listed and survived |
| Invariants.AftermathKeeps | src/main/java/com/example/demo/level/LevelThree.java:42-46 | `misc`, the meteor collisions and the out-of-bounds pass keep the invariant's facts |
| Invariants.PrepareKeeps | src/main/java/com/example/demo/level/LevelParent.java:140-143 | spawning and acting on a running level keep the user listed, so the penetration check does not throw |
| Invariants.ConcludeKeeps | src/main/java/com/example/demo/level/LevelOne.java:44-47 | a destroyed user stops the timeline, so a running level afterwards still lists its user |
| Invariants.TickKeeps | src/main/java/com/example/demo/level/LevelParent.java:139-152 | every frame of a level satisfying the invariant completes without throwing and keeps the invariant |
| Game.React | src/main/java/com/example/demo/InputManager.java:45-58 | steering changes only the user's multiplier, firing appends one missile, other keys change nothing |
| Game.KeyPressed | src/main/java/com/example/demo/InputManager.java:41-52 | a key press updates the pressed set and runs the press reaction |
| Game.KeyReleased | src/main/java/com/example/demo/InputManager.java:54-58 | a key release updates the pressed set and runs the release reaction |
| Game.ReactKeeps | src/main/java/com/example/demo/level/LevelParent.java:208-212 | a key reaction keeps stage, flags and kills, adds a user missile iff it fires, and keeps the invariant |
| Game.Step | src/main/java/com/example/demo/level/LevelParent.java:158-162 | a timeline frame is one tick; a key event is the manager's reaction and is quiet |
| Game.StepSignals | src/main/java/com/example/demo/level/LevelParent.java:294-305 | one event keeps the stage; it advances only an unfinished level; only winning or losing stops the timeline, and a stopped level stays quiet |
| Game.RunAdvances | src/main/java/com/example/demo/level/LevelOne.java:48-51 | over any run of frames and key events, a level advances at most once, only while unfinished and naming its successor; only LevelFour wins |
| Game.RunEndings | src/main/java/com/example/demo/level/LevelParent.java:294-305 | over any run of frames and key events, after a win or loss the timeline is stopped and every later signal is quiet |
| Game.RunKeeps | src/main/java/com/example/demo/level/LevelParent.java:143 | a run of frames and key events from a level satisfying the invariant never throws and keeps the invariant |
| Game.RunKills | src/main/java/com/example/demo/activeactor/PlayerJet.java:146-155 | over any run of frames and key events the user's kills never decrease |
| Game.FreshLevelNeverThrows | src/main/java/com/example/demo/level/LevelParent.java:70 | no run of frames and key events from a freshly built level throws at `friendlyUnits.get(0)` |
| Game.ResumeAfterLossThrows | src/main/java/com/example/demo/level/LevelParent.java:139-143 | after a frame that loses, resuming the timeline makes the next frame throw at `friendlyUnits.get(0)` |

## Left out

- Rendering is not modelled: the JavaFX scene graph, images, the label's layout, focus, and the win, game-over and shield images. Only list membership matters to the simulation.
- The `Timeline` is a `stopped` flag plus explicit frames. Pause only suspends frames and is not modelled. Resume (`timeline.play()`) is `Levels.ResumeGame`, but it is not an event of `Game` runs, so the run-level facts cover runs of frames and key events only. Resume restarts even a timeline that `loseGame` or `winGame` stopped. After a loss the user has been purged, so the next frame throws at `friendlyUnits.get(0)`, as `Game.ResumeAfterLossThrows` shows. After a LevelFour win, every resumed frame in which the user survives calls `winGame` again; this is not proved here.
- A frame that throws is `Crashed` and keeps no level. In the code, spawning and `updateActors` have already changed the level when `friendlyUnits.get(0)` throws, and those partial effects are not kept. Only a resume after a loss reaches this.
- The `Controller`, `Main`, the menus and the level loading by reflection are not part of this model. A level keeps accepting frames after it signals `Advance`, as it does in the code, where nothing stops the old level's timeline.
- `SoundManager.playSound` in `FighterJet.takeDamage` is an audio side effect and is dropped.
- `getBoundsInParent().intersects` depends on the images' sizes. It is the oracle `Intersects` over an actor's image and position, and damage never changes an actor's frame.
- Probabilities are not modelled. Every `Math.random()` is an input, and so is the permutation `Collections.shuffle` produces; an input that is not a permutation leaves the pattern as it was.
- Floating-point positions are integers. Lane k's height is `k * enemyMaxY / 4` in whole numbers, which is exact for the 750-pixel screen. The overflow height and the meteor's x are integer inputs, and the meteor's x is reduced mod 1200.
- Integer overflow of the kill count and of health is not modelled, because no reachable game comes near 2^31.
- The `Observable` notification is the `Advance` signal returned from a frame.
- Keyboard event registration on a `Node` is not modelled. The two handlers are `Game.KeyPressed` and `Game.KeyReleased`.
- `src/main/java/com/example/demo/LevelOne.java` is a stale copy in the old package and is not part of this model.
- Scene.UpdateNumberOfEnemies: its contract is the assignment itself. What the snapshot means is stated by `Scene.TickKills`.
- Game.Run: its own contract only bounds the number of signals. What runs do is stated by `Game.RunAdvances`, `Game.RunEndings`, `Game.RunKeeps` and `Game.RunKills`.
