/**
 A level between frames: the four `LevelParent` lists, the spawn slots in use, the heart display,
 whether the timeline is stopped, and what each of `LevelOne` … `LevelFour` adds (a finished flag,
 LevelTwo's Boss and shield indicator). Also the per-level hooks that read that state:
 `checkIfGameOver` and `misc`.
 */
module Levels {
  import opened Wrappers
  import opened Slots
  import opened Actors
  import opened Motion
  import opened Hearts

  /** `PLAYER_INITIAL_HEALTH` of every level. */
  const PlayerInitialHealth: int := 5
  /** `KILLS_TO_ADVANCE` of levels One, Three and Four. */
  const KillsToAdvance: int := 10
  /** `SCREEN_HEIGHT_ADJUSTMENT`: enemies spawn no lower than this far above the bottom edge. */
  const ScreenHeightAdjustment: int := 150

  datatype Stage = One | Two | Three | Four

  /**
   What each level class adds to `LevelParent`. LevelTwo holds the one Boss it ever creates and
   whether `misc` last showed the shield image; LevelFour has no finished flag.
   */
  datatype Rules =
    | LevelOne(oneFinished: bool)
    | LevelTwo(boss: Actor, twoFinished: bool, shieldShown: bool)
    | LevelThree(threeFinished: bool)
    | LevelFour

  function StageOf(r: Rules): Stage
  {
    match r
    case LevelOne(_) => One
    case LevelTwo(_, _, _) => Two
    case LevelThree(_) => Three
    case LevelFour => Four
  }

  /** `isLevelFinished`; LevelFour has none and counts as never finished. */
  predicate Finished(r: Rules)
  {
    match r
    case LevelOne(f) => f
    case LevelTwo(_, f, _) => f
    case LevelThree(f) => f
    case LevelFour => false
  }

  /** Levels Three and Four keep a meteor list. */
  predicate HasMeteors(r: Rules)
  {
    r.LevelThree? || r.LevelFour?
  }

  /**
   The level's state. `userListed` says whether `friendlyUnits` is `[user]` or has become empty
   because the purge removed the destroyed user; the `user` field itself is kept either way, as
   Java keeps it. `snapshot` is `currentNumberOfEnemies`. `stopped` is the timeline's state after
   `winGame` or `loseGame`.
   */
  datatype Level = Level(
    rules: Rules,
    user: Player,
    userListed: bool,
    enemies: seq<Actor>,
    userShots: seq<Actor>,
    enemyShots: seq<Actor>,
    meteors: seq<Actor>,
    used: set<Slot>,
    snapshot: int,
    view: HeartDisplay,
    stopped: bool,
    screenWidth: int,
    enemyMaxY: int)

  /** `friendlyUnits`: the user while listed, nothing after the purge removed it. */
  function Friendly(l: Level): (r: seq<Actor>)
    ensures |r| <= 1
    ensures l.userListed <==> r == [l.user]
    ensures !l.userListed <==> r == []
  {
    if l.userListed then [l.user] else []
  }

  function Kills(u: Player): int
  {
    u.body.pilot.kills
  }

  function NewRules(stage: Stage, bossOrder: seq<int>): (r: Rules)
    ensures StageOf(r) == stage && !Finished(r)
    ensures r.LevelTwo? ==> !r.shieldShown && !r.boss.destroyed && r.boss.onDestroyed == NoCallback
  {
    match stage
    case One => LevelOne(false)
    case Two => BossRules(bossOrder)
    case Three => LevelThree(false)
    case Four => LevelFour
  }

  /** LevelTwo's constructor builds its Boss; nothing is finished or shown yet. */
  function BossRules(bossOrder: seq<int>): (r: Rules)
    ensures r.LevelTwo? && !r.twoFinished && !r.shieldShown
    ensures !r.boss.destroyed && r.boss.onDestroyed == NoCallback
  {
    var boss := NewBoss(bossOrder);
    LevelTwo(boss, false, false)
  }

  /**
   A level as its constructor, `initializeScene` and `startGame` leave it: the user (health 5) is
   the only friendly unit, every other list is empty, no slot is used, five hearts are shown and
   the timeline runs. `bossOrder` is the shuffle LevelTwo's Boss draws when it is built.
   */
  function NewLevel(stage: Stage, screenHeight: int, screenWidth: int, bossOrder: seq<int>): (l: Level)
    ensures StageOf(l.rules) == stage && !Finished(l.rules)
    ensures l.user == NewPlayerJet(PlayerInitialHealth) && Friendly(l) == [l.user]
    ensures l.enemies == [] && l.userShots == [] && l.enemyShots == [] && l.meteors == []
    ensures l.used == {} && l.snapshot == 0 && !l.stopped
    ensures |l.view.hearts| == PlayerInitialHealth == l.user.body.health
    ensures l.enemyMaxY == screenHeight - ScreenHeightAdjustment && l.screenWidth == screenWidth
  {
    Level(NewRules(stage, bossOrder), NewPlayerJet(PlayerInitialHealth), true, [], [], [], [], {}, 0,
          NewHeartDisplay(PlayerInitialHealth), false, screenWidth, screenHeight - ScreenHeightAdjustment)
  }

  /** `getClass().getSimpleName()`. */
  function ClassName(stage: Stage): string
  {
    match stage
    case One => "LevelOne"
    case Two => "LevelTwo"
    case Three => "LevelThree"
    case Four => "LevelFour"
  }

  /** `NEXT_LEVEL`: the class the level asks the observer to load; LevelFour has none. */
  function NextLevel(stage: Stage): (r: Option<string>)
    ensures r.None? <==> stage == Four
  {
    match stage
    case One => Some("com.example.demo.level.LevelTwo")
    case Two => Some("com.example.demo.level.LevelThree")
    case Three => Some("com.example.demo.level.LevelFour")
    case Four => None
  }

  /**
   The label text: the first five characters, a space, then the rest. `substring(0, 5)` throws on
   a name shorter than five characters; that case is `None`.
   */
  function LevelLabel(name: string): (r: Option<string>)
    ensures r.None? <==> |name| < 5
    ensures r.Some? ==> |r.value| == |name| + 1 && r.value[5] == ' '
    ensures r.Some? ==> r.value[..5] + r.value[6..] == name
  {
    if |name| < 5 then None
    else
      var text := name[..5] + " " + name[5..];
      assert text[..5] == name[..5] && text[6..] == name[5..];
      Some(text)
  }

  /** A name of five characters or more followed by a rest is labelled as the two with a space between. */
  lemma LabelSplits(head: string, rest: string)
    requires |head| == 5
    ensures LevelLabel(head + rest) == Some(head + " " + rest)
  {
    var name := head + rest;
    assert name[..5] == head && name[5..] == rest;
  }

  /** Every level's label is "Level " followed by its number word. */
  lemma StageLabels()
    ensures LevelLabel(ClassName(One)) == Some("Level One")
    ensures LevelLabel(ClassName(Two)) == Some("Level Two")
    ensures LevelLabel(ClassName(Three)) == Some("Level Three")
    ensures LevelLabel(ClassName(Four)) == Some("Level Four")
  {
    LabelSplits("Level", "One");
    assert "Level" + "One" == ClassName(One) && "Level" + " " + "One" == "Level One";
    LabelSplits("Level", "Two");
    assert "Level" + "Two" == ClassName(Two) && "Level" + " " + "Two" == "Level Two";
    LabelSplits("Level", "Three");
    assert "Level" + "Three" == ClassName(Three) && "Level" + " " + "Three" == "Level Three";
    LabelSplits("Level", "Four");
    assert "Level" + "Four" == ClassName(Four) && "Level" + " " + "Four" == "Level Four";
  }

  /** What `checkIfGameOver` tells the outside world. */
  datatype Signal =
    | Quiet
    | Advance(next: string)  // goToNextLevel: the observer is notified with the class name
    | Won                    // winGame
    | Lost                   // loseGame

  /** The level after a hook, and the signal the hook gave. */
  datatype Checked = Checked(level: Level, signal: Signal)

  /** The goal each level checks after a frame: ten kills, or (LevelTwo) the Boss destroyed. */
  predicate TargetReached(l: Level)
  {
    if l.rules.LevelTwo? then l.rules.boss.destroyed else Kills(l.user) >= KillsToAdvance
  }

  function Finish(r: Rules): (f: Rules)
    ensures StageOf(f) == StageOf(r)
  {
    match r
    case LevelOne(_) => LevelOne(true)
    case LevelTwo(boss, _, shown) => LevelTwo(boss, true, shown)
    case LevelThree(_) => LevelThree(true)
    case LevelFour => LevelFour
  }

  /**
   `resumeGame`: `timeline.play()`. Nothing asks why the timeline stopped, so a level that
   `loseGame` or `winGame` stopped runs again; only the timeline's state changes.
   */
  function ResumeGame(l: Level): (r: Level)
    ensures !r.stopped
    ensures r == l.(stopped := r.stopped)
  {
    l.(stopped := false)
  }

  /**
   `checkIfGameOver` of each level. A destroyed user loses, whatever else holds. Otherwise
   levels One to Three advance once the target is reached, and only while not finished, and then
   become finished; LevelFour wins instead and has no flag. Losing and winning stop the timeline;
   advancing does not.
   */
  function CheckIfGameOver(l: Level): (r: Checked)
    ensures r.signal == Lost <==> l.user.destroyed
    ensures r.signal == Won <==> !l.user.destroyed && l.rules.LevelFour? && TargetReached(l)
    ensures r.signal.Advance? <==>
              !l.user.destroyed && !l.rules.LevelFour? && TargetReached(l) && !Finished(l.rules)
    ensures r.signal.Advance? ==> Some(r.signal.next) == NextLevel(StageOf(l.rules)) && Finished(r.level.rules)
    ensures r.level.stopped <==> l.stopped || r.signal == Lost || r.signal == Won
    ensures StageOf(r.level.rules) == StageOf(l.rules)
    ensures Finished(l.rules) ==> Finished(r.level.rules)
    ensures r.level.rules.LevelTwo? ==> r.level.rules.boss == l.rules.boss
    ensures r.level == l.(rules := r.level.rules, stopped := r.level.stopped)
  {
    if l.user.destroyed then Checked(l.(stopped := true), Lost)
    else if !TargetReached(l) then Checked(l, Quiet)
    else if l.rules.LevelFour? then Checked(l.(stopped := true), Won)
    else if Finished(l.rules) then Checked(l, Quiet)
    else Checked(l.(rules := Finish(l.rules)), Advance(NextLevel(StageOf(l.rules)).value))
  }

  /** `misc`: LevelTwo shows the shield image exactly while its Boss is shielded; the others do nothing. */
  function Misc(l: Level): (r: Level)
    ensures r.rules.LevelTwo? <==> l.rules.LevelTwo?
    ensures r.rules.LevelTwo? ==> r.rules.shieldShown == IsShielded(l.rules.boss)
                                  && r.rules.boss == l.rules.boss && r.rules.twoFinished == l.rules.twoFinished
    ensures !r.rules.LevelTwo? ==> r == l
    ensures r == l.(rules := r.rules)
  {
    if l.rules.LevelTwo? then l.(rules := l.rules.(shieldShown := IsShielded(l.rules.boss))) else l
  }

  /** `fireProjectile`: the user's missile is appended to the user's projectiles; nothing else changes. */
  function FireProjectile(l: Level): (r: Level)
    ensures |r.userShots| == |l.userShots| + 1
    ensures r.userShots[..|l.userShots|] == l.userShots && r.userShots[|l.userShots|] == PlayerFire(l.user)
    ensures r == l.(userShots := r.userShots)
  {
    l.(userShots := l.userShots + [PlayerFire(l.user)])
  }

  /** `spawnEnemyProjectile`: nothing for `null`, otherwise the projectile is appended. */
  function SpawnEnemyProjectile(shots: seq<Actor>, p: Option<Actor>): (r: seq<Actor>)
    ensures p.None? ==> r == shots
    ensures p.Some? ==> |r| == |shots| + 1 && r[..|shots|] == shots && r[|shots|] == p.value
  {
    match p
    case None => shots
    case Some(x) => shots + [x]
  }
}
