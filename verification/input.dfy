/**
 `InputManager`: the set of keys held down, and what the key handlers installed by
 `initializeInputs` make the user's jet do. Only the four arrows and SPACE have reactions; every
 other key code is `Other`.
 */
module Input {
  import opened Wrappers
  import opened Actors
  import opened Motion

  datatype Key = Up | Down | Left | Right | Space | Other(code: int)

  datatype InputManager = InputManager(pressed: set<Key>)

  /** The private constructor: nothing pressed. */
  const Fresh: InputManager := InputManager({})

  /** `isKeyPressed`: whether `k` is in the held set. */
  function IsKeyPressed(m: InputManager, k: Key): (b: bool)
    ensures b <==> k in m.pressed
  {
    k in m.pressed
  }

  /** A key event the manager's handlers see: a press or a release of one key. */
  datatype KeyEvent = Pressed(key: Key) | Released(key: Key)

  /** The manager after handling the events in order. */
  function HandleAll(m: InputManager, evs: seq<KeyEvent>): InputManager
    decreases |evs|
  {
    if evs == [] then m
    else
      var front := HandleAll(m, evs[..|evs| - 1]);
      var e := evs[|evs| - 1];
      if e.Pressed? then HandleKeyPressed(front, e.key) else HandleKeyReleased(front, e.key)
  }

  /** The position of the last event of the stream that concerns `k`, or -1 when none does. */
  function LastEventFor(evs: seq<KeyEvent>, k: Key): (r: int)
    ensures -1 <= r < |evs|
    ensures r >= 0 ==> evs[r].key == k
    ensures forall j :: r < j < |evs| ==> evs[j].key != k
    decreases |evs|
  {
    if evs == [] then -1
    else if evs[|evs| - 1].key == k then |evs| - 1
    else LastEventFor(evs[..|evs| - 1], k)
  }

  /**
   `isKeyPressed` after a stream of events: a key is held exactly when its last event was a
   press, or, when no event concerns it, when it was held before.
   */
  lemma {:induction false} HeldIffLastPressed(m: InputManager, evs: seq<KeyEvent>, k: Key)
    ensures var last := LastEventFor(evs, k);
            IsKeyPressed(HandleAll(m, evs), k) <==> if last >= 0 then evs[last].Pressed? else IsKeyPressed(m, k)
    decreases |evs|
  {
    if evs != [] {
      HeldIffLastPressed(m, evs[..|evs| - 1], k);
    }
  }

  /** `handleKeyPressed`: `k` is now pressed and every other key is as it was. */
  function HandleKeyPressed(m: InputManager, k: Key): (r: InputManager)
    ensures IsKeyPressed(r, k)
    ensures forall j :: j != k ==> (IsKeyPressed(r, j) <==> IsKeyPressed(m, j))
  {
    InputManager(m.pressed + {k})
  }

  /** `handleKeyReleased`: `k` is no longer pressed and every other key is as it was. */
  function HandleKeyReleased(m: InputManager, k: Key): (r: InputManager)
    ensures !IsKeyPressed(r, k)
    ensures forall j :: j != k ==> (IsKeyPressed(r, j) <==> IsKeyPressed(m, j))
  {
    InputManager(m.pressed - {k})
  }

  /** `clearAllKeys`. */
  function ClearAllKeys(m: InputManager): (r: InputManager)
    ensures forall j :: !IsKeyPressed(r, j)
  {
    Fresh
  }

  /** Pressing a key that was up and releasing it again leaves the set as it was. */
  lemma PressThenReleaseRestores(m: InputManager, k: Key)
    requires !IsKeyPressed(m, k)
    ensures HandleKeyReleased(HandleKeyPressed(m, k), k) == m
  {
    assert HandleKeyReleased(HandleKeyPressed(m, k), k).pressed == m.pressed;
  }

  /** Pressing a key twice is pressing it once: the set has no multiplicity. */
  lemma PressIdempotent(m: InputManager, k: Key)
    ensures HandleKeyPressed(HandleKeyPressed(m, k), k) == HandleKeyPressed(m, k)
  {
    assert HandleKeyPressed(HandleKeyPressed(m, k), k).pressed == HandleKeyPressed(m, k).pressed;
  }

  /** What a handler asks of the level: steer the jet, run the fire action, or nothing. */
  datatype Reaction = Steering(command: Command) | FireAction | NoReaction

  /** The KEY_PRESSED handler: each arrow steers its way, SPACE fires, anything else is ignored. */
  function PressReaction(k: Key): (r: Reaction)
    ensures k == Up ==> r == Steering(MoveUp)
    ensures k == Down ==> r == Steering(MoveDown)
    ensures k == Left ==> r == Steering(MoveLeft)
    ensures k == Right ==> r == Steering(MoveRight)
    ensures r.FireAction? <==> k == Space
    ensures r.NoReaction? <==> k.Other?
    ensures r.Steering? ==> (IsVertical(r.command) <==> k == Up || k == Down)
    ensures r.Steering? ==> CommandMultiplier(r.command) != 0
  {
    match k
    case Up => Steering(MoveUp)
    case Down => Steering(MoveDown)
    case Left => Steering(MoveLeft)
    case Right => Steering(MoveRight)
    case Space => FireAction
    case Other(_) => NoReaction
  }

  /** The KEY_RELEASED handler: releasing an arrow stops the jet on that arrow's axis. */
  function ReleaseReaction(k: Key): (r: Reaction)
    ensures !r.FireAction?
    ensures r.Steering? <==> !k.Space? && !k.Other?
    ensures r.Steering? ==> CommandMultiplier(r.command) == 0
    ensures r.Steering? ==> (IsVertical(r.command) <==> k == Up || k == Down)
  {
    match k
    case Up => Steering(StopVertical)
    case Down => Steering(StopVertical)
    case Left => Steering(StopHorizontal)
    case Right => Steering(StopHorizontal)
    case _ => NoReaction
  }

  /**
   Pressing an arrow sends the jet towards that arrow on the screen: y grows downwards, so UP sets
   the vertical multiplier to -1 and DOWN to 1; LEFT sets the horizontal one to -1 and RIGHT to 1.
   */
  lemma PressSteersTowards(u: Player, k: Key)
    requires PressReaction(k).Steering?
    ensures var p := Steer(u, PressReaction(k).command).body.pilot;
            && (k == Up ==> p.verticalMultiplier == -1)
            && (k == Down ==> p.verticalMultiplier == 1)
            && (k == Left ==> p.horizontalMultiplier == -1)
            && (k == Right ==> p.horizontalMultiplier == 1)
  {
  }

  /**
   Releasing the arrow just pressed stops the jet on that axis and leaves the other axis as it was
   before the press.
   */
  lemma PressThenReleaseStops(u: Player, k: Key)
    requires PressReaction(k).Steering?
    ensures var pressed := Steer(u, PressReaction(k).command);
            var released := Steer(pressed, ReleaseReaction(k).command);
            && (k == Up || k == Down ==>
                  released.body.pilot.verticalMultiplier == 0
                  && released.body.pilot.horizontalMultiplier == u.body.pilot.horizontalMultiplier)
            && (k == Left || k == Right ==>
                  released.body.pilot.horizontalMultiplier == 0
                  && released.body.pilot.verticalMultiplier == u.body.pilot.verticalMultiplier)
  {
  }

  /** The class's `instance` field: empty until the first `getInstance`. */
  datatype Registry = Registry(instance: Option<InputManager>)

  /** `getInstance`: creates the manager on the first call and returns the stored one afterwards. */
  function GetInstance(reg: Registry): (r: (InputManager, Registry))
    ensures r.1.instance == Some(r.0)
    ensures reg.instance.Some? ==> r.0 == reg.instance.value && r.1 == reg
    ensures reg.instance.None? ==> r.0 == Fresh
  {
    match reg.instance
    case Some(m) => (m, reg)
    case None => (Fresh, Registry(Some(Fresh)))
  }

  /** Two calls of `getInstance` in a row hand out the same manager. */
  lemma SameInstance(reg: Registry)
    ensures var (first, reg1) := GetInstance(reg);
            GetInstance(reg1).0 == first && GetInstance(reg1).1 == reg1
  {
  }
}
