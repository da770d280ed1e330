/**
 A level as the player experiences it: a sequence of events, each a timeline frame or a key going
 down or up. The key handlers `initializeInputs` installs are not tied to the timeline, so they act
 on a stopped level too; frames of a stopped timeline do nothing. The pause menu's resume is not
 an event of these runs: it restarts even a timeline that a loss stopped, and `ResumeAfterLossThrows`
 shows where that leads.
 */
module Game {
  import opened Wrappers
  import opened Actors
  import opened Motion
  import opened Input
  import opened Lanes
  import opened Levels
  import opened Scene
  import opened Invariants

  datatype Event = NextFrame(luck: Luck) | KeyDown(key: Key) | KeyUp(key: Key)

  /** The level and the shared `InputManager`'s pressed keys. */
  datatype Session = Session(level: Level, input: InputManager)

  /** What a handler's reaction does to the level: steer the user's jet, fire, or nothing. */
  function React(l: Level, re: Reaction): (r: Level)
    ensures re.Steering? ==> r == l.(user := Steer(l.user, re.command))
    ensures re.FireAction? ==> r == FireProjectile(l)
    ensures re.NoReaction? ==> r == l
  {
    match re
    case Steering(c) => l.(user := Steer(l.user, c))
    case FireAction => FireProjectile(l)
    case NoReaction => l
  }

  /** A key press: `handleKeyPressed` records the key, then the level's KEY_PRESSED handler reacts. */
  function KeyPressed(s: Session, k: Key): (r: Session)
    ensures r.input == HandleKeyPressed(s.input, k)
    ensures r.level == React(s.level, PressReaction(k))
  {
    Session(React(s.level, PressReaction(k)), HandleKeyPressed(s.input, k))
  }

  /** A key release: `handleKeyReleased` forgets the key, then the KEY_RELEASED handler reacts. */
  function KeyReleased(s: Session, k: Key): (r: Session)
    ensures r.input == HandleKeyReleased(s.input, k)
    ensures r.level == React(s.level, ReleaseReaction(k))
  {
    Session(React(s.level, ReleaseReaction(k)), HandleKeyReleased(s.input, k))
  }

  /**
   Key handlers touch only the user's multipliers and the user's projectile list: the rules, the
   timeline, the kill count, health and every other list are as they were, and the invariant holds.
   */
  lemma ReactKeeps(l: Level, re: Reaction)
    ensures var r := React(l, re);
            && r.rules == l.rules && r.stopped == l.stopped && r.userListed == l.userListed
            && r.enemies == l.enemies && r.enemyShots == l.enemyShots && r.meteors == l.meteors && r.used == l.used
            && Kills(r.user) == Kills(l.user) && r.user.body.health == l.user.body.health
            && r.user.destroyed == l.user.destroyed
            && (re.FireAction? <==> |r.userShots| == |l.userShots| + 1)
            && (!re.FireAction? ==> r.userShots == l.userShots)
    ensures Inv(l) ==> Inv(React(l, re))
  {
    var r := React(l, re);
    if re.FireAction? {
      assert r.userShots == l.userShots + [PlayerFire(l.user)];
      assert forall k :: 0 <= k < |r.userShots| ==>
               r.userShots[k] == if k < |l.userShots| then l.userShots[k] else PlayerFire(l.user);
    }
  }

  /** One event's effect: the new session and the signal, or `Threw` when the frame's `get(0)` throws. */
  datatype Moved = Threw | Moved(session: Session, signal: Signal)

  function Step(s: Session, e: Event): (r: Moved)
    ensures e.NextFrame? ==>
              (r.Threw? <==> Tick(s.level, e.luck).Crashed?)
              && (r.Moved? ==> r.session == Session(Tick(s.level, e.luck).level, s.input) && r.signal == Tick(s.level, e.luck).signal)
    ensures e.KeyDown? ==> r == Moved(KeyPressed(s, e.key), Quiet)
    ensures e.KeyUp? ==> r == Moved(KeyReleased(s, e.key), Quiet)
  {
    match e
    case NextFrame(luck) =>
      (match Tick(s.level, luck)
       case Crashed => Threw
       case Ticked(l, signal) => Moved(Session(l, s.input), signal))
    case KeyDown(k) => Moved(KeyPressed(s, k), Quiet)
    case KeyUp(k) => Moved(KeyReleased(s, k), Quiet)
  }

  /** The session after a run of events, the signals given along the way, and whether a frame threw. */
  datatype Trace = Trace(session: Session, signals: seq<Signal>, crashed: bool)

  /** Runs the events in order; after a throw nothing more happens. */
  function Run(s: Session, es: seq<Event>): (t: Trace)
    ensures |t.signals| <= |es|
    decreases |es|
  {
    if es == [] then Trace(s, [], false)
    else
      var t := Run(s, es[..|es| - 1]);
      if t.crashed then t
      else
        match Step(t.session, es[|es| - 1])
        case Threw => Trace(t.session, t.signals, true)
        case Moved(next, signal) => Trace(next, t.signals + [signal], false)
  }

  predicate Ends(g: Signal)
  {
    g == Won || g == Lost
  }

  /** What one event can do to the signal bookkeeping: `TickSignals` for frames, nothing for keys. */
  lemma StepSignals(s: Session, e: Event)
    ensures var r := Step(s, e);
            r.Moved? ==>
              && StageOf(r.session.level.rules) == StageOf(s.level.rules)
              && (Finished(s.level.rules) ==> Finished(r.session.level.rules))
              && (r.signal.Advance? ==>
                    !Finished(s.level.rules) && Finished(r.session.level.rules)
                    && Some(r.signal.next) == NextLevel(StageOf(s.level.rules)))
              && (r.signal == Won ==> s.level.rules.LevelFour?)
              && (r.session.level.stopped <==> s.level.stopped || Ends(r.signal))
              && (s.level.stopped ==> r.signal == Quiet)
  {
    match e
    case NextFrame(luck) => TickSignals(s.level, luck);
    case KeyDown(k) => ReactKeeps(s.level, PressReaction(k));
    case KeyUp(k) => ReactKeeps(s.level, ReleaseReaction(k));
  }

  /**
   A trace that advanced at most once: the stage is the starting one, finishing is never undone,
   every Advance names the next level and left the level finished, having found it unfinished, no
   Advance follows another, and only LevelFour wins.
   */
  ghost predicate AdvancesSettled(t: Trace, start: Rules)
  {
    && StageOf(t.session.level.rules) == StageOf(start)
    && (Finished(start) ==> Finished(t.session.level.rules))
    && (forall i :: 0 <= i < |t.signals| && t.signals[i].Advance? ==>
          Finished(t.session.level.rules) && !Finished(start) && Some(t.signals[i].next) == NextLevel(StageOf(start)))
    && (forall i, j :: 0 <= i < j < |t.signals| && t.signals[i].Advance? ==> !t.signals[j].Advance?)
    && (forall i :: 0 <= i < |t.signals| && t.signals[i] == Won ==> start.LevelFour?)
  }

  /** One more event keeps `AdvancesSettled` when it keeps the stage and finishing and advances only an unfinished level. */
  lemma AdvancesStep(front: Trace, m: Moved, t: Trace, start: Rules)
    requires AdvancesSettled(front, start) && m.Moved?
    requires t == Trace(m.session, front.signals + [m.signal], false)
    requires StageOf(m.session.level.rules) == StageOf(front.session.level.rules)
    requires Finished(front.session.level.rules) ==> Finished(m.session.level.rules)
    requires m.signal.Advance? ==>
               !Finished(front.session.level.rules) && Finished(m.session.level.rules)
               && Some(m.signal.next) == NextLevel(StageOf(front.session.level.rules))
    requires m.signal == Won ==> front.session.level.rules.LevelFour?
    ensures AdvancesSettled(t, start)
  {
    assert forall i :: 0 <= i < |front.signals| ==> t.signals[i] == front.signals[i];
  }

  /**
   How a run advances. The level never changes stage; a level advances at most once and never
   after it was finished, naming the next level; only LevelFour wins.
   */
  lemma {:induction false} RunAdvances(s: Session, es: seq<Event>)
    ensures AdvancesSettled(Run(s, es), s.level.rules)
    decreases |es|
  {
    if es != [] {
      var front := Run(s, es[..|es| - 1]);
      RunAdvances(s, es[..|es| - 1]);
      if !front.crashed {
        var m := Step(front.session, es[|es| - 1]);
        StepSignals(front.session, es[|es| - 1]);
        if m.Moved? {
          AdvancesStep(front, m, Run(s, es), s.level.rules);
        }
      }
    }
  }

  /**
   A trace whose endings are final: every Won or Lost left the timeline stopped and was followed
   only by quiet signals, and a run that started stopped stayed stopped and quiet.
   */
  ghost predicate EndsSettled(t: Trace, startStopped: bool)
  {
    && (startStopped ==> t.session.level.stopped)
    && (forall i :: 0 <= i < |t.signals| && Ends(t.signals[i]) ==> t.session.level.stopped)
    && (forall i, j :: 0 <= i < j < |t.signals| && Ends(t.signals[i]) ==> t.signals[j] == Quiet)
    && (startStopped ==> forall i :: 0 <= i < |t.signals| ==> t.signals[i] == Quiet)
  }

  /** One more event keeps `EndsSettled` when it stops the timeline exactly on an ending and is quiet once stopped. */
  lemma EndsStep(front: Trace, m: Moved, t: Trace, startStopped: bool)
    requires EndsSettled(front, startStopped) && m.Moved?
    requires t == Trace(m.session, front.signals + [m.signal], false)
    requires m.session.level.stopped <==> front.session.level.stopped || Ends(m.signal)
    requires front.session.level.stopped ==> m.signal == Quiet
    ensures EndsSettled(t, startStopped)
  {
    assert forall i :: 0 <= i < |front.signals| ==> t.signals[i] == front.signals[i];
  }

  /**
   How a run ends. Once the game is won or lost the timeline is stopped and every later signal is
   quiet, so it ends at most once; a level that was already stopped signals nothing.
   */
  lemma {:induction false} RunEndings(s: Session, es: seq<Event>)
    ensures EndsSettled(Run(s, es), s.level.stopped)
    decreases |es|
  {
    if es != [] {
      var front := Run(s, es[..|es| - 1]);
      RunEndings(s, es[..|es| - 1]);
      if !front.crashed {
        var m := Step(front.session, es[|es| - 1]);
        StepSignals(front.session, es[|es| - 1]);
        if m.Moved? {
          EndsStep(front, m, Run(s, es), s.level.stopped);
        }
      }
    }
  }

  /** A run from a level satisfying the invariant never throws, and keeps the invariant. */
  lemma {:induction false} RunKeeps(s: Session, es: seq<Event>)
    requires Inv(s.level)
    ensures !Run(s, es).crashed && Inv(Run(s, es).session.level)
    decreases |es|
  {
    if es != [] {
      var front := Run(s, es[..|es| - 1]);
      RunKeeps(s, es[..|es| - 1]);
      match es[|es| - 1]
      case NextFrame(luck) => TickKeeps(front.session.level, luck);
      case KeyDown(k) => ReactKeeps(front.session.level, PressReaction(k));
      case KeyUp(k) => ReactKeeps(front.session.level, ReleaseReaction(k));
    }
  }

  /** The kill count never goes down: frames only add kills and key handlers leave them alone. */
  lemma {:induction false} RunKills(s: Session, es: seq<Event>)
    ensures Kills(Run(s, es).session.level.user) >= Kills(s.level.user)
    decreases |es|
  {
    if es != [] {
      var front := Run(s, es[..|es| - 1]);
      RunKills(s, es[..|es| - 1]);
      if !front.crashed {
        match es[|es| - 1]
        case NextFrame(luck) =>
          if !front.session.level.stopped {
            TickKills(front.session.level, luck);
          }
        case KeyDown(k) => ReactKeeps(front.session.level, PressReaction(k));
        case KeyUp(k) => ReactKeeps(front.session.level, ReleaseReaction(k));
      }
    }
  }

  /** A fresh level of any stage, run through any frames and key events, never throws. */
  lemma FreshLevelNeverThrows(stage: Stage, screenHeight: int, screenWidth: int, bossOrder: seq<int>,
                              input: InputManager, es: seq<Event>)
    ensures !Run(Session(NewLevel(stage, screenHeight, screenWidth, bossOrder), input), es).crashed
  {
    NewLevelInv(stage, screenHeight, screenWidth, bossOrder);
    RunKeeps(Session(NewLevel(stage, screenHeight, screenWidth, bossOrder), input), es);
  }

  /**
   `resumeGame` after a loss: the frame that lost also purged the destroyed user, so the first
   frame of the resumed timeline throws at `friendlyUnits.get(0)`.
   */
  lemma ResumeAfterLossThrows(l: Level, luck: Luck, next: Luck)
    requires Inv(l)
    requires Tick(l, luck).Ticked? && Tick(l, luck).signal == Lost
    ensures Tick(ResumeGame(Tick(l, luck).level), next).Crashed?
  {
    PrepareKeeps(l, luck);
    var breached := PenetrationPhase(Prepare(l, luck)).value;
    ResolveKeeps(breached, luck.meets);
  }
}
