/** The clock of the cue playback: where it stands within a cue, and what pauses and speed changes do to
    that place. */
module CueTiming {
  import opened CueParser
  import opened CuePlayback
  import opened Interpolation

  /** The time stamps of every cue increase. */
  predicate Increasing(show: Show) {
    forall c <- show.cues :: forall i, j :: 0 <= i < j < |c.timestamps| ==> c.timestamps[i] < c.timestamps[j]
  }

  /** The time at which the cue stands: now, or the time of the pause. */
  function RefTime(p: Player): real {
    if p.runningState == PAUSE then p.pauseTime else p.currentTime
  }

  /** When the current transition began. */
  function Anchor(show: Show, p: Player): real
    requires p.timeScale > 0.0 && InRange(show, p)
  {
    if p.actualValues.frame == 0 then p.startTime else Due(show, p, p.actualValues.frame - 1)
  }

  predicate Anchored(show: Show, p: Player)
    requires p.timeScale > 0.0 && InRange(show, p)
  {
    p.lastValues.timeStamp == Anchor(show, p) <= RefTime(p)
  }

  /** The cue stands at or behind its last keyframe. */
  predicate Over(show: Show, p: Player)
    requires p.timeScale > 0.0 && InRange(show, p)
  {
    AtLastFrame(show, p) && Due(show, p, p.actualValues.frame) <= RefTime(p)
  }

  /** Unless stopped, the filter stands within a transition or at the end of its cue. */
  predicate Timed(show: Show, p: Player)
    requires Valid(show, p)
  {
    p.runningState != STOP ==> RefTime(p) <= p.currentTime && (Anchored(show, p) || Over(show, p))
  }

  // ----- arithmetic of the speed change -----

  lemma DivideOrder(a: real, b: real, d: real)
    requires a <= b && d > 0.0
    ensures a / d <= b / d
  {
  }

  lemma DivideStrict(a: real, b: real, d: real)
    requires a < b && d > 0.0
    ensures a / d < b / d
  {
  }

  lemma DivideDifference(a: real, b: real, d: real)
    requires d > 0.0
    ensures (a - b) / d == a / d - b / d
  {
  }

  lemma MultiplyOrder(a: real, b: real, d: real)
    requires a <= b && d > 0.0
    ensures a * d <= b * d
  {
  }

  /** A speed change keeps the order of times, and now. */
  lemma RescaledOrder(p: Player, x: real, y: real, scale: real)
    requires scale > 0.0 && p.timeScale > 0.0 && x <= y
    ensures Rescaled(p, x, scale) <= Rescaled(p, y, scale)
    ensures Rescaled(p, p.currentTime, scale) == p.currentTime
  {
    MultiplyOrder(p.currentTime - y, p.currentTime - x, p.timeScale);
    DivideOrder((p.currentTime - y) * p.timeScale, (p.currentTime - x) * p.timeScale, scale);
  }

  /** A stamp falls due, at the new speed, where its old due time is moved to. */
  lemma DueRescaled(now: real, start: real, stamp: real, was: real, scale: real)
    requires was > 0.0 && scale > 0.0
    ensures stamp / scale + (now - (now - start) * was / scale) == now - (now - (stamp / was + start)) * was / scale
  {
    var a := (now - start) * was;
    assert (now - (stamp / was + start)) * was == a - stamp by {
      assert stamp / was * was == stamp;
      assert (now - (stamp / was + start)) * was == (now - start) * was - stamp / was * was;
    }
    DivideDifference(a, stamp, scale);
  }

  lemma RescaleMovesDue(show: Show, p: Player, scale: real, frame: nat)
    requires p.timeScale > 0.0 && scale > 0.0 && p.actualValues.cue < |show.cues|
    requires frame < |Stamps(show, p.actualValues.cue)|
    ensures Due(show, Rescale(p, scale), frame) == Rescaled(p, Due(show, p, frame), scale)
  {
    DueRescaled(p.currentTime, p.startTime, Stamps(show, p.actualValues.cue)[frame], p.timeScale, scale);
  }

  lemma RescaleKeepsTimed(show: Show, p: Player, scale: real)
    requires Valid(show, p) && Timed(show, p) && scale > 0.0
    ensures Valid(show, Rescale(p, scale)) && Timed(show, Rescale(p, scale))
  {
    if p.runningState != STOP {
      RescaledOrder(p, RefTime(p), p.currentTime, scale);
      assert RefTime(Rescale(p, scale)) == Rescaled(p, RefTime(p), scale);
      if Over(show, p) {
        RescaleMovesDue(show, p, scale, p.actualValues.frame);
        RescaledOrder(p, Due(show, p, p.actualValues.frame), RefTime(p), scale);
      } else {
        if p.actualValues.frame > 0 {
          RescaleMovesDue(show, p, scale, p.actualValues.frame - 1);
        }
        RescaledOrder(p, Anchor(show, p), RefTime(p), scale);
      }
    }
  }

  // ----- every step keeps the clock consistent -----

  lemma ResetIsAnchored(show: Show, p: Player)
    requires ShowFits(show, p.actualValues.outputs) && p.timeScale > 0.0
    ensures var q := ResetForStartingCue(show, p);
            && InRange(show, q) && q.actualValues.frame == 0 && q.currentTime == p.currentTime
            && q.timeScale == p.timeScale
            && q.lastValues.timeStamp == q.startTime == p.currentTime
  {
    ResetIsInRange(show, p);
  }

  lemma ProceedKeepsTimed(show: Show, p: Player)
    requires Valid(show, p) && p.runningState == PLAY && Timed(show, p)
    ensures var (q, plays) := Proceed(show, p);
            Valid(show, q) && Timed(show, q) && (plays ==> q.runningState == PLAY && Anchored(show, q))
  {
    ProceedKeepsValid(show, p);
    var q := NoteStaleLast(p);
    if FrameIsOver(show, q) {
      var r := FinishFrame(show, q);
      if AtLastFrame(show, r) {
        EndKeepsTimed(show, r);
      }
    }
  }

  lemma EndKeepsTimed(show: Show, p: Player)
    requires Valid(show, p) && p.runningState == PLAY && AtLastFrame(show, p) && FrameIsOver(show, p)
    ensures var (q, plays) := LastFrameHandling(show, p);
            Valid(show, q) && Timed(show, q) && (plays ==> q.runningState == PLAY && Anchored(show, q))
  {
    EndKeepsValid(show, p);
    ResetIsAnchored(show, GoToCue(show, p, p.actualValues.cue));
    ResetIsAnchored(show, GoToCue(show, p, p.actualValues.cue + 1));
    ResetIsAnchored(show, GoToCue(show, p, 0));
  }

  lemma CalcValuesKeepsTimed(show: Show, p: Player)
    requires Valid(show, p) && p.runningState == PLAY && Timed(show, p)
    ensures Valid(show, CalcValues(show, p)) && Timed(show, CalcValues(show, p))
  {
    CalcValuesKeepsValid(show, p);
    ProceedKeepsTimed(show, p);
  }

  lemma ResumeKeepsTimed(show: Show, p: Player)
    requires Valid(show, p) && p.runningState == PAUSE && Timed(show, p)
    ensures var q := Resume(show, p).(runningState := PLAY);
            InRange(show, q) && q.timeScale > 0.0 && (Anchored(show, q) || Over(show, q))
  {
    ResumeKeepsRange(show, p);
    var q := ShiftPause(p);
    var cue := q.actualValues.cue;
    ResetIsAnchored(show, q);
    ResetIsAnchored(show, GoToCue(show, q, if cue < |show.cues| - 1 then cue + 1 else 0));
  }

  lemma PlayKeepsTimed(show: Show, p: Player, toNextCue: bool)
    requires Valid(show, p) && Timed(show, p)
    ensures Valid(show, Play(show, p, toNextCue)) && Timed(show, Play(show, p, toNextCue))
  {
    PlayKeepsValid(show, p, toNextCue);
    if p.scaleValid {
      match p.runningState
      case STOP =>
        ResetIsAnchored(show, GoToCue(show, p, 0));
      case PLAY =>
        ResetIsAnchored(show, p);
      case PAUSE =>
        ResumeKeepsTimed(show, p);
    }
  }

  lemma FollowScaleKeepsTimed(show: Show, p: Player, scale: real)
    requires Valid(show, p) && Timed(show, p)
    ensures Valid(show, FollowScale(show, p, scale)) && Timed(show, FollowScale(show, p, scale))
  {
    if scale != p.timeScale && scale > 0.0 {
      PlayKeepsTimed(show, p.(scaleValid := true), false);
      RescaleKeepsTimed(show, if p.scaleValid then p else Play(show, p.(scaleValid := true), false), scale);
    }
  }

  lemma UpdateKeepsTimed(show: Show, p: Player, time: real, scale: real)
    requires Valid(show, p) && Timed(show, p) && p.currentTime <= time
    ensures Valid(show, Update(show, p, time, scale)) && Timed(show, Update(show, p, time, scale))
  {
    var q := p.(currentTime := time);
    assert Timed(show, q);
    if q.runningState == PLAY {
      CalcValuesKeepsTimed(show, q);
    }
    FollowScaleKeepsTimed(show, if q.runningState == PLAY then CalcValues(show, q) else q, scale);
  }

  lemma RunCueKeepsTimed(show: Show, p: Player, next: nat)
    requires Valid(show, p) && Timed(show, p) && next != |show.cues|
    ensures Valid(show, RunCue(show, p, next)) && Timed(show, RunCue(show, p, next))
  {
    RunCueKeepsValid(show, p, next);
    ResetIsAnchored(show, p);
  }

  lemma SceneActivatedKeepsTimed(show: Show, p: Player, defaultCue: nat)
    requires Valid(show, p)
    ensures Valid(show, SceneActivated(show, p, defaultCue)) && Timed(show, SceneActivated(show, p, defaultCue))
  {
    SceneActivatedKeepsValid(show, p, defaultCue);
    ResetIsAnchored(show, p.(actualValues := p.actualValues.(cue := defaultCue)));
  }

  // ----- the relative time -----

  /** The update does not jump over the keyframe behind the one that has just fallen due. */
  predicate NoJump(show: Show, p: Player)
    requires Valid(show, p) && InRange(show, p)
  {
    FrameIsOver(show, p) && !AtLastFrame(show, p) ==> p.currentTime <= Due(show, p, p.actualValues.frame + 1)
  }

  lemma PartOfWay(done: real, way: real)
    requires way > 0.0 && done >= 0.0
    ensures InUnit(done / way) <==> done <= way
  {
    assert done / way * way == done;
    if done > way {
      DivideStrict(way, done, way);
    } else {
      DivideOrder(done, way, way);
    }
  }

  lemma DueIncreases(show: Show, p: Player, frame: nat)
    requires p.timeScale > 0.0 && Increasing(show) && p.actualValues.cue < |show.cues|
    requires frame + 1 < |Stamps(show, p.actualValues.cue)|
    ensures Due(show, p, frame) < Due(show, p, frame + 1)
  {
    var c := show.cues[p.actualValues.cue];
    assert c in show.cues;
    DivideStrict(c.timestamps[frame], c.timestamps[frame + 1], p.timeScale);
  }

  predicate IsOnTime(show: Show, q: Player)
    requires q.timeScale > 0.0 && InRange(show, q)
  {
    var due := Due(show, q, q.actualValues.frame);
    due <= q.lastValues.timeStamp || q.currentTime <= due
  }

  lemma OnTime(show: Show, q: Player)
    requires q.timeScale > 0.0 && InRange(show, q) && q.lastValues.timeStamp <= q.currentTime
    ensures InUnit(RelTime(show, q)) <==> IsOnTime(show, q)
  {
    var way := Due(show, q, q.actualValues.frame) - q.lastValues.timeStamp;
    if way > 0.0 {
      PartOfWay(q.currentTime - q.lastValues.timeStamp, way);
    }
  }

  /** The relative time an update interpolates with is between 0 and 1 exactly when the update jumps
      over no keyframe. */
  lemma RelTimeInUnit(show: Show, p: Player)
    requires Valid(show, p) && p.runningState == PLAY && Timed(show, p) && Increasing(show)
    requires Proceed(show, p).1
    ensures var q := Proceed(show, p).0;
            q.timeScale > 0.0 && InRange(show, q) && (InUnit(RelTime(show, q)) <==> NoJump(show, p))
  {
    ProceedKeepsTimed(show, p);
    OnTime(show, Proceed(show, p).0);
    if !FrameIsOver(show, p) {
      StaysOnTheWay(show, p);
    } else if AtLastFrame(show, p) {
      StartsOnTime(show, p);
    } else {
      MovesToNextFrame(show, p);
    }
  }

  lemma StaysOnTheWay(show: Show, p: Player)
    requires Valid(show, p) && p.runningState == PLAY && !FrameIsOver(show, p)
    ensures var q := Proceed(show, p).0;
            InRange(show, q) && q.timeScale > 0.0 && IsOnTime(show, q) && NoJump(show, p)
  {
  }

  lemma MovesToNextFrame(show: Show, p: Player)
    requires Valid(show, p) && p.runningState == PLAY && Increasing(show) && FrameIsOver(show, p)
             && !AtLastFrame(show, p)
    ensures var q := Proceed(show, p).0;
            InRange(show, q) && q.timeScale > 0.0 && (IsOnTime(show, q) <==> NoJump(show, p))
  {
    DueIncreases(show, p, p.actualValues.frame);
  }

  /** A cue that follows on another starts at its beginning. */
  lemma StartsAtZero(show: Show, p: Player)
    requires Valid(show, p) && p.runningState == PLAY && AtLastFrame(show, p) && FrameIsOver(show, p)
             && Proceed(show, p).1
    ensures var q := Proceed(show, p).0; q.lastValues.timeStamp == q.currentTime
  {
  }

  lemma StartsOnTime(show: Show, p: Player)
    requires Valid(show, p) && p.runningState == PLAY && AtLastFrame(show, p) && FrameIsOver(show, p)
             && Proceed(show, p).1
    ensures var q := Proceed(show, p).0;
            InRange(show, q) && q.timeScale > 0.0 && IsOnTime(show, q) && NoJump(show, p)
  {
    ProceedKeepsValid(show, p);
    StartsAtZero(show, p);
    OnTimeAtStart(show, Proceed(show, p).0);
  }

  lemma OnTimeAtStart(show: Show, q: Player)
    requires q.timeScale > 0.0 && InRange(show, q) && q.lastValues.timeStamp == q.currentTime
    ensures IsOnTime(show, q)
  {
  }

  // ----- speed changes and pauses keep the place -----

  /** The place within the cue, in time stamps. */
  function Elapsed(p: Player): real {
    (RefTime(p) - p.startTime) * p.timeScale
  }

  /** How much of the current transition is done, in time stamps. */
  function SinceLast(p: Player): real {
    (RefTime(p) - p.lastValues.timeStamp) * p.timeScale
  }

  /** The relative time at the place where the cue stands. */
  function PlaceRel(show: Show, p: Player): real
    requires p.timeScale > 0.0 && InRange(show, p)
  {
    var way := Due(show, p, p.actualValues.frame) - p.lastValues.timeStamp;
    if way <= 0.0 then 1.0 else (RefTime(p) - p.lastValues.timeStamp) / way
  }

  /** The relative time depends on nothing but the place. */
  lemma PlaceDeterminesRel(show: Show, p: Player, q: Player)
    requires p.timeScale > 0.0 && InRange(show, p) && q.timeScale > 0.0 && InRange(show, q)
    requires Elapsed(p) == Elapsed(q) && SinceLast(p) == SinceLast(q)
    requires p.actualValues.cue == q.actualValues.cue && p.actualValues.frame == q.actualValues.frame
    ensures PlaceRel(show, p) == PlaceRel(show, q)
  {
    WayInStamps(show, p);
    WayInStamps(show, q);
  }

  lemma WayInStamps(show: Show, p: Player)
    requires p.timeScale > 0.0 && InRange(show, p)
    ensures var way := Stamps(show, p.actualValues.cue)[p.actualValues.frame] - Elapsed(p) + SinceLast(p);
            PlaceRel(show, p) == if way <= 0.0 then 1.0 else SinceLast(p) / way
  {
    var stamp, scale := Stamps(show, p.actualValues.cue)[p.actualValues.frame], p.timeScale;
    var w := Due(show, p, p.actualValues.frame) - p.lastValues.timeStamp;
    assert w * scale == stamp - Elapsed(p) + SinceLast(p) by {
      assert stamp / scale * scale == stamp;
      assert w * scale == stamp / scale * scale + (p.startTime - p.lastValues.timeStamp) * scale;
    }
    if w > 0.0 {
      MultiplyStrict(w, scale);
      CancelScale(RefTime(p) - p.lastValues.timeStamp, w, scale);
    } else {
      MultiplyOrder(w, 0.0, scale);
    }
  }

  lemma MultiplyZero(a: real, d: real)
    requires d > 0.0
    ensures a * d == 0.0 <==> a == 0.0
  {
  }

  lemma MultiplyStrict(a: real, d: real)
    requires a > 0.0 && d > 0.0
    ensures a * d > 0.0
  {
  }

  lemma CancelScale(a: real, w: real, d: real)
    requires w > 0.0 && d > 0.0 && w * d > 0.0
    ensures a / w == a * d / (w * d)
  {
    assert a / w * (w * d) == a * d;
  }

  lemma RescaleDistance(d: real, was: real, scale: real)
    requires scale > 0.0
    ensures d * was / scale * scale == d * was
  {
  }

  /** A new positive speed keeps the place in the cue and in the transition. */
  lemma RescaleKeepsPlace(show: Show, p: Player, scale: real)
    requires Valid(show, p) && p.runningState != STOP && scale > 0.0
    ensures var q := Rescale(p, scale);
            && Elapsed(q) == Elapsed(p) && SinceLast(q) == SinceLast(p)
            && InRange(show, q) && PlaceRel(show, q) == PlaceRel(show, p)
  {
    var q, now, was := Rescale(p, scale), p.currentTime, p.timeScale;
    RescaleDistance(now - p.startTime, was, scale);
    RescaleDistance(now - p.lastValues.timeStamp, was, scale);
    RescaleDistance(now - p.pauseTime, was, scale);
    ShiftedDistance(now, p.startTime, RefTime(p), was, scale);
    ShiftedDistance(now, p.lastValues.timeStamp, RefTime(p), was, scale);
    assert RefTime(q) == Rescaled(p, RefTime(p), scale);
    PlaceDeterminesRel(show, q, p);
  }

  lemma ShiftedDistance(now: real, x: real, ref: real, was: real, scale: real)
    requires scale > 0.0
    ensures ((now - (now - ref) * was / scale) - (now - (now - x) * was / scale)) * scale == (ref - x) * was
  {
    RescaleDistance(now - x, was, scale);
    RescaleDistance(now - ref, was, scale);
    var a, b := (now - ref) * was / scale, (now - x) * was / scale;
    assert (b - a) * scale == b * scale - a * scale;
    assert (now - x) * was - (now - ref) * was == (ref - x) * was;
  }

  /** What the inputs of a cycle say: the clock and the speed. */
  datatype Tick = Tick(time: real, scale: real)

  /** A pause that is not caused by the speed. */
  predicate Pausing(show: Show, p: Player) {
    Valid(show, p) && p.runningState == PAUSE && p.scaleValid
  }

  lemma PausedUpdateIs(show: Show, p: Player, tick: Tick)
    requires Pausing(show, p) && tick.scale > 0.0
    ensures var q := p.(currentTime := tick.time);
            Update(show, p, tick.time, tick.scale) == if tick.scale == p.timeScale then q else Rescale(q, tick.scale)
  {
  }

  lemma RescaleKeepsPausing(show: Show, p: Player, scale: real)
    requires Pausing(show, p) && scale > 0.0
    ensures Pausing(show, Rescale(p, scale)) && Rescale(p, scale).actualValues == p.actualValues
  {
  }

  lemma ClockKeepsPausing(show: Show, p: Player, time: real)
    requires Pausing(show, p)
    ensures var q := p.(currentTime := time);
            Pausing(show, q) && Elapsed(q) == Elapsed(p) && SinceLast(q) == SinceLast(p)
  {
  }

  /** An update during a pause moves the clock and follows the speed, no more. */
  lemma PausedUpdate(show: Show, p: Player, tick: Tick)
    requires Pausing(show, p) && tick.scale > 0.0
    ensures var q := Update(show, p, tick.time, tick.scale);
            && Pausing(show, q) && q.actualValues == p.actualValues
            && Elapsed(q) == Elapsed(p) && SinceLast(q) == SinceLast(p)
  {
    PausedUpdateIs(show, p, tick);
    var q := p.(currentTime := tick.time);
    ClockKeepsPausing(show, p, tick.time);
    if tick.scale != p.timeScale {
      RescaleKeepsPausing(show, q, tick.scale);
      RescaleKeepsPlace(show, q, tick.scale);
    }
  }

  /** Updates during a pause: the clock and the speed may change. */
  function PausedUpdates(show: Show, p: Player, ticks: seq<Tick>): (q: Player)
    requires Pausing(show, p) && forall t <- ticks :: t.scale > 0.0
    ensures Pausing(show, q)
    decreases |ticks|
  {
    if ticks == [] then p
    else
      assert ticks[0] in ticks;
      PausedUpdate(show, p, ticks[0]);
      PausedUpdates(show, Update(show, p, ticks[0].time, ticks[0].scale), ticks[1..])
  }

  lemma {:induction false} PausedUpdatesKeepPlace(show: Show, p: Player, ticks: seq<Tick>)
    requires Pausing(show, p) && forall t <- ticks :: t.scale > 0.0
    ensures var q := PausedUpdates(show, p, ticks);
            && Elapsed(q) == Elapsed(p) && SinceLast(q) == SinceLast(p)
            && q.actualValues == p.actualValues
    decreases |ticks|
  {
    if ticks != [] {
      assert ticks[0] in ticks;
      PausedUpdate(show, p, ticks[0]);
      PausedUpdatesKeepPlace(show, Update(show, p, ticks[0].time, ticks[0].scale), ticks[1..]);
    }
  }

  /** The pause has begun before the unscaled time of the last stamp. */
  predicate Unfinished(show: Show, p: Player)
    requires Valid(show, p)
  {
    InRange(show, p) &&
    var stamps := Stamps(show, p.actualValues.cue);
    p.pauseTime - p.startTime < stamps[|stamps| - 1]
  }

  /** The same cue, keyframe and elapsed time. */
  predicate SamePlace(p: Player, q: Player) {
    q.actualValues.cue == p.actualValues.cue && q.actualValues.frame == p.actualValues.frame && Elapsed(q) == Elapsed(p)
  }

  /** Where a cue that counts as finished goes on. */
  function CueAfterPause(show: Show, p: Player): nat
    requires InRange(show, p)
  {
    var cue := p.actualValues.cue;
    if show.cues[cue].endHandling == START_AGAIN then cue
    else if p.nextCue < |show.cues| then p.nextCue
    else if cue < |show.cues| - 1 then cue + 1 else 0
  }

  /** A cue that counts as finished goes on at the start of a cue. */
  lemma FinishedGoesTo(show: Show, p: Player)
    requires Valid(show, p) && p.runningState == PAUSE && p.scaleValid && LooksFinished(show, ShiftPause(p))
    ensures var q := Play(show, p, false);
            && q.actualValues.cue == CueAfterPause(show, p) && q.actualValues.frame == 0
            && q.runningState == PLAY && q.startTime == q.currentTime
  {
    assert show.cues[p.actualValues.cue] in show.cues;
    assert show.cues[p.actualValues.cue].endHandling in {EndHandling.HOLD, NEXT_CUE, START_AGAIN};
  }

  /** Resuming keeps the place exactly when the unscaled time of the pause has not reached the last stamp;
      otherwise the cue counts as finished, whatever the speed, and the place is given up, unless it is the
      start of the very cue that is played next. */
  lemma ResumeKeepsPlace(show: Show, p: Player)
    requires Valid(show, p) && p.runningState == PAUSE && p.scaleValid
    ensures SamePlace(p, Play(show, p, false)) <==>
            || Unfinished(show, p)
            || (p.pauseTime == p.startTime && p.actualValues.frame == 0 && p.actualValues.cue == CueAfterPause(show, p))
    ensures var q := Play(show, p, false);
            Unfinished(show, p) ==>
              && SinceLast(q) == SinceLast(p) && q.actualValues == p.actualValues && q.runningState == PLAY
              && InRange(show, q) && RelTime(show, q) == PlaceRel(show, p)
  {
    var stamps := Stamps(show, p.actualValues.cue);
    var q := Play(show, p, false);
    if p.pauseTime - p.startTime < stamps[|stamps| - 1] {
      assert !LooksFinished(show, ShiftPause(p));
      PlaceDeterminesRel(show, q, p);
      assert PlaceRel(show, q) == RelTime(show, q);
    } else {
      FinishedGoesTo(show, p);
      assert Elapsed(q) == 0.0;
      MultiplyZero(p.pauseTime - p.startTime, p.timeScale);
    }
  }

  /** One cue of one time stamp, without channels, that holds at its end. */
  function OneStamp(stamp: real): Show {
    Show([Cue([stamp], [], [], [], [], EndHandling.HOLD, DO_NOTHING)], EndHandling.HOLD, r => r)
  }

  /** The cue started at time 0, and paused at the given time. */
  function PausedAt(time: real, speed: real): Player {
    var f := Frame(Outputs([], [], []), false, 0.0, 0, 0);
    Player(time, 0.0, time, speed, true, f, f, NO_CUE, EndHandling.HOLD, PAUSE)
  }

  lemma WitnessIsValid(stamp: real, time: real, speed: real)
    requires speed > 0.0
    ensures Valid(OneStamp(stamp), PausedAt(time, speed)) && Elapsed(PausedAt(time, speed)) == time * speed
    ensures Stamps(OneStamp(stamp), 0) == [stamp]
  {
    var show := OneStamp(stamp);
    forall c | c in show.cues
      ensures CueFits(c, PausedAt(time, speed).actualValues.outputs)
    {
      assert c == show.cues[0];
    }
  }

  /** At half speed, 15 after the start, a cue of length 10 has come to 7.5; resuming starts it again. */
  lemma UnfinishedCueIsRestarted()
    ensures var show, p := OneStamp(10.0), PausedAt(15.0, 0.5);
            && Valid(show, p) && Elapsed(p) == 7.5 && Elapsed(p) < Stamps(show, 0)[0]
            && Elapsed(Play(show, p, false)) == 0.0
  {
    WitnessIsValid(10.0, 15.0, 0.5);
    ResumeLooksAtTime(OneStamp(10.0), PausedAt(15.0, 0.5));
  }

  /** At double speed, 7 after the start, it is 4 past its end; resuming goes on there. */
  lemma FinishedCueGoesOn()
    ensures var show, p := OneStamp(10.0), PausedAt(7.0, 2.0);
            && Valid(show, p) && Elapsed(p) == 14.0 && Elapsed(p) > Stamps(show, 0)[0]
            && Elapsed(Play(show, p, false)) == 14.0
  {
    WitnessIsValid(10.0, 7.0, 2.0);
    ResumeLooksAtTime(OneStamp(10.0), PausedAt(7.0, 2.0));
  }

  lemma ResumeLooksAtTime(show: Show, p: Player)
    requires Valid(show, p) && p.runningState == PAUSE && p.scaleValid
    ensures var stamps := Stamps(show, p.actualValues.cue);
            Elapsed(Play(show, p, false)) ==
            if p.pauseTime - p.startTime < stamps[|stamps| - 1] then Elapsed(p) else 0.0
  {
    var stamps := Stamps(show, p.actualValues.cue);
    assert LooksFinished(show, ShiftPause(p)) <==> p.pauseTime - p.startTime >= stamps[|stamps| - 1];
  }

  lemma PauseKeepsPlace(show: Show, p: Player)
    requires Valid(show, p) && p.runningState == PLAY && p.scaleValid
    ensures var q := Pause(p);
            && Pausing(show, q) && q.actualValues == p.actualValues
            && Elapsed(q) == Elapsed(p) && SinceLast(q) == SinceLast(p)
  {
  }

  /** Pausing, any updates during the pause, and resuming an unfinished cue restore the relative time at
      the pause. */
  lemma PauseAndResume(show: Show, p: Player, ticks: seq<Tick>)
    requires Valid(show, p) && p.runningState == PLAY && p.scaleValid && forall t <- ticks :: t.scale > 0.0
    requires Pausing(show, Pause(p)) && Unfinished(show, PausedUpdates(show, Pause(p), ticks))
    ensures var q := Play(show, PausedUpdates(show, Pause(p), ticks), false);
            && InRange(show, q) && q.timeScale > 0.0 && q.actualValues == p.actualValues
            && RelTime(show, q) == RelTime(show, p)
  {
    PauseKeepsPlace(show, p);
    var q := PausedUpdates(show, Pause(p), ticks);
    PausedUpdatesKeepPlace(show, Pause(p), ticks);
    ResumeKeepsPlace(show, q);
    PlaceDeterminesRel(show, q, p);
    RelIsPlace(show, p);
  }

  lemma RelIsPlace(show: Show, p: Player)
    requires p.timeScale > 0.0 && InRange(show, p) && p.runningState != PAUSE
    ensures RelTime(show, p) == PlaceRel(show, p)
  {
  }

  /** After a speed of zero or less, a positive speed starts the playback exactly when it differs from the
      speed before: the old speed itself goes unnoticed, and play commands stay without effect. */
  lemma SpeedReturns(show: Show, p: Player, time: real, scale: real)
    requires Valid(show, p) && !p.scaleValid && scale > 0.0
    ensures var q := Update(show, p, time, scale);
            && (q.runningState == PLAY && q.scaleValid <==> scale != p.timeScale)
            && (scale == p.timeScale ==> Valid(show, q) && Play(show, q, false) == q && Play(show, q, true) == q)
  {
    UpdateKeepsValid(show, p, time, scale);
    if p.runningState == PLAY {
      CalcValuesKeepsSpeed(show, p.(currentTime := time));
    }
  }

  predicate SameSpeed(p: Player, q: Player) {
    q.scaleValid == p.scaleValid && q.timeScale == p.timeScale
  }

  lemma EndKeepsSpeed(show: Show, p: Player)
    requires Valid(show, p) && InRange(show, p)
    ensures SameSpeed(p, LastFrameHandling(show, p).0)
  {
  }

  lemma ProceedKeepsSpeed(show: Show, p: Player)
    requires Valid(show, p) && InRange(show, p)
    ensures SameSpeed(p, Proceed(show, p).0)
  {
    var q := NoteStaleLast(p);
    if FrameIsOver(show, q) {
      EndKeepsSpeed(show, FinishFrame(show, q));
    }
  }

  lemma CalcValuesKeepsSpeed(show: Show, p: Player)
    requires Valid(show, p) && p.runningState == PLAY
    ensures SameSpeed(p, CalcValues(show, p))
  {
    ProceedKeepsValid(show, p);
    ProceedKeepsSpeed(show, p);
    var (q, plays) := Proceed(show, p);
    assert CalcValues(show, p) == if plays then Interpolate(show, q) else q;
  }

  /** So a stopped filter begins to play by itself: the cue asked for with `next_cue`, or the first one,
      from its start. */
  lemma StoppedFilterStarts(show: Show, p: Player, time: real, scale: real)
    requires Valid(show, p) && p.runningState == STOP && !p.scaleValid && scale > 0.0 && scale != p.timeScale
    ensures var q := Update(show, p, time, scale);
            && q.runningState == PLAY && q.actualValues.frame == 0 && Elapsed(q) == 0.0
            && q.actualValues.cue == if p.nextCue < |show.cues| then p.nextCue else 0
  {
    var q := Play(show, p.(currentTime := time, scaleValid := true), false);
    assert Update(show, p, time, scale) == Rescale(q, scale);
    assert q.startTime == q.currentTime == time;
  }
}
