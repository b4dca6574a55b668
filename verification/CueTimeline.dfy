/** What a playing cue shows: the way from keyframe to keyframe, as a function of the place in the cue alone. */
module CueTimeline {
  import opened Collections
  import opened CueParser
  import opened CuePlayback
  import opened CueRuns
  import opened CueTiming
  import opened Interpolation

  // ----- one value on its way -----

  /** How far a value has come at each relative time, before it is rounded. */
  lemma TransitionMoves(curve: real -> real, rel: real, k: KeyFrame, start: real, end: real)
    requires k.value == Number(end)
    ensures var x := TransitionValue(curve, false, rel, k, start);
            match k.transition
            case EDGE => x == if rel < 1.0 then start else end
            case LINEAR => x - start == rel * (end - start)
            case SIGMOIDAL => x - start == curve(rel) * (end - start)
            case EASE_IN => x - start == rel * rel * (end - start)
            case EASE_OUT => end - x == (1.0 - rel) * (1.0 - rel) * (end - start)
  {
    if k.transition != EDGE {
      var point := Bend(curve, k.transition, rel);
      assert OnTheWay(start, end, point) - start == point * (end - start);
      assert end - OnTheWay(start, end, point) == (1.0 - point) * (end - start);
    }
  }

  /** Integer channels show the nearest whole number, halves away from zero; an EDGE is not rounded. */
  lemma TransitionRounds(curve: real -> real, rel: real, k: KeyFrame, start: real)
    ensures var x, y := TransitionValue(curve, false, rel, k, start), TransitionValue(curve, true, rel, k, start);
            if k.transition == EDGE then y == x
            else Whole(y) && if x >= 0.0 then y - 0.5 <= x < y + 0.5 else y - 0.5 < x <= y + 0.5
  {
    RoundIsNearest(TransitionValue(curve, false, rel, k, start));
  }

  lemma RoundIsNearest(x: real)
    ensures var y := Round(x);
            Whole(y) && if x >= 0.0 then y - 0.5 <= x < y + 0.5 else y - 0.5 < x <= y + 0.5
  {
    if x >= 0.0 {
      FloorIsBelow(x + 0.5);
    } else {
      FloorIsBelow(-x + 0.5);
      WholeNegation((-x + 0.5).Floor as real);
    }
  }

  lemma FloorIsBelow(x: real)
    ensures Whole(x.Floor as real) && x.Floor as real <= x < x.Floor as real + 1.0
  {
    var f := x.Floor;
    assert f as real <= x < (f + 1) as real;
    NumberIsWhole(f);
  }

  lemma WholeIsRound(x: real)
    requires Whole(x)
    ensures Round(x) == x
  {
    RoundIsNearest(x);
    var a, b := x.Floor, Round(x).Floor;
    assert a < b + 1 && b < a + 1;
  }

  /** Every curve but the sigmoidal one leaves the start value at relative time 0 and comes to the value of
      the keyframe at 1, in integer channels as well. */
  lemma TransitionEnds(curve: real -> real, rounds: bool, k: KeyFrame, start: real, end: real)
    requires k.value == Number(end) && (rounds ==> Whole(start) && Whole(end)) && k.transition != SIGMOIDAL
    ensures TransitionValue(curve, rounds, 0.0, k, start) == start
    ensures TransitionValue(curve, rounds, 1.0, k, start) == end
  {
    TransitionMoves(curve, 0.0, k, start, end);
    TransitionMoves(curve, 1.0, k, start, end);
    if rounds {
      WholeIsRound(start);
      WholeIsRound(end);
    }
  }

  // ----- all values of a frame -----

  /** Each value of the row is on its way from its own last value to its own keyframe. */
  predicate RowMoves(curve: real -> real, rounds: bool, rel: real, table: seq<KeyFrame>, frame: nat,
                     last: seq<real>, row: seq<real>) {
    && |row| == |last| && (frame + 1) * |last| <= |table|
    && forall i :: 0 <= i < |row| ==> ValueMoves(curve, rounds, rel, table, frame, last, row, i)
  }

  predicate ValueMoves(curve: real -> real, rounds: bool, rel: real, table: seq<KeyFrame>, frame: nat,
                       last: seq<real>, row: seq<real>, i: nat)
    requires i < |row| == |last|
  {
    && frame * |last| + i < |table|
    && row[i] == TransitionValue(curve, rounds, rel, table[frame * |last| + i], last[i])
  }

  lemma RowOnItsWay(curve: real -> real, rounds: bool, rel: real, table: seq<KeyFrame>, frame: nat, last: seq<real>)
    requires (frame + 1) * |last| <= |table|
    ensures RowMoves(curve, rounds, rel, table, frame, last, TransitionRow(curve, rounds, rel, table, frame, last))
  {
    forall i | 0 <= i < |last|
      ensures var row := TransitionRow(curve, rounds, rel, table, frame, last);
              ValueMoves(curve, rounds, rel, table, frame, last, row, i)
    {
      RowInTable(|last|, frame, i);
    }
  }

  /** The 8-bit and 16-bit values are rounded, the others are not. */
  lemma OutputsMove(show: Show, cue: nat, frame: nat, rel: real, last: Outputs)
    requires ShowFits(show, last) && cue < |show.cues| && frame < |Stamps(show, cue)|
    ensures var o, c := TransitionOutputs(show, cue, frame, rel, last), show.cues[cue];
            && RowMoves(show.curve, true, rel, c.eightBit, frame, last.eightBit, o.eightBit)
            && RowMoves(show.curve, true, rel, c.sixteenBit, frame, last.sixteenBit, o.sixteenBit)
            && RowMoves(show.curve, false, rel, c.float, frame, last.float, o.float)
  {
    var c := show.cues[cue];
    assert c in show.cues;
    FrameInTable(|c.timestamps|, |last.eightBit|, frame);
    FrameInTable(|c.timestamps|, |last.sixteenBit|, frame);
    FrameInTable(|c.timestamps|, |last.float|, frame);
    RowOnItsWay(show.curve, true, rel, c.eightBit, frame, last.eightBit);
    RowOnItsWay(show.curve, true, rel, c.sixteenBit, frame, last.sixteenBit);
    RowOnItsWay(show.curve, false, rel, c.float, frame, last.float);
  }

  /** The row of numbers of a keyframe. */
  predicate IsRowOf(table: seq<KeyFrame>, frame: nat, row: seq<real>) {
    forall i :: 0 <= i < |row| ==> IsNumberAt(table, frame * |row| + i, row[i])
  }

  predicate IsNumberAt(table: seq<KeyFrame>, place: nat, x: real) {
    place < |table| && (table[place].value.Number? ==> table[place].value == Number(x))
  }

  lemma RowIsRow(table: seq<KeyFrame>, count: nat, frame: nat)
    requires (frame + 1) * count <= |table|
    ensures IsRowOf(table, frame, RowOf(table, count, frame))
  {
    forall i | 0 <= i < count
      ensures IsNumberAt(table, frame * count + i, RowOf(table, count, frame)[i])
    {
      RowInTable(count, frame, i);
    }
  }

  lemma KeyframeOutputs(show: Show, cue: nat, frame: nat, shape: Outputs)
    requires ShowFits(show, shape) && cue < |show.cues| && frame < |Stamps(show, cue)|
    ensures var o, c := FrameOutputs(show, cue, frame, shape), show.cues[cue];
            && SameShape(o, shape)
            && IsRowOf(c.eightBit, frame, o.eightBit) && IsRowOf(c.sixteenBit, frame, o.sixteenBit)
            && IsRowOf(c.float, frame, o.float)
  {
    var c := show.cues[cue];
    assert c in show.cues;
    FrameInTable(|c.timestamps|, |shape.eightBit|, frame);
    FrameInTable(|c.timestamps|, |shape.sixteenBit|, frame);
    FrameInTable(|c.timestamps|, |shape.float|, frame);
    RowIsRow(c.eightBit, |shape.eightBit|, frame);
    RowIsRow(c.sixteenBit, |shape.sixteenBit|, frame);
    RowIsRow(c.float, |shape.float|, frame);
  }

  // ----- the timeline of a cue -----

  /** The time stamp at which the way to a keyframe begins. */
  function StampBefore(show: Show, cue: nat, frame: nat): real
    requires cue < |show.cues| && frame < |Stamps(show, cue)|
  {
    if frame == 0 then 0.0 else Stamps(show, cue)[frame - 1]
  }

  /** What the way to a keyframe starts from: the keyframe before, or what was shown when the cue began. */
  function StartOfWay(show: Show, cue: nat, frame: nat, origin: Outputs): (o: Outputs)
    requires ShowFits(show, origin) && cue < |show.cues| && frame < |Stamps(show, cue)|
    ensures SameShape(o, origin)
  {
    if frame == 0 then origin else FrameOutputs(show, cue, frame - 1, origin)
  }

  /** The part of the way from one stamp to the next that lies behind; all of it if they are the same. */
  function ShareOfWay(place: real, from: real, to: real): real {
    if to <= from then 1.0 else (place - from) / (to - from)
  }

  /** The playback stands within a cue that began at `origin`: the times fit the stamps, and the last values
      are those the way to the next keyframe starts from. */
  ghost predicate Placed(show: Show, p: Player, origin: Outputs) {
    && Valid(show, p) && p.runningState != STOP && SameShape(origin, p.actualValues.outputs)
    && var cue, frame := p.actualValues.cue, p.actualValues.frame;
    && SinceLast(p) == Elapsed(p) - StampBefore(show, cue, frame) && SinceLast(p) >= 0.0
    && p.lastValues.outputs == StartOfWay(show, cue, frame, origin)
    && (frame > 0 ==> p.lastValues.frame + 1 == frame && p.lastValues.cue == cue)
  }

  /** At the end of the way the last values are to be renewed. */
  ghost predicate OnTrack(show: Show, p: Player, origin: Outputs) {
    Placed(show, p, origin) && (p.actualValues.frame > 0 ==> !p.lastValues.updated)
  }

  /** The outputs are those of the place: on the way to the next keyframe, as far as the stamps say. */
  ghost predicate Shows(show: Show, p: Player, origin: Outputs)
    requires Placed(show, p, origin)
  {
    var cue, frame := p.actualValues.cue, p.actualValues.frame;
    var from, to := StampBefore(show, cue, frame), Stamps(show, cue)[frame];
    && from <= Elapsed(p) <= to
    && p.actualValues.outputs ==
       TransitionOutputs(show, cue, frame, ShareOfWay(Elapsed(p), from, to), StartOfWay(show, cue, frame, origin))
  }

  // ----- an update that goes on in the cue -----

  lemma OverInStamps(now: real, start: real, stamp: real, scale: real)
    requires scale > 0.0
    ensures now >= stamp / scale + start <==> (now - start) * scale >= stamp
  {
    var d := stamp / scale;
    assert d * scale == stamp;
    if now - start >= d {
      MultiplyOrder(d, now - start, scale);
    } else {
      MultiplyStrict(d - (now - start), scale);
      assert (d - (now - start)) * scale == stamp - (now - start) * scale;
    }
  }

  /** A keyframe is due exactly when the place has come to its stamp. */
  lemma DueInStamps(show: Show, p: Player, frame: nat)
    requires p.timeScale > 0.0 && p.actualValues.cue < |show.cues| && frame < |Stamps(show, p.actualValues.cue)|
    requires p.runningState == PLAY
    ensures p.currentTime >= Due(show, p, frame) <==> Elapsed(p) >= Stamps(show, p.actualValues.cue)[frame]
  {
    OverInStamps(p.currentTime, p.startTime, Stamps(show, p.actualValues.cue)[frame], p.timeScale);
  }

  lemma RelIsShare(show: Show, p: Player, from: real)
    requires Valid(show, p) && p.runningState == PLAY && SinceLast(p) == Elapsed(p) - from
    ensures RelTime(show, p) ==
            ShareOfWay(Elapsed(p), from, Stamps(show, p.actualValues.cue)[p.actualValues.frame])
  {
    RelIsPlace(show, p);
    WayInStamps(show, p);
  }

  /** What changes none of the times keeps the place. */
  lemma TimesKeepPlace(p: Player, q: Player)
    requires RefTime(q) == RefTime(p) && q.startTime == p.startTime && q.timeScale == p.timeScale
    requires q.lastValues.timeStamp == p.lastValues.timeStamp
    ensures Elapsed(q) == Elapsed(p) && SinceLast(q) == SinceLast(p)
  {
  }

  /** What an update interpolates to stands on the track and shows its place. */
  lemma InterpolationShows(show: Show, q: Player, origin: Outputs)
    requires Placed(show, q, origin) && q.runningState == PLAY
    requires Elapsed(q) <= Stamps(show, q.actualValues.cue)[q.actualValues.frame]
    ensures OnTrack(show, Interpolate(show, q), origin) && Shows(show, Interpolate(show, q), origin)
  {
    var r := Interpolate(show, q);
    var from := StampBefore(show, q.actualValues.cue, q.actualValues.frame);
    var to := Stamps(show, q.actualValues.cue)[q.actualValues.frame];
    RelIsShare(show, q, from);
    InterpolationIs(show, q, ShareOfWay(Elapsed(q), from, to));
    TimesKeepPlace(q, r);
  }

  lemma InterpolationIs(show: Show, q: Player, rel: real)
    requires Valid(show, q) && q.runningState == PLAY && RelTime(show, q) == rel
    ensures var r := Interpolate(show, q);
            && Valid(show, r) && r == q.(actualValues := r.actualValues, lastValues := r.lastValues)
            && r.lastValues == q.lastValues.(updated := false)
            && r.actualValues.cue == q.actualValues.cue && r.actualValues.frame == q.actualValues.frame
            && r.actualValues.outputs ==
               TransitionOutputs(show, q.actualValues.cue, q.actualValues.frame, rel, q.lastValues.outputs)
  {
  }

  lemma StaysOnWay(show: Show, p: Player, origin: Outputs)
    requires OnTrack(show, p, origin) && p.runningState == PLAY && !FrameIsOver(show, p)
    ensures var r := CalcValues(show, p);
            && r.runningState == PLAY && OnTrack(show, r, origin) && Shows(show, r, origin)
            && r.actualValues.cue == p.actualValues.cue && r.actualValues.frame == p.actualValues.frame
  {
    var q := NoteStaleLast(p);
    DueInStamps(show, p, p.actualValues.frame);
    ProceedKeepsValid(show, p);
    assert CalcValues(show, p) == Interpolate(show, q);
    TimesKeepPlace(p, q);
    assert OnTrack(show, q, origin);
    InterpolationShows(show, q, origin);
  }

  /** The state in which the way to the next keyframe begins. */
  lemma NextWay(show: Show, p: Player, origin: Outputs)
    requires OnTrack(show, p, origin) && p.runningState == PLAY && FrameIsOver(show, p) && !AtLastFrame(show, p)
    ensures var (q, plays) := Proceed(show, p);
            && plays && q.runningState == PLAY && Placed(show, q, origin) && Elapsed(q) == Elapsed(p)
            && q.actualValues.cue == p.actualValues.cue && q.actualValues.frame == p.actualValues.frame + 1
  {
    var cue, frame := p.actualValues.cue, p.actualValues.frame;
    var q := NoteStaleLast(p);
    assert !q.lastValues.updated;
    var r := FinishFrame(show, q);
    assert r.lastValues.outputs == FrameOutputs(show, cue, frame, p.actualValues.outputs);
    assert r.lastValues.outputs == FrameOutputs(show, cue, frame, origin);
    assert r.lastValues.timeStamp == Due(show, p, frame);
    DueInStamps(show, p, frame);
    DueIsElapsed(p.currentTime, p.startTime, Stamps(show, cue)[frame], p.timeScale);
    ProceedKeepsValid(show, p);
  }

  lemma DueIsElapsed(now: real, start: real, stamp: real, scale: real)
    requires scale > 0.0
    ensures (now - (stamp / scale + start)) * scale == (now - start) * scale - stamp
  {
    assert stamp / scale * scale == stamp;
    assert (now - (stamp / scale + start)) * scale == (now - start) * scale - stamp / scale * scale;
  }

  lemma PassesKeyframe(show: Show, p: Player, origin: Outputs)
    requires OnTrack(show, p, origin) && p.runningState == PLAY
    requires FrameIsOver(show, p) && !AtLastFrame(show, p) && NoJump(show, p)
    ensures var r := CalcValues(show, p);
            && r.runningState == PLAY && OnTrack(show, r, origin) && Shows(show, r, origin)
            && r.actualValues.cue == p.actualValues.cue && r.actualValues.frame == p.actualValues.frame + 1
  {
    var q := Proceed(show, p).0;
    NextWay(show, p, origin);
    assert CalcValues(show, p) == Interpolate(show, q);
    NotBehind(show, p);
    InterpolationShows(show, q, origin);
  }

  lemma NotBehind(show: Show, p: Player)
    requires Valid(show, p) && p.runningState == PLAY && InRange(show, p)
    requires FrameIsOver(show, p) && !AtLastFrame(show, p) && NoJump(show, p)
    ensures Elapsed(p) <= Stamps(show, p.actualValues.cue)[p.actualValues.frame + 1]
  {
    var stamp, scale := Stamps(show, p.actualValues.cue)[p.actualValues.frame + 1], p.timeScale;
    assert stamp / scale * scale == stamp;
    MultiplyOrder(p.currentTime - p.startTime, stamp / scale, scale);
  }

  /** A playing update that neither jumps over a keyframe nor comes to the end of the cue shows its place. */
  lemma PlayingUpdateShows(show: Show, p: Player, origin: Outputs)
    requires OnTrack(show, p, origin) && p.runningState == PLAY && NoJump(show, p)
    requires !(FrameIsOver(show, p) && AtLastFrame(show, p))
    ensures var r := CalcValues(show, p);
            && r.runningState == PLAY && OnTrack(show, r, origin) && Shows(show, r, origin)
            && r.actualValues.cue == p.actualValues.cue
  {
    if FrameIsOver(show, p) {
      PassesKeyframe(show, p, origin);
    } else {
      StaysOnWay(show, p, origin);
    }
  }

  // ----- pauses and speed changes -----

  /** Same keyframe, same values, same place. */
  ghost predicate SameTrack(p: Player, q: Player) {
    && q.actualValues == p.actualValues && Elapsed(q) == Elapsed(p) && SinceLast(q) == SinceLast(p)
    && q.lastValues == p.lastValues.(timeStamp := q.lastValues.timeStamp)
  }

  lemma TrackIsKept(show: Show, p: Player, q: Player, origin: Outputs)
    requires OnTrack(show, p, origin) && SameTrack(p, q) && Valid(show, q) && q.runningState != STOP
    ensures OnTrack(show, q, origin) && (Shows(show, p, origin) ==> Shows(show, q, origin))
  {
  }

  lemma TakenUpTimes(show: Show, p: Player, toNextCue: bool)
    requires Valid(show, p) && p.runningState != STOP && (p.scaleValid ==> TakesUp(show, p))
    ensures SameTrack(p, Play(show, p, toNextCue)) && Play(show, p, toNextCue).runningState != STOP
  {
    var q := Play(show, p, toNextCue);
    if p.scaleValid && p.runningState == PAUSE {
      assert RefTime(q) - q.startTime == RefTime(p) - p.startTime;
      assert RefTime(q) - q.lastValues.timeStamp == RefTime(p) - p.lastValues.timeStamp;
    } else {
      TimesKeepPlace(p, q);
    }
  }

  lemma TakenUpKeepsTrack(show: Show, p: Player, toNextCue: bool, origin: Outputs)
    requires OnTrack(show, p, origin) && (p.scaleValid ==> TakesUp(show, p))
    ensures OnTrack(show, Play(show, p, toNextCue), origin)
    ensures Shows(show, p, origin) ==> Shows(show, Play(show, p, toNextCue), origin)
  {
    PlayKeepsValid(show, p, toNextCue);
    var q := Play(show, p, toNextCue);
    TakenUpTimes(show, p, toNextCue);
    TrackIsKept(show, p, q, origin);
  }

  lemma PauseKeepsTrack(show: Show, p: Player, origin: Outputs)
    requires OnTrack(show, p, origin)
    ensures OnTrack(show, Pause(p), origin) && (Shows(show, p, origin) ==> Shows(show, Pause(p), origin))
  {
    TimesKeepPlace(p, Pause(p));
    TrackIsKept(show, p, Pause(p), origin);
  }

  lemma RescaleKeepsTrack(show: Show, p: Player, scale: real, origin: Outputs)
    requires OnTrack(show, p, origin) && scale > 0.0
    ensures OnTrack(show, Rescale(p, scale), origin)
    ensures Shows(show, p, origin) ==> Shows(show, Rescale(p, scale), origin)
  {
    RescaleKeepsPlace(show, p, scale);
    TrackIsKept(show, p, Rescale(p, scale), origin);
  }

  lemma SpeedKeepsTrack(show: Show, p: Player, scale: real, origin: Outputs)
    requires OnTrack(show, p, origin) && (SpeedStarts(p, scale) ==> TakesUp(show, p))
    ensures OnTrack(show, FollowScale(show, p, scale), origin)
    ensures Shows(show, p, origin) ==> Shows(show, FollowScale(show, p, scale), origin)
  {
    if scale != p.timeScale && scale <= 0.0 {
      if p.scaleValid {
        PauseKeepsTrack(show, p, origin);
        TimesKeepPlace(Pause(p), Pause(p).(scaleValid := false));
        TrackIsKept(show, Pause(p), Pause(p).(scaleValid := false), origin);
      }
    } else if scale != p.timeScale {
      var q := p.(scaleValid := true);
      TimesKeepPlace(p, q);
      TrackIsKept(show, p, q, origin);
      if !p.scaleValid {
        TakenUpKeepsTrack(show, q, false, origin);
      }
      RescaleKeepsTrack(show, if p.scaleValid then p else Play(show, q, false), scale, origin);
    }
  }

  // ----- runs within a cue -----

  /** The step goes on within the cue: the clock does not go back, no keyframe is jumped over, and the last
      one is not over yet. */
  predicate StaysOnTrack(show: Show, p: Player, step: Step)
    requires Valid(show, p)
  {
    && StaysInCue(show, p, step)
    && (step.Cycle? && p.runningState == PLAY ==>
          var q := p.(currentTime := step.time);
          p.currentTime <= step.time && NoJump(show, q) && !(FrameIsOver(show, q) && AtLastFrame(show, q)))
  }

  lemma ClockKeepsTrack(show: Show, p: Player, time: real, origin: Outputs)
    requires OnTrack(show, p, origin) && (p.runningState == PLAY ==> p.currentTime <= time)
    ensures OnTrack(show, p.(currentTime := time), origin)
    ensures p.runningState == PAUSE && Shows(show, p, origin) ==> Shows(show, p.(currentTime := time), origin)
  {
    var q := p.(currentTime := time);
    if p.runningState == PLAY {
      var more := time - p.currentTime;
      assert Elapsed(q) == Elapsed(p) + more * p.timeScale;
      assert SinceLast(q) == SinceLast(p) + more * p.timeScale;
      MultiplyOrder(0.0, more, p.timeScale);
    } else {
      TrackIsKept(show, p, q, origin);
    }
  }

  lemma CycleKeepsTrack(show: Show, p: Player, time: real, scale: real, origin: Outputs)
    requires OnTrack(show, p, origin) && StaysOnTrack(show, p, Cycle(time, scale))
    ensures var q := Perform(show, p, Cycle(time, scale));
            OnTrack(show, q, origin) && (Shows(show, p, origin) || p.runningState == PLAY ==> Shows(show, q, origin))
  {
    var q := p.(currentTime := time);
    ClockKeepsTrack(show, p, time, origin);
    if p.runningState == PLAY {
      PlayingUpdateShows(show, q, origin);
    }
    SpeedKeepsTrack(show, Moved(show, p, time), scale, origin);
  }

  /** Every such step keeps the track; a playing cycle shows its place, and nothing else takes it away. */
  lemma StepKeepsTrack(show: Show, p: Player, step: Step, origin: Outputs)
    requires OnTrack(show, p, origin) && StaysOnTrack(show, p, step)
    ensures var q := Perform(show, p, step);
            && OnTrack(show, q, origin)
            && (Shows(show, p, origin) || (step.Cycle? && p.runningState == PLAY) ==> Shows(show, q, origin))
  {
    match step
    case Cycle(time, scale) => CycleKeepsTrack(show, p, time, scale, origin);
    case PlayCommand(toNextCue) => TakenUpKeepsTrack(show, p, toNextCue, origin);
    case PauseCommand => PauseKeepsTrack(show, p, origin);
    case NextCueCommand(next) =>
      TimesKeepPlace(p, SetNextCue(show, p, next));
      TrackIsKept(show, p, SetNextCue(show, p, next), origin);
    case _ =>
  }

  predicate StaysOnTrackRun(show: Show, p: Player, steps: seq<Step>)
    requires Valid(show, p) && AllInList(show, steps)
    decreases |steps|
  {
    if steps == [] then true
    else
      FirstStep(show, p, steps);
      StaysOnTrack(show, p, steps[0]) && StaysOnTrackRun(show, Perform(show, p, steps[0]), steps[1..])
  }

  /** However often a cue is updated, paused, resumed and changed in speed, as soon as it has been updated
      once its outputs are those of its place: on the way from keyframe to keyframe, as far as the elapsed
      time says, in stamps. */
  lemma {:induction false} FollowsTimeline(show: Show, p: Player, steps: seq<Step>, origin: Outputs)
    requires OnTrack(show, p, origin) && AllInList(show, steps) && StaysOnTrackRun(show, p, steps)
    requires Shows(show, p, origin) || (steps != [] && steps[0].Cycle? && p.runningState == PLAY)
    ensures OnTrack(show, Run(show, p, steps), origin) && Shows(show, Run(show, p, steps), origin)
    decreases |steps|
  {
    if steps != [] {
      FirstStep(show, p, steps);
      StepKeepsTrack(show, p, steps[0], origin);
      FollowsTimeline(show, Perform(show, p, steps[0]), steps[1..], origin);
    }
  }

  // ----- the start of a cue -----

  /** What is shown when a cue starts. */
  function ShownBefore(p: Player): Outputs {
    if p.lastValues.updated then p.lastValues.outputs else p.actualValues.outputs
  }

  /** The cue stands at its beginning, now. */
  ghost predicate AtBeginning(show: Show, q: Player, cue: nat, origin: Outputs) {
    && OnTrack(show, q, origin) && q.runningState == PLAY && q.actualValues.cue == cue && q.actualValues.frame == 0
    && q.startTime == q.currentTime && Elapsed(q) == 0.0
  }

  lemma BeginsOnTrack(show: Show, q: Player, origin: Outputs)
    requires Valid(show, q) && q.runningState == PLAY && q.actualValues.frame == 0
    requires q.startTime == q.lastValues.timeStamp == q.currentTime && q.lastValues.outputs == origin
    ensures AtBeginning(show, q, q.actualValues.cue, origin)
  {
    assert RefTime(q) - q.startTime == 0.0 && RefTime(q) - q.lastValues.timeStamp == 0.0;
    assert 0.0 * q.timeScale == 0.0;
  }

  /** From a stop, play starts the cue asked for with `next_cue`, and forgets it, or else the first one; with
      `to_next_cue` it is going to hold at the end of the cue. */
  lemma PlayBegins(show: Show, p: Player, toNextCue: bool)
    requires Valid(show, p) && p.runningState == STOP && p.scaleValid
    ensures var q, cue := Play(show, p, toNextCue), if p.nextCue < |show.cues| then p.nextCue else 0;
            && AtBeginning(show, q, cue, ShownBefore(p))
            && q.nextCue == (if p.nextCue < |show.cues| then NO_CUE else p.nextCue)
            && q.endHandlingReal == if toNextCue then HOLD else show.cues[cue].endHandling
  {
    PlayKeepsValid(show, p, toNextCue);
    BeginsOnTrack(show, Play(show, p, toNextCue), ShownBefore(p));
  }

  /** After a pause, play takes the cue up, or starts the one that follows on a finished cue; what happens at
      the end of the cue is set anew. */
  lemma PlayAfterPause(show: Show, p: Player, toNextCue: bool)
    requires Valid(show, p) && p.runningState == PAUSE && p.scaleValid
    ensures var q := Play(show, p, toNextCue);
            && q.runningState == PLAY && q.actualValues.cue < |show.cues|
            && q.endHandlingReal == (if toNextCue then HOLD else show.cues[q.actualValues.cue].endHandling)
            && if Unfinished(show, p) then SameTrack(p, q) && q.nextCue == p.nextCue
               else AtBeginning(show, q, CueAfterPause(show, p), ShownBefore(p))
  {
    PlayKeepsValid(show, p, toNextCue);
    var q := Play(show, p, toNextCue);
    if Unfinished(show, p) {
      assert TakesUp(show, p);
      TakenUpTimes(show, p, toNextCue);
    } else {
      assert LooksFinished(show, ShiftPause(p));
      FinishedGoesTo(show, p);
      assert q == Play(show, p, false).(endHandlingReal := q.endHandlingReal);
      BeginsOnTrack(show, q, ShownBefore(p));
    }
  }

  /** While a cue plays, play starts it again if it is configured so, and otherwise only sets what happens at
      its end. */
  lemma PlayAgain(show: Show, p: Player, toNextCue: bool)
    requires Valid(show, p) && p.runningState == PLAY && p.scaleValid
    ensures var q, cue := Play(show, p, toNextCue), p.actualValues.cue;
            && q.endHandlingReal == (if toNextCue then HOLD else show.cues[cue].endHandling)
            && if show.cues[cue].restartHandling == DO_NOTHING then q == p.(endHandlingReal := q.endHandlingReal)
               else AtBeginning(show, q, cue, ShownBefore(p)) && q.nextCue == p.nextCue
  {
    PlayKeepsValid(show, p, toNextCue);
    if show.cues[p.actualValues.cue].restartHandling != DO_NOTHING {
      BeginsOnTrack(show, Play(show, p, toNextCue), ShownBefore(p));
    }
  }

  /** `run_cue` starts the cue it names, whatever the filter does at that moment. */
  lemma RunCueBegins(show: Show, p: Player, next: nat)
    requires Valid(show, p) && next < |show.cues|
    ensures var q := RunCue(show, p, next);
            AtBeginning(show, q, next, ShownBefore(p)) && q.endHandlingReal == show.cues[next].endHandling
  {
    RunCueKeepsValid(show, p, next);
    BeginsOnTrack(show, RunCue(show, p, next), ShownBefore(p));
  }

  /** A scene that is switched on starts its default cue, or the last one if there is no such cue. */
  lemma ActivationBegins(show: Show, p: Player, defaultCue: nat)
    requires Valid(show, p)
    ensures var q, cue := SceneActivated(show, p, defaultCue),
                          if defaultCue < |show.cues| then defaultCue else |show.cues| - 1;
            AtBeginning(show, q, cue, ShownBefore(p)) && q.endHandlingReal == show.cues[cue].endHandling
  {
    SceneActivatedKeepsValid(show, p, defaultCue);
    BeginsOnTrack(show, SceneActivated(show, p, defaultCue), ShownBefore(p));
  }

  // ----- the end of a cue -----

  /** The cue that follows when the current one is over; none if the filter holds or stops. */
  function CueAfter(show: Show, p: Player): Option<nat>
    requires InRange(show, p)
  {
    var cue, last := p.actualValues.cue, p.actualValues.cue == |show.cues| - 1;
    if p.endHandlingReal == HOLD || (p.endHandlingReal == NEXT_CUE && last && show.handleEnd != START_AGAIN) then None
    else if p.nextCue < |show.cues| then Some(p.nextCue)
    else if p.endHandlingReal == START_AGAIN then Some(cue)
    else Some(if last then 0 else cue + 1)
  }

  lemma EndFinishes(show: Show, p: Player, origin: Outputs)
    requires OnTrack(show, p, origin) && p.runningState == PLAY && FrameIsOver(show, p) && AtLastFrame(show, p)
    ensures var r := FinishFrame(show, NoteStaleLast(p));
            && Valid(show, r) && Proceed(show, p) == LastFrameHandling(show, r)
            && r == p.(lastValues := r.lastValues)
            && r.lastValues.updated && r.lastValues.outputs == CurrentKeyframe(show, p)
  {
    assert !NoteStaleLast(p).lastValues.updated;
  }

  /** What the last keyframe leaves goes into the next cue. */
  lemma HandsOver(show: Show, r: Player)
    requires Valid(show, r) && r.runningState == PLAY && r.lastValues.updated
    ensures var next, (q, plays) := CueAfter(show, r), LastFrameHandling(show, r);
            && plays == next.Some?
            && (next.None? ==>
                  && q.runningState == (if r.endHandlingReal == HOLD then PAUSE else STOP)
                  && q.actualValues.cue == r.actualValues.cue && q.actualValues.frame == r.actualValues.frame
                  && q.nextCue == r.nextCue && (r.endHandlingReal == HOLD ==> q.pauseTime == r.currentTime))
            && (next.Some? ==> StartsWith(show, q, next.value, r.lastValues.outputs))
            && (next.Some? ==> q.nextCue == if r.nextCue < |show.cues| then NO_CUE else r.nextCue)
  {
  }

  ghost predicate StartsWith(show: Show, q: Player, cue: nat, origin: Outputs) {
    && cue < |show.cues| && q.runningState == PLAY && q.actualValues.cue == cue && q.actualValues.frame == 0
    && q.startTime == q.lastValues.timeStamp == q.currentTime
    && q.lastValues.outputs == origin && q.endHandlingReal == show.cues[cue].endHandling
  }

  /** At its end a cue holds, the list stops, or the next cue begins at the last keyframe, at once and with
      its own end handling. */
  lemma CueEnds(show: Show, p: Player, origin: Outputs)
    requires OnTrack(show, p, origin) && p.runningState == PLAY && FrameIsOver(show, p) && AtLastFrame(show, p)
    ensures var r, next := CalcValues(show, p), CueAfter(show, p);
            && (next.None? ==>
                  && r.runningState == (if p.endHandlingReal == HOLD then PAUSE else STOP)
                  && r.actualValues.cue == p.actualValues.cue && r.actualValues.frame == p.actualValues.frame
                  && r.nextCue == p.nextCue && (p.endHandlingReal == HOLD ==> r.pauseTime == p.currentTime))
            && (next.Some? ==>
                  && AtBeginning(show, r, next.value, CurrentKeyframe(show, p))
                  && r.endHandlingReal == show.cues[next.value].endHandling
                  && r.nextCue == if p.nextCue < |show.cues| then NO_CUE else p.nextCue)
  {
    CalcValuesKeepsValid(show, p);
    ProceedKeepsValid(show, p);
    EndFinishes(show, p, origin);
    HandsOver(show, FinishFrame(show, NoteStaleLast(p)));
    var (q, plays) := Proceed(show, p);
    assert CalcValues(show, p) == if plays then Interpolate(show, q) else q;
    if plays {
      BeginsOnTrack(show, CalcValues(show, p), CurrentKeyframe(show, p));
    }
  }

  // ----- a speed of zero or below -----

  /** It pauses the playback where it stands. */
  lemma NoSpeedPauses(show: Show, p: Player, time: real, scale: real)
    requires Valid(show, p) && p.scaleValid && scale <= 0.0
    ensures var r, q := Moved(show, p, time), Update(show, p, time, scale);
            && !q.scaleValid && q.runningState == (if r.runningState == PLAY then PAUSE else r.runningState)
            && q.actualValues == r.actualValues && Elapsed(q) == Elapsed(r) && SinceLast(q) == SinceLast(r)
  {
    var r := Moved(show, p, time);
    if p.runningState == PLAY {
      CalcValuesKeepsSpeed(show, p.(currentTime := time));
    }
    assert Update(show, p, time, scale) == FollowScale(show, r, scale) == Pause(r).(scaleValid := false);
    TimesKeepPlace(r, Pause(r).(scaleValid := false));
  }
}
