/** Whole runs of the cue playback: every access is in bounds, the outputs stay in the range of the keyframes
    and starting values, and a cue that ends in a hold leaves them at its last keyframe. */
module CueRuns {
  import opened Collections
  import opened CueListParser
  import opened CueParser
  import opened CuePlayback
  import opened CueTiming
  import opened Interpolation

  // ----- from the text to the playback -----

  lemma {:induction false} ConfsEnd(s: string, parts: seq<Part>)
    requires IsText(s) && forall p <- parts :: p.start <= |s|
    ensures ParseConfs(s, parts).Some? ==> ParseConfs(s, parts).value.end != HOLDING
    decreases |parts|
  {
    if parts != [] {
      ConfsEnd(s, parts[..|parts| - 1]);
    }
  }

  lemma CueEnd(n: Numbers, s: string, p: Part, channels: seq<ChannelType>)
    requires IsText(s) && p.start <= |s| && p.end <= |s|
    ensures ParseCue(n, s, p, channels).Some? ==> ParseCue(n, s, p, channels).value.handling.end != HOLDING
  {
    ConfsEnd(s, ConfsOf(s, p));
    assert ParseCue(n, s, p, channels).Some? ==>
           Some(ParseCue(n, s, p, channels).value.handling) == ParseConfs(s, ConfsOf(s, p));
  }

  lemma {:induction false} CuesEnd(n: Numbers, s: string, parts: seq<Part>, channels: seq<ChannelType>)
    requires IsText(s) && forall p <- parts :: p.start <= |s| && p.end <= |s|
    ensures var r := ParseCues(n, s, parts, channels);
            r.Some? ==> forall p <- r.value :: p.handling.end != HOLDING
    decreases |parts|
  {
    if parts != [] {
      CuesEnd(n, s, parts[..|parts| - 1], channels);
      CueEnd(n, s, parts[|parts| - 1], channels);
    }
  }

  /** Whatever the text: when the cue list parser succeeds, the playback can use what it has read (and then
      stays within the tables in every run of `EveryRunInBounds`) exactly when every cue has a time stamp. */
  lemma ParsedCuesArePlayable(n: Numbers, s: string, channels: seq<ChannelType>, cues: seq<Cue>, shape: Outputs,
                              handleEnd: EndHandling, curve: real -> real)
    requires IsText(s) && ParseCues(n, s, Parts(s, 0, |s|, '$'), channels).Some?
    requires AllStandFor(cues, ParseCues(n, s, Parts(s, 0, |s|, '$'), channels).value, channels)
    requires |shape.eightBit| == Count(channels, EIGHT_BIT) && |shape.sixteenBit| == Count(channels, SIXTEEN_BIT)
    requires |shape.float| == Count(channels, FLOAT) && handleEnd in {HOLD, START_AGAIN}
    ensures ShowFits(Show(cues, handleEnd, curve), shape) <==> forall c <- cues :: |c.timestamps| >= 1
  {
    var parsed := ParseCues(n, s, Parts(s, 0, |s|, '$'), channels).value;
    CuesEnd(n, s, Parts(s, 0, |s|, '$'), channels);
    AllComplete(cues, parsed, channels);
    forall c | c in cues
      ensures CueFits(c, shape) <==> |c.timestamps| >= 1
    {
      var i :| 0 <= i < |cues| && cues[i] == c;
      assert parsed[i] in parsed;
      ParsedCueFits(c, parsed[i], channels, shape);
    }
  }

  lemma ParsedCueFits(c: Cue, p: Parsed, channels: seq<ChannelType>, shape: Outputs)
    requires StandsFor(c, p, channels) && Complete(c, channels) && p.handling.end != HOLDING
    requires |shape.eightBit| == Count(channels, EIGHT_BIT) && |shape.sixteenBit| == Count(channels, SIXTEEN_BIT)
    requires |shape.float| == Count(channels, FLOAT)
    ensures CueFits(c, shape) <==> |c.timestamps| >= 1
  {
    assert |c.Table(EIGHT_BIT)| == |c.timestamps| * |shape.eightBit|;
    assert |c.Table(SIXTEEN_BIT)| == |c.timestamps| * |shape.sixteenBit|;
    assert |c.Table(FLOAT)| == |c.timestamps| * |shape.float|;
  }

  // ----- ranges, one for each channel -----

  datatype Range = Range(lo: Outputs, hi: Outputs)

  predicate RowWithin(row: seq<real>, lo: seq<real>, hi: seq<real>) {
    |row| == |lo| == |hi| && forall i :: 0 <= i < |row| ==> Between(row[i], lo[i], hi[i])
  }

  predicate WholeRow(row: seq<real>) {
    forall i :: 0 <= i < |row| ==> Whole(row[i])
  }

  predicate OutputsWithin(o: Outputs, b: Range) {
    && RowWithin(o.eightBit, b.lo.eightBit, b.hi.eightBit)
    && RowWithin(o.sixteenBit, b.lo.sixteenBit, b.hi.sixteenBit)
    && RowWithin(o.float, b.lo.float, b.hi.float)
  }

  /** Bounds of integer channels are whole numbers. */
  predicate RangeFits(b: Range) {
    && SameShape(b.lo, b.hi)
    && WholeRow(b.lo.eightBit) && WholeRow(b.hi.eightBit) && WholeRow(b.lo.sixteenBit) && WholeRow(b.hi.sixteenBit)
  }

  /** All keyframes of all cues are in range. */
  ghost predicate ShowWithin(show: Show, b: Range)
    requires ShowFits(show, b.lo)
  {
    forall cue: nat, frame: nat :: cue < |show.cues| && frame < |Stamps(show, cue)| ==>
      OutputsWithin(FrameOutputs(show, cue, frame, b.lo), b)
  }

  predicate Ranged(p: Player, b: Range) {
    OutputsWithin(p.actualValues.outputs, b) && OutputsWithin(p.lastValues.outputs, b)
  }

  /** The sigmoidal curve is normalised: it maps the way from 0 to 1 into itself. */
  ghost predicate Normalised(curve: real -> real) {
    forall r :: InUnit(r) ==> InUnit(curve(r))
  }

  // ----- one interpolated value -----

  lemma RoundBetween(x: real, lo: real, hi: real)
    requires Between(x, lo, hi) && Whole(lo) && Whole(hi)
    ensures Between(Round(x), lo, hi)
  {
    if x >= 0.0 {
      HalfUp(x, lo, hi);
    } else {
      WholeNegation(lo);
      WholeNegation(hi);
      HalfUp(-x, -hi, -lo);
    }
  }

  lemma HalfUp(x: real, lo: real, hi: real)
    requires Between(x, lo, hi) && Whole(lo) && Whole(hi)
    ensures Between((x + 0.5).Floor as real, lo, hi)
  {
    var l, h, f := lo.Floor, hi.Floor, (x + 0.5).Floor;
    assert f as real <= x + 0.5 < (f + 1) as real;
    assert l < f + 1;
    assert f < h + 1;
  }

  lemma BendInUnit(curve: real -> real, tr: TransitionType, rel: real)
    requires InUnit(rel) && Normalised(curve)
    ensures InUnit(Bend(curve, tr, rel))
  {
    SquareInUnit(rel);
    SquareInUnit(1.0 - rel);
  }

  lemma OnTheWayBetween(start: real, end: real, point: real, lo: real, hi: real)
    requires InUnit(point) && Between(start, lo, hi) && Between(end, lo, hi)
    ensures Between(OnTheWay(start, end, point), lo, hi)
  {
    MixBetween(start, end, point, lo, hi);
    assert OnTheWay(start, end, point) == Mix(start, end, point);
  }

  lemma ValueWithin(curve: real -> real, rounds: bool, rel: real, k: KeyFrame, start: real, lo: real, hi: real)
    requires InUnit(rel) && Normalised(curve) && (rounds ==> Whole(lo) && Whole(hi))
    requires Between(start, lo, hi) && Between(NumberOf(k), lo, hi)
    ensures Between(TransitionValue(curve, rounds, rel, k, start), lo, hi)
  {
    if k.transition != EDGE {
      BendInUnit(curve, k.transition, rel);
      var x := OnTheWay(start, NumberOf(k), Bend(curve, k.transition, rel));
      OnTheWayBetween(start, NumberOf(k), Bend(curve, k.transition, rel), lo, hi);
      if rounds {
        RoundBetween(x, lo, hi);
      }
    }
  }

  lemma TransitionRowWithin(curve: real -> real, rounds: bool, rel: real, table: seq<KeyFrame>, frame: nat,
                            last: seq<real>, lo: seq<real>, hi: seq<real>)
    requires InUnit(rel) && Normalised(curve) && (rounds ==> WholeRow(lo) && WholeRow(hi))
    requires (frame + 1) * |last| <= |table|
    requires RowWithin(last, lo, hi) && RowWithin(RowOf(table, |last|, frame), lo, hi)
    ensures RowWithin(TransitionRow(curve, rounds, rel, table, frame, last), lo, hi)
  {
    forall i | 0 <= i < |last|
      ensures Between(TransitionRow(curve, rounds, rel, table, frame, last)[i], lo[i], hi[i])
    {
      assert RowOf(table, |last|, frame)[i] == NumberOf(At(table, |last|, frame, i));
      ValueWithin(curve, rounds, rel, At(table, |last|, frame, i), last[i], lo[i], hi[i]);
    }
  }

  lemma TransitionWithin(show: Show, cue: nat, frame: nat, rel: real, last: Outputs, b: Range)
    requires ShowFits(show, b.lo) && RangeFits(b) && ShowWithin(show, b) && OutputsWithin(last, b)
    requires cue < |show.cues| && frame < |Stamps(show, cue)| && InUnit(rel) && Normalised(show.curve)
    ensures ShowFits(show, last) && OutputsWithin(TransitionOutputs(show, cue, frame, rel, last), b)
  {
    var c := show.cues[cue];
    assert c in show.cues;
    var row := FrameOutputs(show, cue, frame, b.lo);
    assert OutputsWithin(row, b);
    FrameInTable(|c.timestamps|, |last.eightBit|, frame);
    FrameInTable(|c.timestamps|, |last.sixteenBit|, frame);
    FrameInTable(|c.timestamps|, |last.float|, frame);
    TransitionRowWithin(show.curve, true, rel, c.eightBit, frame, last.eightBit, b.lo.eightBit, b.hi.eightBit);
    TransitionRowWithin(show.curve, true, rel, c.sixteenBit, frame, last.sixteenBit, b.lo.sixteenBit, b.hi.sixteenBit);
    TransitionRowWithin(show.curve, false, rel, c.float, frame, last.float, b.lo.float, b.hi.float);
  }

  // ----- steps -----

  datatype Step =
    | Cycle(time: real, scale: real)
    | PlayCommand(toNextCue: bool) | PauseCommand | StopCommand
    | RunCueCommand(next: nat) | NextCueCommand(next: nat)
    | Activate(defaultCue: nat)

  function Perform(show: Show, p: Player, step: Step): Player
    requires Valid(show, p)
  {
    match step
    case Cycle(time, scale) => Update(show, p, time, scale)
    case PlayCommand(toNextCue) => Play(show, p, toNextCue)
    case PauseCommand => Pause(p)
    case StopCommand => Stop(p)
    case RunCueCommand(next) => RunCue(show, p, next)
    case NextCueCommand(next) => SetNextCue(show, p, next)
    case Activate(defaultCue) => SceneActivated(show, p, defaultCue)
  }

  // ----- every run stays in bounds -----

  /** The step does not run the cue behind the last one, the index that `run_cue` lets through. */
  predicate InList(show: Show, step: Step) {
    step.RunCueCommand? ==> step.next != |show.cues|
  }

  predicate AllInList(show: Show, steps: seq<Step>) {
    forall step <- steps :: InList(show, step)
  }

  lemma StepKeepsValid(show: Show, p: Player, step: Step)
    requires Valid(show, p)
    ensures Valid(show, Perform(show, p, step)) <==> InList(show, step)
  {
    match step
    case Cycle(time, scale) => UpdateKeepsValid(show, p, time, scale);
    case PlayCommand(toNextCue) => PlayKeepsValid(show, p, toNextCue);
    case RunCueCommand(next) => RunCueKeepsValid(show, p, next);
    case Activate(defaultCue) => SceneActivatedKeepsValid(show, p, defaultCue);
    case _ =>
  }

  /** Every access is in bounds in every state that the steps lead through. */
  predicate InBounds(show: Show, p: Player, steps: seq<Step>)
    decreases |steps|
  {
    Valid(show, p) && (steps == [] || InBounds(show, Perform(show, p, steps[0]), steps[1..]))
  }

  /** Whatever the clock, the speeds and the commands: a run stays in bounds exactly when no step of it runs
      the cue behind the last one. */
  lemma {:induction false} EveryRunInBounds(show: Show, p: Player, steps: seq<Step>)
    requires Valid(show, p)
    ensures InBounds(show, p, steps) <==> AllInList(show, steps)
    decreases |steps|
  {
    if steps != [] {
      assert steps == [steps[0]] + steps[1..];
      StepKeepsValid(show, p, steps[0]);
      if InList(show, steps[0]) {
        EveryRunInBounds(show, Perform(show, p, steps[0]), steps[1..]);
      }
    }
  }

  lemma FirstStep(show: Show, p: Player, steps: seq<Step>)
    requires Valid(show, p) && AllInList(show, steps) && steps != []
    ensures Valid(show, Perform(show, p, steps[0])) && InList(show, steps[0]) && AllInList(show, steps[1..])
  {
    StepKeepsValid(show, p, steps[0]);
  }

  function Run(show: Show, p: Player, steps: seq<Step>): (q: Player)
    requires Valid(show, p) && AllInList(show, steps)
    ensures Valid(show, q)
    decreases |steps|
  {
    if steps == [] then p
    else
      FirstStep(show, p, steps);
      Run(show, Perform(show, p, steps[0]), steps[1..])
  }

  /** The clock does not go back, and no update jumps over a keyframe. */
  predicate OnTimeStep(show: Show, p: Player, step: Step)
    requires Valid(show, p)
  {
    step.Cycle? ==>
      && p.currentTime <= step.time
      && (p.runningState == PLAY ==> NoJump(show, p.(currentTime := step.time)))
  }

  predicate OnTimeRun(show: Show, p: Player, steps: seq<Step>)
    requires Valid(show, p) && AllInList(show, steps)
    decreases |steps|
  {
    if steps == [] then true
    else
      FirstStep(show, p, steps);
      OnTimeStep(show, p, steps[0]) && OnTimeRun(show, Perform(show, p, steps[0]), steps[1..])
  }

  lemma StepKeepsTimed(show: Show, p: Player, step: Step)
    requires Valid(show, p) && Timed(show, p) && InList(show, step) && OnTimeStep(show, p, step)
    ensures Valid(show, Perform(show, p, step)) && Timed(show, Perform(show, p, step))
  {
    match step
    case Cycle(time, scale) => UpdateKeepsTimed(show, p, time, scale);
    case PlayCommand(toNextCue) => PlayKeepsTimed(show, p, toNextCue);
    case RunCueCommand(next) => RunCueKeepsTimed(show, p, next);
    case Activate(defaultCue) => SceneActivatedKeepsTimed(show, p, defaultCue);
    case _ =>
  }

  // ----- every step keeps the range -----

  /** The outputs of the keyframe the filter stands at, whatever shape they are taken in. */
  lemma CurrentFrameWithin(show: Show, p: Player, b: Range)
    requires Valid(show, p) && InRange(show, p) && ShowFits(show, b.lo) && ShowWithin(show, b)
             && SameShape(b.lo, p.actualValues.outputs)
    ensures OutputsWithin(FrameOutputs(show, p.actualValues.cue, p.actualValues.frame, p.actualValues.outputs), b)
  {
    assert FrameOutputs(show, p.actualValues.cue, p.actualValues.frame, p.actualValues.outputs)
        == FrameOutputs(show, p.actualValues.cue, p.actualValues.frame, b.lo);
    assert OutputsWithin(FrameOutputs(show, p.actualValues.cue, p.actualValues.frame, b.lo), b);
  }

  lemma FinishKeepsRanged(show: Show, p: Player, b: Range)
    requires Valid(show, p) && InRange(show, p) && ShowFits(show, b.lo) && ShowWithin(show, b)
    requires SameShape(b.lo, p.actualValues.outputs) && Ranged(p, b)
    ensures Ranged(FinishFrame(show, p), b)
  {
    CurrentFrameWithin(show, p, b);
  }

  lemma EndKeepsRanged(show: Show, p: Player, b: Range)
    requires Valid(show, p) && InRange(show, p) && Ranged(p, b)
    ensures Ranged(LastFrameHandling(show, p).0, b)
  {
  }

  lemma ProceedKeepsRanged(show: Show, p: Player, b: Range)
    requires Valid(show, p) && p.runningState == PLAY && ShowFits(show, b.lo) && RangeFits(b) && ShowWithin(show, b)
    requires Ranged(p, b)
    ensures Ranged(Proceed(show, p).0, b)
  {
    var q := NoteStaleLast(p);
    assert SameShape(b.lo, p.actualValues.outputs);
    if FrameIsOver(show, q) {
      FinishKeepsRanged(show, q, b);
      var r := FinishFrame(show, q);
      assert Valid(show, r);
      if AtLastFrame(show, r) {
        EndKeepsRanged(show, r, b);
      }
    }
  }

  lemma CalcValuesKeepsRanged(show: Show, p: Player, b: Range)
    requires Valid(show, p) && p.runningState == PLAY && Timed(show, p) && Increasing(show) && NoJump(show, p)
    requires ShowFits(show, b.lo) && RangeFits(b) && ShowWithin(show, b) && Normalised(show.curve) && Ranged(p, b)
    ensures Ranged(CalcValues(show, p), b)
  {
    ProceedKeepsRanged(show, p, b);
    ProceedKeepsValid(show, p);
    var (q, plays) := Proceed(show, p);
    if plays {
      RelTimeInUnit(show, p);
      TransitionWithin(show, q.actualValues.cue, q.actualValues.frame, RelTime(show, q), q.lastValues.outputs, b);
    }
  }

  /** Commands and speed changes move values around but make no new ones. */
  lemma PlayKeepsRanged(show: Show, p: Player, toNextCue: bool, b: Range)
    requires Valid(show, p) && Ranged(p, b)
    ensures Ranged(Play(show, p, toNextCue), b)
  {
  }

  lemma UpdateKeepsRanged(show: Show, p: Player, time: real, scale: real, b: Range)
    requires Valid(show, p) && Timed(show, p) && Increasing(show) && OnTimeStep(show, p, Cycle(time, scale))
    requires ShowFits(show, b.lo) && RangeFits(b) && ShowWithin(show, b) && Normalised(show.curve) && Ranged(p, b)
    ensures Ranged(Update(show, p, time, scale), b)
  {
    var q := p.(currentTime := time);
    if q.runningState == PLAY {
      CalcValuesKeepsRanged(show, q, b);
    }
    UpdateStartsValid(show, p, time);
    FollowScaleKeepsRanged(show, if q.runningState == PLAY then CalcValues(show, q) else q, scale, b);
  }

  lemma FollowScaleKeepsRanged(show: Show, p: Player, scale: real, b: Range)
    requires Valid(show, p) && Ranged(p, b)
    ensures Ranged(FollowScale(show, p, scale), b)
  {
    PlayKeepsRanged(show, p.(scaleValid := true), false, b);
  }

  lemma StepKeepsRanged(show: Show, p: Player, step: Step, b: Range)
    requires Valid(show, p) && Timed(show, p) && Increasing(show) && OnTimeStep(show, p, step)
    requires ShowFits(show, b.lo) && RangeFits(b) && ShowWithin(show, b) && Normalised(show.curve) && Ranged(p, b)
    ensures Ranged(Perform(show, p, step), b)
  {
    match step
    case Cycle(time, scale) => UpdateKeepsRanged(show, p, time, scale, b);
    case PlayCommand(toNextCue) => PlayKeepsRanged(show, p, toNextCue, b);
    case _ =>
  }

  /** In every run, over pauses, restarts and speed changes, every output stays within the range spanned by
      the keyframes and the starting values of its channel. */
  lemma {:induction false} EveryRun(show: Show, p: Player, steps: seq<Step>, b: Range)
    requires Valid(show, p) && Timed(show, p) && Increasing(show) && AllInList(show, steps)
    requires OnTimeRun(show, p, steps)
    requires ShowFits(show, b.lo) && RangeFits(b) && ShowWithin(show, b) && Normalised(show.curve) && Ranged(p, b)
    ensures var q := Run(show, p, steps); Valid(show, q) && Timed(show, q) && Ranged(q, b)
    decreases |steps|
  {
    if steps != [] {
      FirstStep(show, p, steps);
      StepKeepsTimed(show, p, steps[0]);
      StepKeepsRanged(show, p, steps[0], b);
      EveryRun(show, Perform(show, p, steps[0]), steps[1..], b);
    }
  }

  // ----- the end of a cue -----

  /** The last update has interpolated: neither the outputs nor the last values are up to date with the
      keyframe ahead. */
  predicate Interpolated(p: Player) {
    !p.actualValues.updated && !p.lastValues.updated
  }

  /** An update that goes on playing has interpolated. */
  lemma PlayingUpdateInterpolates(show: Show, p: Player)
    requires Valid(show, p) && p.runningState == PLAY && HasChannels(p.actualValues.outputs)
    requires CalcValues(show, p).runningState == PLAY
    ensures Interpolated(CalcValues(show, p))
  {
    ProceedKeepsValid(show, p);
    var (q, plays) := Proceed(show, p);
    if FrameIsOver(show, NoteStaleLast(p)) && AtLastFrame(show, p) {
      EndKeepsValid(show, FinishFrame(show, NoteStaleLast(p)));
    }
  }

  /** The keyframe the cue stands at. */
  function CurrentKeyframe(show: Show, p: Player): Outputs
    requires Valid(show, p) && InRange(show, p)
  {
    FrameOutputs(show, p.actualValues.cue, p.actualValues.frame, p.actualValues.outputs)
  }

  /** When a cue ends in a hold, or the list at its end, the outputs take the values of the last keyframe,
      unless the filter has not interpolated since they were last held: then they stay as they are. */
  lemma EndsAtKeyframe(show: Show, p: Player)
    requires Valid(show, p) && p.runningState == PLAY && CalcValues(show, p).runningState != PLAY
    requires !p.lastValues.updated || LastIsStale(p)
    ensures AtLastFrame(show, p) && FrameIsOver(show, p)
    ensures CalcValues(show, p).actualValues.outputs ==
            if p.actualValues.updated then p.actualValues.outputs else CurrentKeyframe(show, p)
  {
    ProceedKeepsValid(show, p);
  }

  /** To play takes the cue up where it stands: it does not restart, and it is not looked on as finished. */
  predicate TakesUp(show: Show, p: Player)
    requires Valid(show, p)
  {
    match p.runningState
    case PLAY => show.cues[p.actualValues.cue].restartHandling == DO_NOTHING
    case PAUSE => InRange(show, ShiftPause(p)) && !LooksFinished(show, ShiftPause(p))
    case STOP => false
  }

  /** A positive speed other than the last one comes after one of zero or below, and plays. */
  predicate SpeedStarts(p: Player, scale: real) {
    !p.scaleValid && scale > 0.0 && scale != p.timeScale
  }

  /** Where the playback stands at the given time, before it follows the speed. */
  function Moved(show: Show, p: Player, time: real): (q: Player)
    requires Valid(show, p)
    ensures Valid(show, q)
  {
    UpdateStartsValid(show, p, time);
    var q := p.(currentTime := time);
    if q.runningState == PLAY then CalcValues(show, q) else q
  }

  /** Steps that neither start a cue from outside nor come to its end: updates that go on playing, pausing
      and resuming, and updates during the pause, at any speeds, those of zero and below included. */
  predicate StaysInCue(show: Show, p: Player, step: Step)
    requires Valid(show, p)
  {
    match step
    case Cycle(time, scale) =>
      && (p.runningState == PLAY ==> Moved(show, p, time).runningState == PLAY)
      && (SpeedStarts(p, scale) ==> TakesUp(show, Moved(show, p, time)))
    case PlayCommand(_) => p.scaleValid ==> TakesUp(show, p)
    case PauseCommand => true
    case NextCueCommand(_) => true
    case _ => false
  }

  predicate OnCue(show: Show, p: Player) {
    Valid(show, p) && p.runningState != STOP && HasChannels(p.actualValues.outputs)
  }

  lemma TakenUpKeepsInterpolated(show: Show, p: Player, toNextCue: bool)
    requires OnCue(show, p) && Interpolated(p) && (p.scaleValid ==> TakesUp(show, p))
    ensures OnCue(show, Play(show, p, toNextCue)) && Interpolated(Play(show, p, toNextCue))
  {
    PlayKeepsValid(show, p, toNextCue);
  }

  lemma SpeedKeepsInterpolated(show: Show, p: Player, scale: real)
    requires OnCue(show, p) && Interpolated(p) && (SpeedStarts(p, scale) ==> TakesUp(show, p))
    ensures OnCue(show, FollowScale(show, p, scale)) && Interpolated(FollowScale(show, p, scale))
  {
    if SpeedStarts(p, scale) {
      TakenUpKeepsInterpolated(show, p.(scaleValid := true), false);
    }
  }

  lemma MovedKeepsInterpolated(show: Show, p: Player, time: real)
    requires OnCue(show, p) && Interpolated(p)
    requires p.runningState == PLAY ==> Moved(show, p, time).runningState == PLAY
    ensures OnCue(show, Moved(show, p, time)) && Interpolated(Moved(show, p, time))
    ensures Moved(show, p, time).scaleValid == p.scaleValid && Moved(show, p, time).timeScale == p.timeScale
  {
    var q := p.(currentTime := time);
    if q.runningState == PLAY {
      PlayingUpdateInterpolates(show, q);
      CalcValuesKeepsValid(show, q);
      CalcValuesKeepsSpeed(show, q);
    }
  }

  lemma StayKeepsInterpolated(show: Show, p: Player, step: Step)
    requires OnCue(show, p) && Interpolated(p) && StaysInCue(show, p, step)
    ensures OnCue(show, Perform(show, p, step)) && Interpolated(Perform(show, p, step))
  {
    match step
    case Cycle(time, scale) =>
      MovedKeepsInterpolated(show, p, time);
      SpeedKeepsInterpolated(show, Moved(show, p, time), scale);
    case PlayCommand(toNextCue) =>
      TakenUpKeepsInterpolated(show, p, toNextCue);
    case _ =>
  }

  predicate StaysInCueRun(show: Show, p: Player, steps: seq<Step>)
    requires Valid(show, p) && AllInList(show, steps)
    decreases |steps|
  {
    if steps == [] then true
    else
      FirstStep(show, p, steps);
      StaysInCue(show, p, steps[0]) && StaysInCueRun(show, Perform(show, p, steps[0]), steps[1..])
  }

  /** A cue that has interpolated at least once, and then ends in a hold or at the end of the list, leaves
      every output exactly at its last keyframe, whatever pauses and speed changes lie between, speeds of
      zero and below included. */
  lemma {:induction false} HoldsLastKeyframe(show: Show, p: Player, steps: seq<Step>, time: real)
    requires OnCue(show, p) && Interpolated(p) && AllInList(show, steps) && StaysInCueRun(show, p, steps)
    requires var q := Run(show, p, steps).(currentTime := time);
             q.runningState == PLAY && CalcValues(show, q).runningState != PLAY
    ensures var q := Run(show, p, steps).(currentTime := time);
            AtLastFrame(show, q) && CalcValues(show, q).actualValues.outputs == CurrentKeyframe(show, q)
    decreases |steps|
  {
    if steps == [] {
      EndsAtKeyframe(show, p.(currentTime := time));
    } else {
      FirstStep(show, p, steps);
      StayKeepsInterpolated(show, p, steps[0]);
      HoldsLastKeyframe(show, Perform(show, p, steps[0]), steps[1..], time);
    }
  }
}
