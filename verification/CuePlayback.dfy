/** Playback of a cue list, as a function from state to state: playing, pausing, holding, changing cues
    and following a changing speed. Doubles are real numbers; only numeric channels are covered. */
module CuePlayback {
  import opened CueParser

  // ----- the state of a cue filter -----

  /** The output values of the numeric channels. */
  datatype Outputs = Outputs(eightBit: seq<real>, sixteenBit: seq<real>, float: seq<real>)

  datatype Frame = Frame(outputs: Outputs, updated: bool, timeStamp: real, cue: nat, frame: nat)

  datatype RunState = STOP | PLAY | PAUSE

  datatype Player = Player(
    currentTime: real, startTime: real, pauseTime: real,
    timeScale: real, scaleValid: bool,
    lastValues: Frame, actualValues: Frame,
    nextCue: nat, endHandlingReal: EndHandling, runningState: RunState)

  /** What the configuration fixes: the cues, what happens at the end of the list, the sigmoidal curve. */
  datatype Show = Show(cues: seq<Cue>, handleEnd: EndHandling, curve: real -> real)

  const NO_CUE := 0xFFFF

  function NumberOf(f: KeyFrame): real {
    match f.value case Number(x) => x case Pixel(_, _, _) => 0.0
  }

  function Stamps(show: Show, cue: nat): seq<real>
    requires cue < |show.cues|
  {
    show.cues[cue].timestamps
  }

  /** A table holds a row of `count` frames for each time stamp. */
  predicate Filled(table: seq<KeyFrame>, stamps: nat, count: nat) {
    |table| == stamps * count
  }

  /** All tables of all cues are complete for the given numbers of channels, and no cue is empty. */
  predicate ShowFits(show: Show, o: Outputs) {
    && |show.cues| >= 1
    && (show.handleEnd == HOLD || show.handleEnd == START_AGAIN)
    && forall c <- show.cues :: CueFits(c, o)
  }

  predicate CueFits(c: Cue, o: Outputs) {
    && |c.timestamps| >= 1
    && c.endHandling != HOLDING
    && Filled(c.eightBit, |c.timestamps|, |o.eightBit|)
    && Filled(c.sixteenBit, |c.timestamps|, |o.sixteenBit|)
    && Filled(c.float, |c.timestamps|, |o.float|)
  }

  predicate SameShape(a: Outputs, b: Outputs) {
    |a.eightBit| == |b.eightBit| && |a.sixteenBit| == |b.sixteenBit| && |a.float| == |b.float|
  }

  /** The current cue and frame exist. */
  predicate InRange(show: Show, p: Player) {
    p.actualValues.cue < |show.cues| && p.actualValues.frame < |Stamps(show, p.actualValues.cue)|
  }

  /** Every access of the playback is in bounds: unless stopped, the filter stands at a frame that exists. */
  predicate Valid(show: Show, p: Player) {
    && ShowFits(show, p.actualValues.outputs)
    && SameShape(p.lastValues.outputs, p.actualValues.outputs)
    && p.timeScale > 0.0
    && (p.runningState != STOP ==> InRange(show, p))
    && (p.runningState == PLAY ==> p.endHandlingReal != HOLDING)
  }

  // ----- outputs -----

  function RowOf(table: seq<KeyFrame>, count: nat, frame: nat): (row: seq<real>)
    requires (frame + 1) * count <= |table|
    ensures |row| == count
  {
    seq(count, i requires 0 <= i < count => NumberOf(At(table, count, frame, i)))
  }

  function At(table: seq<KeyFrame>, count: nat, frame: nat, i: nat): KeyFrame
    requires (frame + 1) * count <= |table| && i < count
  {
    RowInTable(count, frame, i);
    table[frame * count + i]
  }

  lemma RowInTable(count: nat, frame: nat, i: nat)
    requires i < count
    ensures frame * count + i < (frame + 1) * count
  {
  }

  lemma FrameInTable(stamps: nat, count: nat, frame: nat)
    requires frame < stamps
    ensures (frame + 1) * count <= stamps * count
  {
  }

  /** The values of the cue list at the current frame. */
  function FrameOutputs(show: Show, cue: nat, frame: nat, shape: Outputs): (o: Outputs)
    requires ShowFits(show, shape) && cue < |show.cues| && frame < |Stamps(show, cue)|
    ensures SameShape(o, shape)
  {
    var c := show.cues[cue];
    assert c in show.cues;
    FrameInTable(|c.timestamps|, |shape.eightBit|, frame);
    FrameInTable(|c.timestamps|, |shape.sixteenBit|, frame);
    FrameInTable(|c.timestamps|, |shape.float|, frame);
    Outputs(RowOf(c.eightBit, |shape.eightBit|, frame), RowOf(c.sixteenBit, |shape.sixteenBit|, frame),
            RowOf(c.float, |shape.float|, frame))
  }

  /** std::round: halves away from zero. */
  function Round(x: real): real {
    if x >= 0.0 then (x + 0.5).Floor as real else -((-x + 0.5).Floor as real)
  }

  /** The relative time bent by the transition type. */
  function Bend(curve: real -> real, tr: TransitionType, rel: real): real {
    match tr
    case EDGE => if rel < 1.0 then 0.0 else 1.0
    case LINEAR => rel
    case SIGMOIDAL => curve(rel)
    case EASE_IN => rel * rel
    case EASE_OUT => 1.0 - (1.0 - rel) * (1.0 - rel)
  }

  function OnTheWay(start: real, end: real, point: real): real {
    (end - start) * point + start
  }

  /** One channel on its way from the last value to the value of the keyframe. */
  function TransitionValue(curve: real -> real, rounds: bool, rel: real, k: KeyFrame, start: real): real {
    var end := NumberOf(k);
    if k.transition == EDGE then (if rel < 1.0 then start else end)
    else
      var x := OnTheWay(start, end, Bend(curve, k.transition, rel));
      if rounds then Round(x) else x
  }

  function TransitionRow(curve: real -> real, rounds: bool, rel: real, table: seq<KeyFrame>, frame: nat,
                         last: seq<real>): (row: seq<real>)
    requires (frame + 1) * |last| <= |table|
    ensures |row| == |last|
  {
    seq(|last|, i requires 0 <= i < |last| => TransitionValue(curve, rounds, rel, At(table, |last|, frame, i), last[i]))
  }

  function TransitionOutputs(show: Show, cue: nat, frame: nat, rel: real, last: Outputs): (o: Outputs)
    requires ShowFits(show, last) && cue < |show.cues| && frame < |Stamps(show, cue)|
    ensures SameShape(o, last)
  {
    var c := show.cues[cue];
    assert c in show.cues;
    FrameInTable(|c.timestamps|, |last.eightBit|, frame);
    FrameInTable(|c.timestamps|, |last.sixteenBit|, frame);
    FrameInTable(|c.timestamps|, |last.float|, frame);
    Outputs(TransitionRow(show.curve, true, rel, c.eightBit, frame, last.eightBit),
            TransitionRow(show.curve, true, rel, c.sixteenBit, frame, last.sixteenBit),
            TransitionRow(show.curve, false, rel, c.float, frame, last.float))
  }

  predicate HasChannels(o: Outputs) {
    o.eightBit != [] || o.sixteenBit != [] || o.float != []
  }

  // ----- the steps of the playback -----

  function UpdateHoldValues(p: Player): Player {
    if p.actualValues.updated then p
    else p.(actualValues := p.actualValues.(outputs := p.lastValues.outputs, updated := true))
  }

  function UpdateLastValues(p: Player): Player {
    var last := p.lastValues.(timeStamp := p.currentTime);
    p.(lastValues :=
      if last.updated then last
      else Frame(p.actualValues.outputs, true, p.currentTime, p.actualValues.cue, p.actualValues.frame))
  }

  function UpdateLastValuesFromCuelist(show: Show, p: Player): Player
    requires Valid(show, p) && InRange(show, p)
  {
    var a := p.actualValues;
    p.(lastValues := Frame(FrameOutputs(show, a.cue, a.frame, a.outputs), true, p.lastValues.timeStamp, a.cue, a.frame))
  }

  function ResetForStartingCue(show: Show, p: Player): Player
    requires |show.cues| >= 1
  {
    var q := UpdateLastValues(p);
    var cue := if q.actualValues.cue >= |show.cues| then |show.cues| - 1 else q.actualValues.cue;
    q.(startTime := q.currentTime, actualValues := q.actualValues.(frame := 0, cue := cue),
       endHandlingReal := show.cues[cue].endHandling)
  }

  /** Moves to the given cue, or to the one asked for with `next_cue`. */
  function GoToCue(show: Show, p: Player, cue: nat): Player {
    if p.nextCue < |show.cues| then p.(actualValues := p.actualValues.(cue := p.nextCue), nextCue := NO_CUE)
    else p.(actualValues := p.actualValues.(cue := cue))
  }

  function StopHere(p: Player, s: RunState): Player {
    UpdateHoldValues(p).(runningState := s)
  }

  /** The end of a cue. The flag tells whether playing goes on at once. */
  function LastFrameHandling(show: Show, p: Player): (Player, bool)
    requires Valid(show, p) && InRange(show, p)
  {
    match p.endHandlingReal
    case START_AGAIN => (ResetForStartingCue(show, GoToCue(show, p, p.actualValues.cue)), true)
    case HOLD => (StopHere(p.(pauseTime := p.currentTime), PAUSE).(endHandlingReal := HOLDING), false)
    case HOLDING => (p, false)
    case NEXT_CUE =>
      if p.actualValues.cue < |show.cues| - 1 then
        (ResetForStartingCue(show, GoToCue(show, p, p.actualValues.cue + 1)), true)
      else if show.handleEnd == START_AGAIN then (ResetForStartingCue(show, GoToCue(show, p, 0)), true)
      else (StopHere(p, STOP), false)
  }

  /** When the keyframe is due. */
  function Due(show: Show, p: Player, frame: nat): real
    requires p.timeScale > 0.0 && p.actualValues.cue < |show.cues| && frame < |Stamps(show, p.actualValues.cue)|
  {
    Stamps(show, p.actualValues.cue)[frame] / p.timeScale + p.startTime
  }

  predicate FrameIsOver(show: Show, p: Player)
    requires p.timeScale > 0.0 && InRange(show, p)
  {
    p.currentTime >= Due(show, p, p.actualValues.frame)
  }

  predicate AtLastFrame(show: Show, p: Player)
    requires InRange(show, p)
  {
    p.actualValues.frame == |Stamps(show, p.actualValues.cue)| - 1
  }

  /** The part of the way to the keyframe that is done. */
  function RelTime(show: Show, p: Player): real
    requires p.timeScale > 0.0 && InRange(show, p)
  {
    var way := Due(show, p, p.actualValues.frame) - p.lastValues.timeStamp;
    if way <= 0.0 then 1.0 else (p.currentTime - p.lastValues.timeStamp) / way
  }

  /** The last values no longer belong to the frame before the current one. */
  predicate LastIsStale(p: Player) {
    p.lastValues.frame + 1 != p.actualValues.frame || p.lastValues.cue != p.actualValues.cue
  }

  function NoteStaleLast(p: Player): Player {
    if LastIsStale(p) then p.(lastValues := p.lastValues.(updated := false)) else p
  }

  /** Takes the keyframe that is over as the start of the next transition. */
  function FinishFrame(show: Show, p: Player): Player
    requires Valid(show, p) && InRange(show, p)
  {
    var q := if p.lastValues.updated then p else UpdateLastValuesFromCuelist(show, p);
    q.(lastValues := q.lastValues.(timeStamp := Due(show, p, p.actualValues.frame)))
  }

  function Interpolate(show: Show, p: Player): Player
    requires Valid(show, p) && InRange(show, p)
  {
    var a := p.actualValues;
    var o := TransitionOutputs(show, a.cue, a.frame, RelTime(show, p), p.lastValues.outputs);
    p.(lastValues := p.lastValues.(updated := false),
       actualValues := a.(outputs := o, updated := a.updated && !HasChannels(o)))
  }

  /** The frame to play from: the current one, the next one, or that of another cue. The flag tells
      whether there is one. */
  function Proceed(show: Show, p: Player): (Player, bool)
    requires Valid(show, p) && InRange(show, p)
  {
    var q := NoteStaleLast(p);
    if !FrameIsOver(show, q) then (q, true)
    else
      var r := FinishFrame(show, q);
      if !AtLastFrame(show, r) then (r.(actualValues := r.actualValues.(frame := r.actualValues.frame + 1)), true)
      else LastFrameHandling(show, r)
  }

  lemma ProceedKeepsValid(show: Show, p: Player)
    requires Valid(show, p) && p.runningState == PLAY
    ensures var (q, plays) := Proceed(show, p);
            && Valid(show, q) && (plays ==> q.runningState == PLAY)
            && SameShape(q.actualValues.outputs, p.actualValues.outputs)
  {
    var q := NoteStaleLast(p);
    if FrameIsOver(show, q) {
      var r := FinishFrame(show, q);
      assert Valid(show, r);
      if AtLastFrame(show, r) {
        EndKeepsValid(show, r);
      }
    }
  }

  lemma EndKeepsValid(show: Show, p: Player)
    requires Valid(show, p) && p.runningState == PLAY
    ensures var (q, plays) := LastFrameHandling(show, p);
            && Valid(show, q) && (plays ==> q.runningState == PLAY) && (!plays ==> q.runningState != PLAY)
            && SameShape(q.actualValues.outputs, p.actualValues.outputs)
  {
    match p.endHandlingReal
    case START_AGAIN => StartKeepsValid(show, p, p.actualValues.cue);
    case HOLD => StopKeepsValid(show, p.(pauseTime := p.currentTime), PAUSE, HOLDING);
    case HOLDING =>
    case NEXT_CUE =>
      StartKeepsValid(show, p, p.actualValues.cue + 1);
      StartKeepsValid(show, p, 0);
      StopKeepsValid(show, p, STOP, p.endHandlingReal);
  }

  lemma StopKeepsValid(show: Show, p: Player, s: RunState, end: EndHandling)
    requires Valid(show, p) && p.runningState == PLAY && s != PLAY
    ensures var q := StopHere(p, s).(endHandlingReal := end);
            Valid(show, q) && q.runningState == s && SameShape(q.actualValues.outputs, p.actualValues.outputs)
  {
  }

  lemma StartKeepsValid(show: Show, p: Player, cue: nat)
    requires Valid(show, p) && p.runningState == PLAY
    ensures var q := ResetForStartingCue(show, GoToCue(show, p, cue));
            Valid(show, q) && q.runningState == PLAY && SameShape(q.actualValues.outputs, p.actualValues.outputs)
  {
    ResetIsInRange(show, GoToCue(show, p, cue));
  }

  function CalcValues(show: Show, p: Player): Player
    requires Valid(show, p) && p.runningState == PLAY
  {
    var (q, plays) := Proceed(show, p);
    ProceedKeepsValid(show, p);
    if plays then Interpolate(show, q) else q
  }

  lemma CalcValuesKeepsValid(show: Show, p: Player)
    requires Valid(show, p) && p.runningState == PLAY
    ensures Valid(show, CalcValues(show, p))
    ensures SameShape(CalcValues(show, p).actualValues.outputs, p.actualValues.outputs)
  {
    ProceedKeepsValid(show, p);
  }

  // ----- commands -----

  /** `run_mode` set to play, or to play up to the end of the cue. */
  function Play(show: Show, p: Player, toNextCue: bool): Player
    requires Valid(show, p)
  {
    if !p.scaleValid then p
    else
      var q := match p.runningState
               case STOP => ResetForStartingCue(show, GoToCue(show, p, 0))
               case PLAY =>
                 if show.cues[p.actualValues.cue].restartHandling == DO_NOTHING then p
                 else ResetForStartingCue(show, p)
               case PAUSE => Resume(show, p);
      q.(runningState := PLAY,
         endHandlingReal :=
           if toNextCue then HOLD
           else if q.actualValues.cue < |show.cues| then show.cues[q.actualValues.cue].endHandling
           else HOLD)
  }

  /** Shifts the times by the length of the pause. */
  function ShiftPause(p: Player): Player {
    var d := p.currentTime - p.pauseTime;
    p.(startTime := p.startTime + d, lastValues := p.lastValues.(timeStamp := p.lastValues.timeStamp + d))
  }

  /** The test for a finished cue: it looks at the unscaled time. */
  predicate LooksFinished(show: Show, p: Player)
    requires InRange(show, p)
  {
    var stamps := Stamps(show, p.actualValues.cue);
    p.currentTime >= stamps[|stamps| - 1] + p.startTime
  }

  function Resume(show: Show, p: Player): Player
    requires Valid(show, p) && InRange(show, p)
  {
    var q := ShiftPause(p);
    if !LooksFinished(show, q) then q
    else
      var cue := q.actualValues.cue;
      var end := show.cues[cue].endHandling;
      ResetForStartingCue(show,
        if end == NEXT_CUE || end == HOLD then GoToCue(show, q, if cue < |show.cues| - 1 then cue + 1 else 0) else q)
  }

  function Pause(p: Player): Player {
    if p.runningState == PLAY then p.(runningState := PAUSE, pauseTime := p.currentTime) else p
  }

  function Stop(p: Player): Player {
    p.(runningState := STOP)
  }

  /** `run_cue`; one index too far is let through. */
  function RunCue(show: Show, p: Player, next: nat): Player
    requires Valid(show, p)
  {
    if next > |show.cues| then p
    else
      var q := ResetForStartingCue(show, p);
      q.(actualValues := q.actualValues.(cue := next), runningState := PLAY,
         endHandlingReal := if next < |show.cues| then show.cues[next].endHandling else q.endHandlingReal)
  }

  function SetNextCue(show: Show, p: Player, next: nat): Player {
    if next > |show.cues| then p else p.(nextCue := next)
  }

  /** A scene with a default cue starts it when it is switched on. */
  function SceneActivated(show: Show, p: Player, defaultCue: nat): Player
    requires Valid(show, p)
  {
    ResetForStartingCue(show, p.(runningState := PLAY, actualValues := p.actualValues.(cue := defaultCue)))
  }

  // ----- one cycle -----

  function Rescaled(p: Player, t: real, scale: real): real
    requires scale > 0.0
  {
    AtNewSpeed(p.currentTime, t, p.timeScale, scale)
  }

  /** The moment as far back at the new speed as `t` was at the old one. */
  function AtNewSpeed(now: real, t: real, before: real, scale: real): real
    requires scale > 0.0
  {
    now - (now - t) * before / scale
  }

  /** Changes the speed without moving within the cue. */
  function Rescale(p: Player, scale: real): Player
    requires scale > 0.0
  {
    p.(startTime := Rescaled(p, p.startTime, scale), pauseTime := Rescaled(p, p.pauseTime, scale),
       lastValues := p.lastValues.(timeStamp := Rescaled(p, p.lastValues.timeStamp, scale)), timeScale := scale)
  }

  function FollowScale(show: Show, p: Player, scale: real): Player
    requires Valid(show, p)
  {
    if scale == p.timeScale then p
    else if scale <= 0.0 then
      if p.scaleValid then Pause(p).(scaleValid := false) else p
    else
      Rescale(if p.scaleValid then p else Play(show, p.(scaleValid := true), false), scale)
  }

  function Update(show: Show, p: Player, time: real, scale: real): Player
    requires Valid(show, p)
  {
    var q := p.(currentTime := time);
    var r := if q.runningState == PLAY then CalcValues(show, q) else q;
    UpdateStartsValid(show, p, time);
    FollowScale(show, r, scale)
  }

  lemma UpdateStartsValid(show: Show, p: Player, time: real)
    requires Valid(show, p)
    ensures var q := p.(currentTime := time);
            Valid(show, q) && (q.runningState == PLAY ==> Valid(show, CalcValues(show, q)))
  {
    var q := p.(currentTime := time);
    if q.runningState == PLAY {
      CalcValuesKeepsValid(show, q);
    }
  }

  // ----- every command keeps every access in bounds -----

  lemma ResetIsInRange(show: Show, p: Player)
    requires ShowFits(show, p.actualValues.outputs)
    ensures InRange(show, ResetForStartingCue(show, p))
    ensures ResetForStartingCue(show, p).endHandlingReal != HOLDING
  {
    assert forall i :: 0 <= i < |show.cues| ==> show.cues[i] in show.cues;
  }

  lemma PlayKeepsValid(show: Show, p: Player, toNextCue: bool)
    requires Valid(show, p)
    ensures Valid(show, Play(show, p, toNextCue))
  {
    if p.scaleValid {
      match p.runningState
      case STOP =>
        ResetIsInRange(show, GoToCue(show, p, 0));
      case PLAY =>
        ResetIsInRange(show, p);
        assert show.cues[p.actualValues.cue] in show.cues;
      case PAUSE =>
        ResumeKeepsRange(show, p);
    }
  }

  lemma ResumeKeepsRange(show: Show, p: Player)
    requires Valid(show, p) && InRange(show, p)
    ensures var q := Resume(show, p);
            && InRange(show, q) && SameShape(q.lastValues.outputs, q.actualValues.outputs)
            && q.actualValues.outputs == p.actualValues.outputs && q.timeScale == p.timeScale
            && show.cues[q.actualValues.cue] in show.cues
  {
    var q := ShiftPause(p);
    var cue := q.actualValues.cue;
    ResetIsInRange(show, q);
    ResetIsInRange(show, GoToCue(show, q, if cue < |show.cues| - 1 then cue + 1 else 0));
  }

  /** `run_cue` keeps the filter within its cue list exactly when the index is not the number of cues:
      that index passes the test although there is no such cue. */
  lemma RunCueKeepsValid(show: Show, p: Player, next: nat)
    requires Valid(show, p)
    ensures Valid(show, RunCue(show, p, next)) <==> next != |show.cues|
  {
    ResetIsInRange(show, p);
    assert forall i :: 0 <= i < |show.cues| ==> show.cues[i] in show.cues;
  }

  lemma UpdateKeepsValid(show: Show, p: Player, time: real, scale: real)
    requires Valid(show, p)
    ensures Valid(show, Update(show, p, time, scale))
  {
    UpdateStartsValid(show, p, time);
    var q := p.(currentTime := time);
    var r := if q.runningState == PLAY then CalcValues(show, q) else q;
    PlayKeepsValid(show, r.(scaleValid := true), false);
  }

  lemma SceneActivatedKeepsValid(show: Show, p: Player, defaultCue: nat)
    requires Valid(show, p)
    ensures Valid(show, SceneActivated(show, p, defaultCue))
  {
    ResetIsInRange(show, p.(actualValues := p.actualValues.(cue := defaultCue)));
  }
}
