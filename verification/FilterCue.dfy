/** The cue filter as an object: its methods change its fields step by step, and each one is proved to do
    what the playback functions say. */
module FilterCue {
  import opened CueParser
  import opened CuePlayback
  import CueTiming

  /** Takes over one row of keyframe values, channel by channel. */
  method CopyRow(table: seq<KeyFrame>, frame: nat, row0: seq<real>) returns (row: seq<real>)
    requires (frame + 1) * |row0| <= |table|
    ensures row == RowOf(table, |row0|, frame)
  {
    row := row0;
    for i := 0 to |row0|
      invariant |row| == |row0| && row[..i] == RowOf(table, |row0|, frame)[..i]
    {
      row := row[i := NumberOf(At(table, |row0|, frame, i))];
    }
  }

  /** Interpolates all channels of one type. */
  method CalcTransitions(curve: real -> real, rounds: bool, rel: real, table: seq<KeyFrame>, frame: nat,
                         last: seq<real>, row0: seq<real>) returns (row: seq<real>)
    requires (frame + 1) * |last| <= |table| && |row0| == |last|
    ensures row == TransitionRow(curve, rounds, rel, table, frame, last)
  {
    row := row0;
    for i := 0 to |row0|
      invariant |row| == |row0| && row[..i] == TransitionRow(curve, rounds, rel, table, frame, last)[..i]
    {
      row := row[i := TransitionValue(curve, rounds, rel, At(table, |last|, frame, i), last[i])];
    }
  }

  datatype RunMode = TO_PLAY | TO_NEXT_CUE | TO_PAUSE | TO_STOP

  class FilterCue {
    const show: Show
    var currentTime: real
    var startTime: real
    var pauseTime: real
    var timeScale: real
    var scaleValid: bool
    var lastValues: Frame
    var actualValues: Frame
    var nextCue: nat
    var endHandlingReal: EndHandling
    var runningState: RunState

    ghost function State(): Player
      reads this
    {
      Player(currentTime, startTime, pauseTime, timeScale, scaleValid, lastValues, actualValues,
             nextCue, endHandlingReal, runningState)
    }

    constructor (show: Show, zero: Outputs)
      requires ShowFits(show, zero)
      ensures this.show == show && Valid(show, State()) && CueTiming.Timed(show, State())
      ensures State() == Player(0.0, 0.0, 0.0, 1.0, true, Frame(zero, false, 0.0, 0xFFFF, 0xFFFF),
                                Frame(zero, false, 0.0, 0xFFFF, 0xFFFF), NO_CUE, START_AGAIN, STOP)
    {
      this.show := show;
      currentTime, startTime, pauseTime, timeScale, scaleValid := 0.0, 0.0, 0.0, 1.0, true;
      lastValues, actualValues := Frame(zero, false, 0.0, 0xFFFF, 0xFFFF), Frame(zero, false, 0.0, 0xFFFF, 0xFFFF);
      nextCue, endHandlingReal, runningState := NO_CUE, START_AGAIN, STOP;
    }

    method HoldValues()
      modifies this`actualValues
      ensures State() == UpdateHoldValues(old(State()))
    {
      if !actualValues.updated {
        actualValues := actualValues.(outputs := lastValues.outputs, updated := true);
      }
    }

    method KeepLastValues()
      modifies this`lastValues
      ensures State() == UpdateLastValues(old(State()))
    {
      lastValues := lastValues.(timeStamp := currentTime);
      if !lastValues.updated {
        lastValues := lastValues.(outputs := actualValues.outputs, frame := actualValues.frame,
                                  cue := actualValues.cue, updated := true);
      }
    }

    method TakeLastValuesFromCuelist()
      requires Valid(show, State()) && InRange(show, State())
      modifies this`lastValues
      ensures State() == UpdateLastValuesFromCuelist(show, old(State()))
    {
      var c, f, o := show.cues[actualValues.cue], actualValues.frame, actualValues.outputs;
      assert c in show.cues;
      FrameInTable(|c.timestamps|, |o.eightBit|, f);
      FrameInTable(|c.timestamps|, |o.sixteenBit|, f);
      FrameInTable(|c.timestamps|, |o.float|, f);
      var e := CopyRow(c.eightBit, f, lastValues.outputs.eightBit);
      var s := CopyRow(c.sixteenBit, f, lastValues.outputs.sixteenBit);
      var d := CopyRow(c.float, f, lastValues.outputs.float);
      lastValues := lastValues.(outputs := Outputs(e, s, d), frame := f, cue := actualValues.cue, updated := true);
    }

    method StartCue()
      requires |show.cues| >= 1
      modifies this
      ensures State() == ResetForStartingCue(show, old(State()))
    {
      KeepLastValues();
      startTime := currentTime;
      actualValues := actualValues.(frame := 0);
      if actualValues.cue >= |show.cues| {
        actualValues := actualValues.(cue := |show.cues| - 1);
      }
      if actualValues.cue < |show.cues| {
        endHandlingReal := show.cues[actualValues.cue].endHandling;
      }
    }

    method ChooseCue(cue: nat)
      modifies this`actualValues, this`nextCue
      ensures State() == GoToCue(show, old(State()), cue)
    {
      actualValues := actualValues.(cue := cue);
      if nextCue < |show.cues| {
        actualValues := actualValues.(cue := nextCue);
        nextCue := NO_CUE;
      }
    }

    method HandleLastFrame() returns (plays: bool)
      requires Valid(show, State()) && InRange(show, State())
      modifies this
      ensures (State(), plays) == LastFrameHandling(show, old(State()))
    {
      match endHandlingReal {
        case START_AGAIN =>
          ChooseCue(actualValues.cue);
        case HOLD =>
          HoldValues();
          pauseTime := currentTime;
          runningState := PAUSE;
          endHandlingReal := HOLDING;
          return false;
        case HOLDING =>
          return false;
        case NEXT_CUE =>
          if actualValues.cue < |show.cues| - 1 {
            ChooseCue(actualValues.cue + 1);
          } else if show.handleEnd == START_AGAIN {
            ChooseCue(0);
          } else {
            runningState := STOP;
            HoldValues();
            return false;
          }
      }
      StartCue();
      return true;
    }

    method FinishCurrentFrame()
      requires Valid(show, State()) && InRange(show, State())
      modifies this`lastValues
      ensures State() == FinishFrame(show, old(State()))
    {
      var due := show.cues[actualValues.cue].timestamps[actualValues.frame] / timeScale + startTime;
      if !lastValues.updated {
        TakeLastValuesFromCuelist();
      }
      lastValues := lastValues.(timeStamp := due);
    }

    method ProceedToFrame() returns (plays: bool)
      requires Valid(show, State()) && InRange(show, State())
      modifies this
      ensures (State(), plays) == Proceed(show, old(State()))
    {
      if lastValues.frame + 1 != actualValues.frame || lastValues.cue != actualValues.cue {
        lastValues := lastValues.(updated := false);
      }
      if currentTime >= show.cues[actualValues.cue].timestamps[actualValues.frame] / timeScale + startTime {
        FinishCurrentFrame();
        if actualValues.frame < |show.cues[actualValues.cue].timestamps| - 1 {
          actualValues := actualValues.(frame := actualValues.frame + 1);
        } else {
          plays := HandleLastFrame();
          return;
        }
      }
      return true;
    }

    method InterpolateOutputs()
      requires Valid(show, State()) && InRange(show, State())
      modifies this`lastValues, this`actualValues
      ensures State() == Interpolate(show, old(State()))
    {
      lastValues := lastValues.(updated := false);
      var c, f, o := show.cues[actualValues.cue], actualValues.frame, actualValues.outputs;
      var l := lastValues.outputs;
      var way := c.timestamps[f] / timeScale + startTime - lastValues.timeStamp;
      var rel := if way <= 0.0 then 1.0 else (currentTime - lastValues.timeStamp) / way;
      assert c in show.cues;
      FrameInTable(|c.timestamps|, |o.eightBit|, f);
      FrameInTable(|c.timestamps|, |o.sixteenBit|, f);
      FrameInTable(|c.timestamps|, |o.float|, f);
      var e := CalcTransitions(show.curve, true, rel, c.eightBit, f, l.eightBit, o.eightBit);
      var s := CalcTransitions(show.curve, true, rel, c.sixteenBit, f, l.sixteenBit, o.sixteenBit);
      var d := CalcTransitions(show.curve, false, rel, c.float, f, l.float, o.float);
      actualValues := actualValues.(outputs := Outputs(e, s, d));
      if HasChannels(actualValues.outputs) {
        actualValues := actualValues.(updated := false);
      }
    }

    method CalcAllValues()
      requires Valid(show, State()) && runningState == PLAY
      modifies this
      ensures State() == CalcValues(show, old(State()))
    {
      ProceedKeepsValid(show, State());
      var plays := ProceedToFrame();
      if plays {
        InterpolateOutputs();
      }
    }

    method ResumeCue()
      requires Valid(show, State()) && InRange(show, State())
      modifies this
      ensures State() == Resume(show, old(State()))
    {
      startTime := startTime + (currentTime - pauseTime);
      lastValues := lastValues.(timeStamp := lastValues.timeStamp + (currentTime - pauseTime));
      var stamps := show.cues[actualValues.cue].timestamps;
      if currentTime >= stamps[|stamps| - 1] + startTime {
        var end := show.cues[actualValues.cue].endHandling;
        if end == NEXT_CUE || end == HOLD {
          ChooseCue(if actualValues.cue < |show.cues| - 1 then actualValues.cue + 1 else 0);
        }
        StartCue();
      }
    }

    method PlayMode(toNextCue: bool)
      requires Valid(show, State()) && scaleValid
      modifies this
      ensures State() == Play(show, old(State()), toNextCue)
    {
      ghost var before := State();
      match runningState {
        case STOP =>
          ChooseCue(0);
          ResetIsInRange(show, State());
          StartCue();
        case PLAY =>
          ResetIsInRange(show, State());
          if show.cues[actualValues.cue].restartHandling == START_FROM_BEGIN {
            StartCue();
          }
        case PAUSE =>
          ResumeKeepsRange(show, before);
          ResumeCue();
      }
      runningState := PLAY;
      endHandlingReal := show.cues[actualValues.cue].endHandling;
      if toNextCue {
        endHandlingReal := HOLD;
      }
    }

    /** The `run_mode` parameter of the GUI; the flag tells whether the command was accepted. */
    method SetRunMode(mode: RunMode) returns (accepted: bool)
      requires Valid(show, State())
      modifies this
      ensures Valid(show, State())
      ensures State() == match mode
                         case TO_PLAY => Play(show, old(State()), false)
                         case TO_NEXT_CUE => Play(show, old(State()), true)
                         case TO_PAUSE => Pause(old(State()))
                         case TO_STOP => Stop(old(State()))
      ensures mode == TO_STOP ==> State() == old(State()).(runningState := STOP)
      ensures mode == TO_PAUSE ==>
                State() == if old(runningState) == PLAY
                           then old(State()).(runningState := PAUSE, pauseTime := old(currentTime)) else old(State())
      ensures (mode == TO_PLAY || mode == TO_NEXT_CUE) && !old(scaleValid) ==> State() == old(State())
      ensures accepted <==> match mode
                            case TO_PLAY => old(scaleValid)
                            case TO_NEXT_CUE => old(scaleValid)
                            case TO_PAUSE => old(runningState) != STOP
                            case TO_STOP => true
    {
      if (mode == TO_PLAY || mode == TO_NEXT_CUE) && scaleValid {
        PlayKeepsValid(show, State(), mode == TO_NEXT_CUE);
        PlayMode(mode == TO_NEXT_CUE);
        return true;
      }
      if mode == TO_PAUSE {
        if runningState == STOP {
          return false;
        }
        if runningState == PLAY {
          runningState := PAUSE;
          pauseTime := currentTime;
        }
        return true;
      }
      if mode == TO_STOP {
        runningState := STOP;
        return true;
      }
      return false;
    }

    /** The `run_cue` parameter; `thrown` tells of the exception that the missing cue causes. */
    method SetRunCue(next: nat) returns (accepted: bool, thrown: bool)
      requires Valid(show, State()) && next <= 0xFFFF
      modifies this
      ensures State() == RunCue(show, old(State()), next)
      ensures accepted <==> next < |show.cues|
      ensures thrown <==> next == |show.cues|
      ensures Valid(show, State()) <==> !thrown
      ensures next > |show.cues| ==> State() == old(State())
    {
      RunCueKeepsValid(show, State(), next);
      if next > |show.cues| {
        return false, false;
      }
      StartCue();
      actualValues := actualValues.(cue := next);
      runningState := PLAY;
      if next == |show.cues| {
        return false, true;
      }
      endHandlingReal := show.cues[actualValues.cue].endHandling;
      return true, false;
    }

    method ChooseNextCue(next: nat) returns (accepted: bool)
      requires next <= 0xFFFF
      modifies this`nextCue
      ensures State() == SetNextCue(show, old(State()), next)
      ensures accepted <==> next <= |show.cues|
      ensures nextCue == if next <= |show.cues| then next else old(nextCue)
    {
      if next > |show.cues| {
        return false;
      }
      nextCue := next;
      return true;
    }

    method Activate(defaultCue: nat)
      requires Valid(show, State())
      modifies this
      ensures State() == SceneActivated(show, old(State()), defaultCue) && Valid(show, State())
    {
      SceneActivatedKeepsValid(show, State(), defaultCue);
      runningState := PLAY;
      actualValues := actualValues.(cue := defaultCue);
      StartCue();
    }

    method ChangeSpeed(scale: real)
      requires scale > 0.0
      modifies this
      ensures State() == Rescale(old(State()), scale)
    {
      startTime := AtNewSpeed(currentTime, startTime, timeScale, scale);
      pauseTime := AtNewSpeed(currentTime, pauseTime, timeScale, scale);
      lastValues := lastValues.(timeStamp := AtNewSpeed(currentTime, lastValues.timeStamp, timeScale, scale));
      timeScale := scale;
    }

    method FollowSpeed(scale: real)
      requires Valid(show, State())
      modifies this
      ensures State() == FollowScale(show, old(State()), scale)
    {
      if scale != timeScale {
        if scale <= 0.0 && scaleValid {
          var accepted := SetRunMode(TO_PAUSE);
          scaleValid := false;
        } else if scale > 0.0 {
          if !scaleValid {
            scaleValid := true;
            var accepted := SetRunMode(TO_PLAY);
          }
          ChangeSpeed(scale);
        }
      }
    }

    /** One cycle: reads the clock and the speed. */
    method Cycle(time: real, scale: real)
      requires Valid(show, State())
      modifies this
      ensures State() == Update(show, old(State()), time, scale) && Valid(show, State())
    {
      UpdateStartsValid(show, State(), time);
      UpdateKeepsValid(show, State(), time, scale);
      currentTime := time;
      if runningState == PLAY {
        CalcAllValues();
      }
      FollowSpeed(scale);
    }
  }
}
