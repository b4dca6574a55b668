/** The beat tracker keeps beating: predictions are answered, and no long stretch is without a beat. */
module BeatLiveness {
  import opened BeatTracker

  predicate AllFrames(inputs: seq<Input>) {
    forall i <- inputs :: i.Frame?
  }

  lemma {:induction false} LogGrows(t: Timers, inputs: seq<Input>, last: Timers)
    requires Consistent(t) && Leads(t, inputs, last)
    ensures t.log <= last.log
    decreases |inputs|
  {
    if inputs != [] {
      AfterKeepsConsistent(t, inputs[0]);
      LogGrows(After(t, inputs[0]), inputs[1..], last);
    }
  }

  lemma QuietFrame(t: Timers, i: Input)
    requires Consistent(t) && WaitsForBeat(t.log) && t.toBeat > 1 && Possible(t, i) && i.Frame?
    ensures After(t, i) == CountDown(t) && WaitsForBeat(After(t, i).log)
  {
  }

  lemma BeatFrame(t: Timers, i: Input)
    requires Consistent(t) && WaitsForBeat(t.log) && t.toBeat == 1 && Possible(t, i) && i.Frame?
    ensures After(t, i).log == t.log + [Beat(t.frame + 1)]
  {
  }

  /** A prediction is answered exactly when no tempo is set before the beat is due, and then after the
      frames its timer says, within 64 frames of being made. What comes next otherwise is the tempo. */
  lemma {:induction false} PredictionIsAnswered(t: Timers, inputs: seq<Input>, last: Timers)
    requires Consistent(t) && WaitsForBeat(t.log) && Leads(t, inputs, last) && t.toBeat <= |inputs|
    ensures t.log < last.log && (last.log[|t.log|].Beat? <==> AllFrames(inputs[..t.toBeat]))
    ensures if last.log[|t.log|].Beat? then last.log[|t.log|] == Beat(t.frame + t.toBeat)
            else last.log[|t.log|].TempoSet?
    ensures t.frame + t.toBeat - t.log[|t.log| - 1].frame <= 64
    decreases |inputs|
  {
    var next, due := After(t, inputs[0]), inputs[..t.toBeat];
    AfterKeepsConsistent(t, inputs[0]);
    assert due[0] == inputs[0] && due[0] in due;
    if inputs[0].SetTempo? {
      assert next.log == t.log + [TempoSet(t.frame)];
      LogGrows(next, inputs[1..], last);
    } else if t.toBeat == 1 {
      BeatFrame(t, inputs[0]);
      LogGrows(next, inputs[1..], last);
    } else {
      QuietFrame(t, inputs[0]);
      PredictionIsAnswered(next, inputs[1..], last);
      assert due == [inputs[0]] + inputs[1..][..t.toBeat - 1];
    }
  }

  /** From any state a beat comes within the time to the next prediction and 64 frames more. */
  lemma {:induction false} BeatComes(t: Timers, inputs: seq<Input>, last: Timers) returns (k: nat)
    requires Consistent(t) && !WaitsForBeat(t.log) && AllFrames(inputs) && Leads(t, inputs, last)
    requires t.toPrediction + 64 <= |inputs|
    ensures |t.log| <= k < |last.log| && last.log[k].Beat? && last.log[k].frame <= t.frame + t.toPrediction + 64
    decreases |inputs|
  {
    assert inputs[0] in inputs;
    var next := After(t, inputs[0]);
    AfterKeepsConsistent(t, inputs[0]);
    if t.toPrediction > 1 {
      assert next == CountDown(t);
      k := BeatComes(next, inputs[1..], last);
    } else if inputs[0].expected == 0 {
      assert next.log == t.log + [Prediction(t.frame + 1)] + [Beat(t.frame + 1)];
      LogGrows(next, inputs[1..], last);
      k := |t.log| + 1;
    } else {
      assert next.log == t.log + [Prediction(t.frame + 1)];
      PredictionIsAnswered(next, inputs[1..], last);
      k := |t.log| + 1;
    }
  }

  /** In every run, 97 frames in a row in which no tempo is set bring a beat. */
  lemma EveryLongRunBeats(before: seq<Input>, t: Timers, inputs: seq<Input>, last: Timers) returns (k: nat)
    requires Leads(INITIAL, before, t) && AllFrames(inputs) && Leads(t, inputs, last) && 97 <= |inputs|
    ensures |t.log| <= k < |last.log| && last.log[k].Beat? && last.log[k].frame <= t.frame + 97
  {
    StartIsConsistent();
    EveryRun(INITIAL, before, t);
    if WaitsForBeat(t.log) {
      PredictionIsAnswered(t, inputs, last);
      k := |t.log|;
    } else {
      k := BeatComes(t, inputs, last);
    }
  }
}
