/** The beat tracker as an object: its buffers, timers and tempo distribution. */
module BeatTracking {
  import opened BeatTracker
  import opened BeatTempo

  /** What is computed outside: the weights, the resampled onsets and their autocorrelation. */
  datatype Engine = Engine(weights: Weights, resample: seq<real> -> seq<real>, correlate: seq<real> -> seq<real>,
                           weighting: seq<real>, transition: (nat, nat) -> real)

  ghost predicate IsSound(e: Engine) {
    && Positive(e.weights) && AllPositive(e.transition) && |e.weighting| == LAGS
    && (forall x :: |e.resample(x)| == BUFFER_SIZE) && (forall x :: |e.correlate(x)| == BUFFER_SIZE)
  }

  /** The thresholded filter rows of a history of onsets. */
  ghost function Rows(e: Engine, onsets: seq<real>): (rows: seq<real>)
    requires IsSound(e)
    ensures |rows| == LAGS && NotNegative(rows)
  {
    Thresholded(CombFilterBank(e.correlate(Thresholded(e.resample(onsets))), e.weighting))
  }

  ghost function NextLikelihoods(e: Engine, onsets: seq<real>, before: seq<real>): (d: seq<real>)
    requires IsSound(e) && |before| == TEMPI
    ensures |d| == TEMPI
  {
    Likelihoods(before, e.transition, Observations(Rows(e, onsets)))
  }

  /** The next cumulative score, 9 parts history and 1 part onset. */
  function NextScore(w: Weights, bp: nat, scores: seq<real>, sample: real): real
    requires |scores| == BUFFER_SIZE && IsBeatPeriod(bp)
  {
    NewScore(MaxWeighted(w, bp, scores, WindowStart(bp), WindowSize(bp)), sample, 0.9)
  }

  /** One part of a score is the onset, nine parts are the largest weighted score from two beat periods to
      half a beat period ago, or nothing if none is positive. */
  lemma NextScoreIs(w: Weights, bp: nat, scores: seq<real>, sample: real)
    requires |scores| == BUFFER_SIZE && IsBeatPeriod(bp)
    ensures var largest := (10.0 * NextScore(w, bp, scores, sample) - sample) / 9.0;
            IsMaxWeighted(largest, w, bp, scores, BUFFER_SIZE - 2 * bp, 2 * bp - (bp + 1) / 2 + 1)
  {
    var x := MaxWeighted(w, bp, scores, WindowStart(bp), WindowSize(bp));
    MaxWeightedIs(w, bp, scores, WindowStart(bp), WindowSize(bp));
    assert 10.0 * NextScore(w, bp, scores, sample) - sample == 9.0 * x;
  }

  lemma NextScoreIsPositive(w: Weights, bp: nat, scores: seq<real>, sample: real)
    requires |scores| == BUFFER_SIZE && IsBeatPeriod(bp) && Positive(w) && sample > 0.0
    ensures NextScore(w, bp, scores, sample) > 0.0
  {
    MaxWeightedSigns(w, bp, scores, WindowStart(bp), WindowSize(bp));
  }

  function Abs(x: real): real {
    if x < 0.0 then -x else x
  }

  /** Onsets a beat period apart, the last one now. */
  function Pulses(bp: nat): (s: seq<real>)
    requires bp > 0
    ensures |s| == BUFFER_SIZE && s[BUFFER_SIZE - 1] == 150.0
  {
    seq(BUFFER_SIZE, i requires 0 <= i < BUFFER_SIZE => Pulse(bp, BUFFER_SIZE - 1 - i))
  }

  /** A pulse now and in every `bp`-th frame before, little in between. */
  lemma PulsesAre(bp: nat, ago: nat, beats: nat, rest: nat)
    requires bp > 0 && ago < BUFFER_SIZE && ago == beats * bp + rest && rest < bp
    ensures Pulses(bp)[BUFFER_SIZE - 1 - ago] == if rest == 0 then 150.0 else 10.0
  {
    Remainder(ago, beats, rest, bp);
    assert BUFFER_SIZE - 1 - (BUFFER_SIZE - 1 - ago) == ago;
    assert Pulses(bp)[BUFFER_SIZE - 1 - ago] == Pulse(bp, ago);
  }

  function Pulse(bp: nat, ago: nat): real
    requires bp > 0
  {
    if ago % bp == 0 then 150.0 else 10.0
  }

  /** An onset in every 43rd of the first `n` places. */
  function InitialOnsets(n: nat): (s: seq<real>)
    ensures |s| == BUFFER_SIZE
  {
    seq(BUFFER_SIZE, i => if i < n && i % 43 == 0 then 1.0 else 0.0)
  }

  function OneHot(index: nat): (s: seq<real>)
    requires index < TEMPI
    ensures |s| == TEMPI && NotNegative(s)
    ensures s[index] == 1.0 && forall i :: 0 <= i < TEMPI && i != index ==> s[i] == 0.0
  {
    seq(TEMPI, i => if i == index then 1.0 else 0.0)
  }

  /** The beat period of a folded tempo. */
  function PeriodOfTempo(t: real): int
    requires t > 0.0
  {
    Round(60.0 / (512.0 / 44100.0 * t))
  }

  lemma FramesOfBeat(t: real)
    requires t > 0.0
    ensures 512.0 / 44100.0 * t > 0.0 && 60.0 / (512.0 / 44100.0 * t) == 60.0 * 44100.0 / (t * 512.0)
  {
    var d, e := 512.0 / 44100.0 * t, t * 512.0;
    assert d * 44100.0 == e;
    var x := 60.0 / d;
    assert x * d == 60.0;
    assert x * e == x * d * 44100.0;
  }

  /** The beat period of a tempo that is set comes closest to it, too: so setting the tempo of an index and
      measuring it lead to one beat period. */
  lemma PeriodOfTempoIsNearest(t: real, index: nat)
    requires t > 0.0
    ensures IsNearest(PeriodOfTempo(t), t * 512.0, 60.0 * 44100.0)
    ensures t == (2 * index + 80) as real ==> PeriodOfTempo(t) == BeatPeriodOf(index)
  {
    FramesOfBeat(t);
    RoundedQuotient(60.0 * 44100.0, t * 512.0);
  }

  lemma PeriodOfTempoInRange(t: real)
    requires 80.0 <= t <= 160.0
    ensures IsBeatPeriod(PeriodOfTempo(t))
  {
    var d := 512.0 / 44100.0 * t;
    assert 512.0 / 44100.0 * 80.0 <= d <= 512.0 / 44100.0 * 160.0;
    DivideBounds(60.0, d, 31.5, 65.0);
  }

  ghost predicate PulsedFrom(s: seq<real>, i: nat, bp: nat)
    requires bp > 0
  {
    |s| == BUFFER_SIZE && forall j :: i <= j < BUFFER_SIZE ==> s[j] == Pulses(bp)[j]
  }

  lemma PulseBefore(s: seq<real>, i: nat, bp: nat)
    requires bp > 0 && i < BUFFER_SIZE && PulsedFrom(s, i + 1, bp)
    ensures PulsedFrom(s[i := Pulse(bp, BUFFER_SIZE - 1 - i)], i, bp)
  {
  }

  class BTrack {
    const engine: Engine
    const onsetDF: CircularBuffer
    const cumulativeScore: CircularBuffer
    var timeToNextPrediction: int
    var timeToNextBeat: int
    var beatPeriod: nat
    var beatDueInFrame: bool
    var tempoFixed: bool
    var prevDelta: seq<real>
    var prevDeltaFixed: seq<real>
    ghost var frame: int
    ghost var log: seq<Event>

    ghost predicate Valid()
      reads this, onsetDF, cumulativeScore
    {
      && IsSound(engine) && onsetDF != cumulativeScore && onsetDF.buffer != cumulativeScore.buffer
      && onsetDF.Valid() && onsetDF.buffer.Length == BUFFER_SIZE
      && cumulativeScore.Valid() && cumulativeScore.buffer.Length == BUFFER_SIZE
      && |prevDelta| == TEMPI && NotNegative(prevDelta) && |prevDeltaFixed| == TEMPI && NotNegative(prevDeltaFixed)
      && IsBeatPeriod(beatPeriod)
    }

    ghost function Clock(): Timers
      reads this
    {
      Timers(timeToNextPrediction, timeToNextBeat, beatPeriod, frame, log)
    }

    ghost function Scores(): (s: seq<real>)
      reads this, cumulativeScore, cumulativeScore.buffer
      requires cumulativeScore.Valid()
      ensures |s| == cumulativeScore.buffer.Length
    {
      cumulativeScore.Contents()
    }

    ghost function Onsets(): (s: seq<real>)
      reads this, onsetDF, onsetDF.buffer
      requires onsetDF.Valid()
      ensures |s| == onsetDF.buffer.Length
    {
      onsetDF.Contents()
    }

    constructor (engine: Engine)
      requires IsSound(engine)
      ensures Valid() && this.engine == engine && Clock() == INITIAL && Consistent(Clock())
      ensures fresh(onsetDF) && fresh(onsetDF.buffer) && fresh(cumulativeScore) && fresh(cumulativeScore.buffer)
      ensures Scores() == seq(BUFFER_SIZE, _ => 0.0) && Onsets() == InitialOnsets(BUFFER_SIZE)
      ensures forall i :: 0 <= i < BUFFER_SIZE ==> Onsets()[i] == if i % 43 == 0 then 1.0 else 0.0
      ensures timeToNextPrediction == 10 && timeToNextBeat == -1 && beatPeriod == 43 && !tempoFixed
      ensures prevDelta == seq(TEMPI, _ => 1.0)
    {
      this.engine := engine;
      onsetDF := new CircularBuffer(BUFFER_SIZE);
      cumulativeScore := new CircularBuffer(BUFFER_SIZE);
      timeToNextPrediction, timeToNextBeat, beatPeriod := 10, -1, 43;
      beatDueInFrame, tempoFixed := false, false;
      prevDelta, prevDeltaFixed := seq(TEMPI, _ => 1.0), seq(TEMPI, _ => 0.0);
      frame, log := 0, [];
      new;
      for i := 0 to BUFFER_SIZE
        invariant Valid() && Clock() == INITIAL && Scores() == seq(BUFFER_SIZE, _ => 0.0)
                  && Onsets() == InitialOnsets(i)
        invariant !tempoFixed && prevDelta == seq(TEMPI, _ => 1.0)
        invariant fresh(onsetDF) && fresh(onsetDF.buffer) && fresh(cumulativeScore) && fresh(cumulativeScore.buffer)
      {
        onsetDF.Set(i, if i % beatPeriod == 0 then 1.0 else 0.0);
        assert Onsets() == InitialOnsets(i)[i := if i % 43 == 0 then 1.0 else 0.0];
      }
    }

    method CopyOf(b: CircularBuffer) returns (s: seq<real>)
      requires b.Valid()
      ensures s == b.Contents()
    {
      s := [];
      for i := 0 to b.buffer.Length
        invariant s == b.Contents()[..i]
      {
        s := s + [b.At(i)];
      }
    }

    method UpdateCumulativeScore(sample: real)
      requires Valid()
      modifies cumulativeScore`writeIndex, cumulativeScore.buffer
      ensures Valid() && Onsets() == old(Onsets())
      ensures Scores() == old(Scores())[1..] + [NextScore(engine.weights, beatPeriod, old(Scores()), sample)]
    {
      var scores := CopyOf(cumulativeScore);
      var maxValue := CalculateMaxWeighted(engine.weights, beatPeriod, scores, WindowStart(beatPeriod),
                                           WindowSize(beatPeriod));
      cumulativeScore.AddSampleToEnd(NewScore(maxValue, sample, 0.9));
    }

    /** Predicts the next beat; a positive latest score makes sure there is one. */
    method Predict()
      requires Valid() && Scores()[BUFFER_SIZE - 1] > 0.0
      modifies this`timeToNextBeat, this`timeToNextPrediction, this`log
      ensures 0 <= timeToNextBeat < beatPeriod
      ensures IsFirstMaximum(Expectations(engine.weights, beatPeriod, Scores()), timeToNextBeat)
      ensures Clock() == BeatTracker.Predict(old(Clock()), timeToNextBeat)
    {
      var scores := CopyOf(cumulativeScore);
      timeToNextBeat := PredictBeat(engine.weights, beatPeriod, scores, timeToNextBeat);
      timeToNextPrediction := timeToNextBeat + Half(beatPeriod);
      log := log + [Prediction(frame)];
    }

    method FilterRows() returns (rows: seq<real>)
      requires Valid()
      ensures rows == Rows(engine, Onsets())
    {
      var onsets := CopyOf(onsetDF);
      var resampled := engine.resample(onsets);
      var x := new real[BUFFER_SIZE](i requires 0 <= i < BUFFER_SIZE => resampled[i]);
      assert x[..] == resampled;
      AdaptiveThreshold(x);
      var comb := CalculateCombFilterBank(engine.correlate(x[..]), engine.weighting);
      var y := new real[LAGS](i requires 0 <= i < LAGS => comb[i]);
      assert y[..] == comb;
      AdaptiveThreshold(y);
      rows := y[..];
    }

    /** Measures the tempo anew; a fixed tempo takes the place of the last distribution. */
    method MeasureTempo() returns (ghost index: nat)
      requires Valid()
      modifies this`beatPeriod, this`prevDelta
      ensures Valid() && beatPeriod == BeatPeriodOf(index)
      ensures var before := if tempoFixed then prevDeltaFixed else old(prevDelta);
              && IsFirstMaximum(NextLikelihoods(engine, Onsets(), before), index)
              && prevDelta == Normalised(NextLikelihoods(engine, Onsets(), before))
    {
      var rows := FilterRows();
      if tempoFixed {
        prevDelta := prevDeltaFixed;
      }
      var delta, maxIndex, period := CalculateTempo(rows, prevDelta, engine.transition);
      prevDelta, beatPeriod, index := delta, period, maxIndex;
    }

    /** Both buffers take in a sample; the latest score is positive whatever is heard. */
    method Hear(sample: real)
      requires Valid() && sample > 0.0
      modifies onsetDF`writeIndex, onsetDF.buffer, cumulativeScore`writeIndex, cumulativeScore.buffer
      ensures Valid() && Onsets() == old(Onsets())[1..] + [sample]
      ensures Scores() == old(Scores())[1..] + [NextScore(engine.weights, beatPeriod, old(Scores()), sample)]
      ensures Scores()[BUFFER_SIZE - 1] > 0.0
    {
      NextScoreIsPositive(engine.weights, beatPeriod, Scores(), sample);
      onsetDF.AddSampleToEnd(sample);
      UpdateCumulativeScore(sample);
    }

    /** A beat is output and the tempo measured if one is due. */
    method OutputBeat()
      requires Valid()
      modifies this`beatPeriod, this`beatDueInFrame, this`prevDelta, this`log
      ensures Valid() && (beatDueInFrame <==> timeToNextBeat == 0)
      ensures Clock() == if timeToNextBeat == 0 then MarkBeat(old(Clock()), beatPeriod) else old(Clock())
      ensures !beatDueInFrame ==> prevDelta == old(prevDelta)
    {
      beatDueInFrame := false;
      if timeToNextBeat == 0 {
        beatDueInFrame := true;
        log := log + [Beat(frame)];
        var _ := MeasureTempo();
      }
    }

    /** One frame of onsets. The score of the frame is positive, so a due prediction always finds a beat,
        and the timers move as the timing model says. */
    method ProcessOnsetDetectionFunctionSample(newSample: real) returns (ghost heard: Input)
      requires Valid() && Consistent(Clock())
      modifies this`timeToNextPrediction, this`timeToNextBeat, this`beatPeriod, this`beatDueInFrame
      modifies this`prevDelta, this`frame, this`log
      modifies onsetDF`writeIndex, onsetDF.buffer, cumulativeScore`writeIndex, cumulativeScore.buffer
      ensures Valid() && Consistent(Clock())
      ensures Onsets() == old(Onsets())[1..] + [(if newSample < 0.0 then -newSample else newSample) + 0.0001]
      ensures Scores() ==
              old(Scores())[1..] + [NextScore(engine.weights, old(beatPeriod), old(Scores()), Abs(newSample) + 0.0001)]
      ensures heard.Frame? && Possible(old(Clock()), heard) && Clock() == After(old(Clock()), heard)
      ensures old(timeToNextPrediction) == 1 ==>
                IsFirstMaximum(Expectations(engine.weights, old(beatPeriod), Scores()), heard.expected)
      ensures beatDueInFrame <==> timeToNextBeat == 0
      ensures !beatDueInFrame ==> prevDelta == old(prevDelta) && beatPeriod == old(beatPeriod)
    {
      ghost var start := Clock();
      Hear(Abs(newSample) + 0.0001);
      timeToNextPrediction, timeToNextBeat, frame := timeToNextPrediction - 1, timeToNextBeat - 1, frame + 1;
      assert Clock() == CountDown(start);
      ghost var expected: nat := 0;
      if timeToNextPrediction == 0 {
        Predict();
        expected := timeToNextBeat;
      }
      OutputBeat();
      heard := Frame(expected, beatPeriod);
      AfterKeepsConsistent(start, heard);
    }

    /** Sets both buffers to pulses and restarts the timers; the beat period stays until the next beat. */
    method SetTempo(tempo: real) returns (ghost heard: Input)
      requires Valid() && Consistent(Clock()) && tempo > 0.0
      modifies this`timeToNextPrediction, this`timeToNextBeat, this`prevDelta, this`log, onsetDF.buffer,
               cumulativeScore.buffer
      ensures Valid() && Consistent(Clock())
      ensures heard.SetTempo? && Possible(old(Clock()), heard) && Clock() == After(old(Clock()), heard)
      ensures Onsets() == Pulses(heard.tempoPeriod) && Scores() == Pulses(heard.tempoPeriod)
      ensures exists t, index: nat ::
                FoldsTo(tempo, t, index) && index < TEMPI && prevDelta == OneHot(index)
                  && heard.tempoPeriod == PeriodOfTempo(t)
    {
      ghost var start := Clock();
      var newBeatPeriod := ChooseTempo(tempo);
      FillWithPulses(newBeatPeriod);
      timeToNextBeat, timeToNextPrediction := 0, Half(newBeatPeriod);
      log := log + [TempoSet(frame)];
      heard := Input.SetTempo(newBeatPeriod);
      AfterKeepsConsistent(start, heard);
    }

    /** Puts all the weight on the given tempo. */
    method ChooseTempo(tempo: real) returns (newBeatPeriod: nat)
      requires Valid() && tempo > 0.0
      modifies this`prevDelta
      ensures Valid() && IsBeatPeriod(newBeatPeriod)
      ensures exists t, index: nat ::
                FoldsTo(tempo, t, index) && index < TEMPI && prevDelta == OneHot(index)
                  && newBeatPeriod == PeriodOfTempo(t)
    {
      var t, index := FoldTempo(tempo);
      prevDelta := OneHot(index);
      PeriodOfTempoInRange(t);
      newBeatPeriod := PeriodOfTempo(t);
      assert FoldsTo(tempo, t, index) && prevDelta == OneHot(index) && newBeatPeriod == PeriodOfTempo(t);
    }

    method FillWithPulses(period: nat)
      requires Valid() && period > 0
      modifies onsetDF.buffer, cumulativeScore.buffer
      ensures Valid() && Onsets() == Pulses(period) && Scores() == Pulses(period)
    {
      var k := 1;
      for i := BUFFER_SIZE downto 0
        invariant Valid() && k == (BUFFER_SIZE - i) % period + 1
        invariant PulsedFrom(Onsets(), i, period) && PulsedFrom(Scores(), i, period)
      {
        var v := if k == 1 then 150.0 else 10.0;
        assert v == Pulse(period, BUFFER_SIZE - 1 - i);
        PulseBefore(Onsets(), i, period);
        PulseBefore(Scores(), i, period);
        cumulativeScore.Set(i, v);
        onsetDF.Set(i, v);
        CountOn(BUFFER_SIZE - 1 - i, period);
        k := if k + 1 > period then 1 else k + 1;
      }
    }

    method FixTempo(tempo: real) returns (index: nat)
      requires Valid() && tempo > 0.0
      modifies this`prevDeltaFixed, this`tempoFixed
      ensures Valid() && tempoFixed && index <= 40 && prevDeltaFixed == OneHot(index)
      ensures exists t :: FoldsTo(tempo, t, index)
    {
      var t;
      t, index := FoldTempo(tempo);
      prevDeltaFixed := OneHot(index);
      tempoFixed := true;
    }
  }

  lemma CountOn(n: nat, period: nat)
    requires period > 0
    ensures (n + 1) % period == if n % period + 1 == period then 0 else n % period + 1
  {
    var q := n / period;
    var r := n % period;
    assert n == q * period + r;
    if r + 1 == period {
      assert n + 1 == (q + 1) * period;
      Remainder(n + 1, q + 1, 0, period);
    } else {
      Remainder(n + 1, q, r + 1, period);
    }
  }

  lemma Remainder(n: nat, q: nat, r: nat, period: nat)
    requires r < period && n == q * period + r
    ensures n % period == r
  {
    var d := n / period - q;
    assert n == (n / period) * period + n % period;
    assert (n / period) * period - q * period == d * period;
    Multiple(d, period);
  }

  lemma Multiple(d: int, period: nat)
    ensures (d >= 1 ==> d * period >= period) && (d <= -1 ==> d * period <= -1 * period)
  {
    if d >= 1 {
      assert d * period == (d - 1) * period + period;
    } else if d <= -1 {
      assert d * period == (d + 1) * period - period;
    }
  }
}
