/** The sequencer filter over its lifetime: all channels at once, with the events that start transitions. */
module SequencerRuns {
  import opened Interpolation
  import opened Keyframes
  import opened SequencerChannel
  import ChannelRuns
  import opened FilterSequencer

  /** The queues and the summary, and the values of the channels. */
  datatype SequencerState = SequencerState(view: View, values: seq<real>)

  datatype Ranges = Ranges(lo: seq<real>, hi: seq<real>)

  /** Every channel is within its range, and so is all that its transitions aim at. */
  ghost predicate AllChannelsWithin(cs: seq<Settings>, queues: seq<Queues>, values: seq<real>, b: Ranges, clock: real) {
    && |cs| == |queues| == |values| == |b.lo| == |b.hi|
    && forall i :: 0 <= i < |cs| ==>
       ChannelRuns.Within(cs[i], ChannelState(queues[i], values[i]), b.lo[i], b.hi[i], clock)
  }

  /** The targets of a transition are in the ranges of its channels. */
  predicate TransitionFits(t: Transition, b: Ranges)
    requires |b.lo| == |b.hi|
  {
    forall i <- t.frames :: i < |b.lo| ==> ChannelRuns.FramesWithin(t.frames[i], b.lo[i], b.hi[i])
  }

  lemma StartKeepsWithin(cs: seq<Settings>, v: View, values: seq<real>, t: Transition, b: Ranges, clock: real)
    requires AllChannelsWithin(cs, v.queues, values, b, clock) && clock >= 0.0 && TransitionFits(t, b)
    ensures AllChannelsWithin(cs, Start(v, values, t).queues, values, b, clock)
  {
    var queues := Start(v, values, t).queues;
    forall i | 0 <= i < |cs|
      ensures ChannelRuns.Within(cs[i], ChannelState(queues[i], values[i]), b.lo[i], b.hi[i], clock)
    {
      assert ChannelRuns.Within(cs[i], ChannelState(v.queues[i], values[i]), b.lo[i], b.hi[i], clock);
      if CanStart(v, t) && i in t.frames {
        ChannelRuns.StepKeepsWithin(cs[i], ChannelState(v.queues[i], values[i]),
                                    ChannelStep.InsertKeyframes(t.frames[i], t.id, true),
                                    ChannelState(queues[i], values[i]), b.lo[i], b.hi[i], clock);
      }
    }
  }

  lemma {:induction false} StartAllKeepsWithin(cs: seq<Settings>, v: View, values: seq<real>, ts: seq<Transition>,
                                               b: Ranges, clock: real)
    requires AllChannelsWithin(cs, v.queues, values, b, clock) && clock >= 0.0 && forall t <- ts :: TransitionFits(t, b)
    ensures AllChannelsWithin(cs, StartAll(v, values, ts).queues, values, b, clock)
    decreases |ts|
  {
    if ts != [] {
      StartKeepsWithin(cs, v, values, ts[0], b, clock);
      StartAllKeepsWithin(cs, Start(v, values, ts[0]), values, ts[1..], b, clock);
    }
  }

  /** What `Update` and `SceneActivated` do to the filter. */
  ghost predicate Follows(cs: seq<Settings>, s: SequencerState, h: Happening, s': SequencerState) {
    && |cs| == |s.view.queues| == |s.values| == |s'.values|
    && Possible(s.view, h) && s'.view == Happen(s.view, h)
    && match h
       case Cycle(started, values, time, timeScale) =>
         values == s.values && ChannelsFollow(cs, StartAll(s.view, values, started).queues, values, time, timeScale, s')
       case SceneActivated =>
         forall i :: 0 <= i < |cs| ==>
           SequencerChannel.Follows(cs[i], ChannelState(s.view.queues[i], s.values[i]), ChannelStep.Clear,
                                    ChannelState(s'.view.queues[i], s'.values[i]))
  }

  ghost predicate ChannelsFollow(cs: seq<Settings>, queues: seq<Queues>, values: seq<real>, time: real,
                                 timeScale: real, s': SequencerState)
    requires |cs| == |queues| == |values| == |s'.view.queues| == |s'.values| && QueuesEnd(queues, time, timeScale)
  {
    forall i :: 0 <= i < |cs| ==>
      Updates(cs[i], ChannelState(queues[i], values[i]), time, timeScale, ChannelState(s'.view.queues[i], s'.values[i]))
  }

  /** The contract of `FilterSequencer.Update` says just this. */
  lemma UpdateFollows(cs: seq<Settings>, v: View, values: seq<real>, started: seq<Transition>, time: real,
                      timeScale: real, now: seq<ChannelState>, v': View)
    requires |v.queues| == |values| == |now| && (forall t <- started :: WellFormed(t, |v.queues|))
    requires QueuesEnd(StartAll(v, values, started).queues, time, timeScale)
    requires v' == Apply(StartAll(v, values, started), values, time, timeScale) && QueuesOf(now) == v'.queues
    requires UpdatedUpTo(cs, StatesOf(StartAll(v, values, started).queues, values), now, |now|, time, timeScale)
    ensures Follows(cs, SequencerState(v, values), Cycle(started, values, time, timeScale),
                    SequencerState(v', ValuesOf(now)))
  {
    var queues := StartAll(v, values, started).queues;
    forall i | 0 <= i < |cs|
      ensures Updates(cs[i], ChannelState(queues[i], values[i]), time, timeScale,
                      ChannelState(v'.queues[i], ValuesOf(now)[i]))
    {
      assert Updates(cs[i], StatesOf(queues, values)[i], time, timeScale, now[i]);
      assert now[i] == ChannelState(QueuesOf(now)[i], ValuesOf(now)[i]);
    }
  }

  function ValuesOf(ss: seq<ChannelState>): (values: seq<real>)
    ensures |values| == |ss|
  {
    seq(|ss|, i requires 0 <= i < |ss| => ss[i].value)
  }

  /** The clock does not go back, eases only run at speed one, and all targets are in range. */
  ghost predicate Allowed(s: SequencerState, h: Happening, b: Ranges, clock: real)
    requires Possible(s.view, h) && |b.lo| == |b.hi|
  {
    match h
    case Cycle(started, values, time, timeScale) =>
      && clock <= time && (forall t <- started :: TransitionFits(t, b))
      && forall q <- StartAll(s.view, values, started).queues :: SpeedAllowed(q, timeScale)
    case SceneActivated => true
  }

  function ClockAfter(h: Happening, clock: real): real {
    if h.Cycle? then h.time else clock
  }

  lemma CycleKeepsWithin(cs: seq<Settings>, queues: seq<Queues>, values: seq<real>, time: real, timeScale: real,
                         s': SequencerState, b: Ranges, clock: real)
    requires AllChannelsWithin(cs, queues, values, b, clock) && clock <= time
    requires forall q <- queues :: SpeedAllowed(q, timeScale)
    requires |cs| == |s'.view.queues| == |s'.values| && QueuesEnd(queues, time, timeScale)
    requires ChannelsFollow(cs, queues, values, time, timeScale, s')
    ensures AllChannelsWithin(cs, s'.view.queues, s'.values, b, time)
  {
    forall i | 0 <= i < |cs|
      ensures ChannelRuns.Within(cs[i], ChannelState(s'.view.queues[i], s'.values[i]), b.lo[i], b.hi[i], time)
    {
      var before := ChannelState(queues[i], values[i]);
      assert queues[i] in queues;
      ChannelRuns.Later(before, b.lo[i], b.hi[i], clock, time);
      ChannelRuns.UpdateKeepsWithin(cs[i], before, time, timeScale, ChannelState(s'.view.queues[i], s'.values[i]),
                                    b.lo[i], b.hi[i]);
    }
  }

  lemma StepKeepsWithin(cs: seq<Settings>, s: SequencerState, h: Happening, s': SequencerState, b: Ranges, clock: real)
    requires AllChannelsWithin(cs, s.view.queues, s.values, b, clock) && clock >= 0.0
    requires Follows(cs, s, h, s') && Allowed(s, h, b, clock)
    ensures AllChannelsWithin(cs, s'.view.queues, s'.values, b, ClockAfter(h, clock))
  {
    match h
    case Cycle(started, values, time, timeScale) =>
      StartAllKeepsWithin(cs, s.view, values, started, b, clock);
      CycleKeepsWithin(cs, StartAll(s.view, values, started).queues, values, time, timeScale, s', b, clock);
    case SceneActivated =>
      forall i | 0 <= i < |cs|
        ensures ChannelRuns.Within(cs[i], ChannelState(s'.view.queues[i], s'.values[i]), b.lo[i], b.hi[i], clock)
      {
        ChannelRuns.StepKeepsWithin(cs[i], ChannelState(s.view.queues[i], s.values[i]), ChannelStep.Clear,
                                    ChannelState(s'.view.queues[i], s'.values[i]), b.lo[i], b.hi[i], clock);
      }
  }

  ghost predicate IsRun(cs: seq<Settings>, states: seq<SequencerState>, hs: seq<Happening>, b: Ranges, clock: real)
    requires |b.lo| == |b.hi|
    decreases |hs|
  {
    && |states| == |hs| + 1
    && (hs != [] ==>
          && Follows(cs, states[0], hs[0], states[1]) && Allowed(states[0], hs[0], b, clock)
          && IsRun(cs, states[1..], hs[1..], b, ClockAfter(hs[0], clock)))
  }

  predicate InRanges(values: seq<real>, b: Ranges) {
    |values| == |b.lo| == |b.hi| && forall i :: 0 <= i < |values| ==> Between(values[i], b.lo[i], b.hi[i])
  }

  /** In every run of the filter, whatever the events start, the summary lists all that runs, and nothing
      else unless a transition without frames has started; and no channel leaves a range that holds its
      default and all targets. */
  lemma {:induction false} EveryRun(cs: seq<Settings>, states: seq<SequencerState>, hs: seq<Happening>, b: Ranges,
                                    clock: real)
    requires |b.lo| == |b.hi| && IsRun(cs, states, hs, b, clock) && clock >= 0.0
    requires Exact(states[0].view) && AllChannelsWithin(cs, states[0].view.queues, states[0].values, b, clock)
    ensures forall s <- states :: Complete(s.view) && InRanges(s.values, b)
    ensures (forall h <- hs :: Framed(h)) ==> forall s <- states :: Exact(s.view)
    decreases |hs|
  {
    RangesInRun(cs, states, hs, b, clock);
    if forall h <- hs :: Framed(h) {
      ExactInRun(cs, states, hs, b, clock);
    }
  }

  lemma {:induction false} RangesInRun(cs: seq<Settings>, states: seq<SequencerState>, hs: seq<Happening>, b: Ranges,
                                       clock: real)
    requires |b.lo| == |b.hi| && IsRun(cs, states, hs, b, clock) && clock >= 0.0
    requires Complete(states[0].view) && AllChannelsWithin(cs, states[0].view.queues, states[0].values, b, clock)
    ensures forall s <- states :: Complete(s.view) && InRanges(s.values, b)
    decreases |hs|
  {
    StateInRanges(cs, states[0], b, clock);
    if hs != [] {
      HappenKeepsComplete(states[0].view, hs[0]);
      StepKeepsWithin(cs, states[0], hs[0], states[1], b, clock);
      RangesInRun(cs, states[1..], hs[1..], b, ClockAfter(hs[0], clock));
      assert states == [states[0]] + states[1..];
    }
  }

  lemma {:induction false} ExactInRun(cs: seq<Settings>, states: seq<SequencerState>, hs: seq<Happening>, b: Ranges,
                                      clock: real)
    requires |b.lo| == |b.hi| && IsRun(cs, states, hs, b, clock)
    requires Exact(states[0].view) && forall h <- hs :: Framed(h)
    ensures forall s <- states :: Exact(s.view)
    decreases |hs|
  {
    if hs != [] {
      HappenKeepsExact(states[0].view, hs[0]);
      ExactInRun(cs, states[1..], hs[1..], b, ClockAfter(hs[0], clock));
      assert states == [states[0]] + states[1..];
    }
  }

  lemma StateInRanges(cs: seq<Settings>, s: SequencerState, b: Ranges, clock: real)
    requires AllChannelsWithin(cs, s.view.queues, s.values, b, clock)
    ensures InRanges(s.values, b)
  {
    forall i | 0 <= i < |cs|
      ensures Between(s.values[i], b.lo[i], b.hi[i])
    {
      assert ChannelRuns.Within(cs[i], ChannelState(s.view.queues[i], s.values[i]), b.lo[i], b.hi[i], clock);
    }
  }
}
