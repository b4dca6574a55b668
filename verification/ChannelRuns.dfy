/** A sequencer channel over its lifetime: transitions come and go, updates follow the clock. */
module ChannelRuns {
  import opened Collections
  import opened Interpolation
  import opened Keyframes
  import opened SequencerChannel

  /** The range holds the default, the value and all that the running transitions start from or aim at. */
  ghost predicate Within(c: Settings, s: ChannelState, lo: real, hi: real, clock: real) {
    && (c.integral ==> Whole(lo) && Whole(hi))
    && Between(c.defaultValue, lo, hi) && Between(s.value, lo, hi)
    && AllWithin(s.queues, lo, hi, clock)
  }

  /** The targets of the frames are in range, and no ease is shorter than the least time between two updates. */
  predicate FramesWithin(frames: seq<Keyframe>, lo: real, hi: real) {
    forall k <- frames :: Between(k.value, lo, hi) && HasPoint(k) && (Steady(k) || k.duration >= MIN_CYCLE_TIME)
  }

  /** The clock does not go back; eases only run at speed one. */
  ghost predicate Allowed(s: ChannelState, step: ChannelStep, lo: real, hi: real, clock: real) {
    match step
    case InsertKeyframes(frames, _, _) => FramesWithin(frames, lo, hi)
    case Clear => true
    case ApplyUpdate(time, timeScale) => clock <= time && SpeedAllowed(s.queues, timeScale)
  }

  function ClockAfter(step: ChannelStep, clock: real): real {
    if step.ApplyUpdate? then step.time else clock
  }

  lemma Later(s: ChannelState, lo: real, hi: real, clock: real, time: real)
    requires AllWithin(s.queues, lo, hi, clock) && clock <= time
    ensures AllWithin(s.queues, lo, hi, time)
  {
    forall id | id in s.queues
      ensures QueueWithin(s.queues[id], lo, hi, time)
    {
      assert QueueWithin(s.queues[id], lo, hi, clock);
    }
  }

  lemma UpdateKeepsWithin(c: Settings, s: ChannelState, time: real, timeScale: real, s': ChannelState, lo: real,
                          hi: real)
    requires Within(c, s, lo, hi, time) && SpeedAllowed(s.queues, timeScale)
    requires AllEnd(s.queues, time, timeScale) && Updates(c, s, time, timeScale, s')
    ensures Within(c, s', lo, hi, time)
  {
    RemainingWithin(s.queues, time, timeScale, s.value, lo, hi);
    if s'.queues != map[] {
      var order :| order != [] && IsListing(order, s'.queues.Keys) &&
        Arbitrated(c.interleaving, c.integral, Requests(s'.queues, time, timeScale, c.integral, order), s'.value);
      UpdateStaysWithin(c.interleaving, c.integral, s.queues, time, timeScale, s.value, order, s'.value, lo, hi);
    }
  }

  lemma StepKeepsWithin(c: Settings, s: ChannelState, step: ChannelStep, s': ChannelState, lo: real, hi: real,
                        clock: real)
    requires Within(c, s, lo, hi, clock) && clock >= 0.0
    requires Allowed(s, step, lo, hi, clock) && Follows(c, s, step, s')
    ensures Within(c, s', lo, hi, ClockAfter(step, clock))
  {
    match step
    case InsertKeyframes(frames, id, _) =>
      assert QueueWithin(FrameQueue(frames, 0, -1.0, s.value), lo, hi, clock);
    case Clear =>
    case ApplyUpdate(time, timeScale) =>
      Later(s, lo, hi, clock, time);
      UpdateKeepsWithin(c, s, time, timeScale, s', lo, hi);
  }

  /** The states a channel goes through. */
  ghost predicate IsRun(c: Settings, states: seq<ChannelState>, steps: seq<ChannelStep>, lo: real, hi: real,
                        clock: real)
    decreases |steps|
  {
    && |states| == |steps| + 1
    && (steps != [] ==>
          && Allowed(states[0], steps[0], lo, hi, clock) && Follows(c, states[0], steps[0], states[1])
          && IsRun(c, states[1..], steps[1..], lo, hi, ClockAfter(steps[0], clock)))
  }

  /** A channel never leaves a range that holds its default and all keyframe targets, for any number of
      overlapping transitions: LINEAR and EDGE at any speeds, the eases at speed one. */
  lemma {:induction false} EveryRun(c: Settings, states: seq<ChannelState>, steps: seq<ChannelStep>, lo: real,
                                    hi: real, clock: real)
    requires IsRun(c, states, steps, lo, hi, clock) && clock >= 0.0 && Within(c, states[0], lo, hi, clock)
    ensures forall s <- states :: Between(s.value, lo, hi)
    decreases |steps|
  {
    if steps != [] {
      StepKeepsWithin(c, states[0], steps[0], states[1], lo, hi, clock);
      EveryRun(c, states[1..], steps[1..], lo, hi, ClockAfter(steps[0], clock));
      assert states == [states[0]] + states[1..];
    }
  }

  // ----- a transition that runs alone -----

  lemma LoneRemaining(id: nat, q: FrameQueue, time: real, timeScale: real, current: real)
    requires Ends(q, time, timeScale)
    ensures var q', qs := Settle(q, time, timeScale, current), map[id := q];
            AllEnd(qs, time, timeScale) &&
            Remaining(qs, time, timeScale, current) == if q'.Empty() then map[] else map[id := q']
  {
  }

  lemma LoneRequest(id: nat, q: FrameQueue, time: real, timeScale: real, integral: bool)
    requires !q.Empty() && HasPoint(q.Front())
    ensures Requests(map[id := q], time, timeScale, integral, [id]) ==
            [CalculateUpdate(integral, q.Front(), time - q.startTime, q.startValue, timeScale)]
  {
    var qs := map[id := q];
    var f := i => Request(qs, time, timeScale, integral, i);
    assert MapSeq(f, [id]) == [f(id)] + MapSeq(f, [id][1..]);
  }

  lemma LoneTakes(c: Settings, s: ChannelState, id: nat, time: real, timeScale: real)
    requires id in s.queues && s.queues.Keys == {id} && TakesRequests(c, s, time, timeScale)
    requires !s.queues[id].Empty() && HasPoint(s.queues[id].Front())
    ensures var q := s.queues[id];
            s.value == CalculateUpdate(c.integral, q.Front(), time - q.startTime, q.startValue, timeScale)
  {
    var q := s.queues[id];
    var order :| order != [] && IsListing(order, s.queues.Keys) &&
      Arbitrated(c.interleaving, c.integral, Requests(s.queues, time, timeScale, c.integral, order), s.value);
    OneListed(order, id);
    assert s.queues == map[id := q];
    LoneRequest(id, q, time, timeScale, c.integral);
    CastIsWhole(Mix(q.startValue, q.Front().value, InterleavePoint(q.Front(), time - q.startTime, timeScale)));
    var v := CalculateUpdate(c.integral, q.Front(), time - q.startTime, q.startValue, timeScale);
    LoneValue(c.interleaving, c.integral, v, s.value);
  }

  lemma LoneEnds(c: Settings, s: ChannelState, id: nat, q: FrameQueue, time: real, timeScale: real, s': ChannelState)
    requires s.queues == map[id := q] && Ends(q, time, timeScale) && AllEnd(s.queues, time, timeScale)
    requires Updates(c, s, time, timeScale, s') && Settle(q, time, timeScale, s.value).Empty()
    ensures s' == ChannelState(map[], s.value)
  {
    LoneRemaining(id, q, time, timeScale, s.value);
    assert id in s.queues && s'.queues == map[];
  }

  /** The value of a channel with one transition is what its running frame asks for. */
  lemma LoneUpdate(c: Settings, s: ChannelState, id: nat, q: FrameQueue, time: real, timeScale: real,
                   s': ChannelState, q': FrameQueue)
    requires s.queues == map[id := q] && Ends(q, time, timeScale) && AllEnd(s.queues, time, timeScale)
    requires Updates(c, s, time, timeScale, s') && Settle(q, time, timeScale, s.value) == q'
    requires !q'.Empty() && HasPoint(q'.Front())
    ensures s'.queues == map[id := q']
    ensures s'.value == CalculateUpdate(c.integral, q'.Front(), time - q'.startTime, q'.startValue, timeScale)
  {
    LoneRemaining(id, q, time, timeScale, s.value);
    assert s'.queues == map[id := q'] && id in s'.queues;
    LoneTakes(c, s', id, time, timeScale);
  }

  lemma OneListed(order: seq<nat>, id: nat)
    requires IsListing(order, {id})
    ensures order == [id]
  {
    ListingSize(order, {id});
    assert order[0] in multiset(order);
  }

  lemma CastIsWhole(x: real)
    ensures Whole(Cast(true, x))
  {
    NumberIsWhole(x.Floor);
    NumberIsWhole((-x).Floor);
    WholeNegation((-x).Floor as real);
  }

  /** A frame runs for its duration, and for 40 ms at least. */
  predicate StillRuns(k: Keyframe, since: real) {
    since < k.duration || since < 40.0
  }

  lemma FrameStarts(c: Settings, s: ChannelState, id: nat, q: FrameQueue, time: real, timeScale: real, s': ChannelState,
                    started: real)
    requires s.queues == map[id := q] && !q.Empty() && HasPoint(q.Front()) && q.startTime < 0.0 <= started
    requires started == time * timeScale && Follows(c, s, ApplyUpdate(time, timeScale), s')
    ensures s'.queues == map[id := FrameQueue(q.frames, q.position, started, q.startValue)]
    ensures s'.value == CalculateUpdate(c.integral, q.Front(), time - started, q.startValue, timeScale)
  {
    StartsNow(q, time, timeScale, s.value);
    LoneUpdate(c, s, id, q, time, timeScale, s', FrameQueue(q.frames, q.position, started, q.startValue));
  }

  lemma FrameGoesOn(c: Settings, s: ChannelState, id: nat, q: FrameQueue, time: real, timeScale: real, s': ChannelState)
    requires s.queues == map[id := q] && !q.Empty() && HasPoint(q.Front()) && q.startTime >= 0.0
    requires StillRuns(q.Front(), time * timeScale - q.startTime)
    requires Follows(c, s, ApplyUpdate(time, timeScale), s')
    ensures s'.queues == map[id := q]
    ensures s'.value == CalculateUpdate(c.integral, q.Front(), time - q.startTime, q.startValue, timeScale)
  {
    GoesOn(q, time, timeScale, s.value);
    LoneUpdate(c, s, id, q, time, timeScale, s', q);
  }

  /** A transition that is started in an idle channel: its first frame runs from the value at that moment,
      from the first update on, for its duration or 40 ms; at each update until then the channel has the
      value this frame asks for after the time since. */
  lemma {:induction false} FirstFramePlays(c: Settings, v: real, frames: seq<Keyframe>, id: nat, timeScale: real,
                                           times: seq<real>, states: seq<ChannelState>, started: real, i: nat)
    requires frames != [] && forall k <- frames :: HasPoint(k)
    requires i < |times| == |states| - 1 && times[0] * timeScale == started >= 0.0
    requires states[0] == ChannelState(map[id := FrameQueue(frames, 0, -1.0, v)], v)
    requires forall j :: 0 <= j < |times| ==> Follows(c, states[j], ApplyUpdate(times[j], timeScale), states[j + 1])
    requires forall j :: 0 <= j <= i ==> StillRuns(frames[0], times[j] * timeScale - started)
    ensures states[i + 1].queues == map[id := FrameQueue(frames, 0, started, v)]
    ensures states[i + 1].value == CalculateUpdate(c.integral, frames[0], times[i] - started, v, timeScale)
    decreases i
  {
    var s, s', time := states[i], states[i + 1], times[i];
    assert Follows(c, s, ApplyUpdate(time, timeScale), s');
    if i == 0 {
      FrameStarts(c, s, id, FrameQueue(frames, 0, -1.0, v), time, timeScale, s', started);
    } else {
      FirstFramePlays(c, v, frames, id, timeScale, times, states, started, i - 1);
      assert StillRuns(frames[0], time * timeScale - started);
      FrameGoesOn(c, s, id, FrameQueue(frames, 0, started, v), time, timeScale, s');
    }
  }

  /** When it is over, the channel goes on with the next frame, from the value it has. */
  lemma NextFramePlays(c: Settings, s: ChannelState, id: nat, q: FrameQueue, time: real, timeScale: real,
                       s': ChannelState)
    requires s.queues == map[id := q] && q.position + 1 < |q.frames| && q.startTime >= 0.0
    requires forall k <- q.frames :: HasPoint(k)
    requires !StillRuns(q.frames[q.position], time * timeScale - q.startTime)
    requires time >= 0.0 && time * timeScale - time < 40.0
    requires Follows(c, s, ApplyUpdate(time, timeScale), s')
    ensures s'.queues == map[id := FrameQueue(q.frames, q.position + 1, time, s.value)]
    ensures s'.value == CalculateUpdate(c.integral, q.frames[q.position + 1], 0.0, s.value, timeScale)
  {
    MovesOn(q, time, timeScale, s.value);
    assert q.frames[q.position + 1] in q.frames;
    LoneUpdate(c, s, id, q, time, timeScale, s', FrameQueue(q.frames, q.position + 1, time, s.value));
  }

  /** After the last frame the transition is gone, and the channel keeps the value it has. */
  lemma LastFrameEnds(c: Settings, s: ChannelState, id: nat, q: FrameQueue, time: real, timeScale: real,
                      s': ChannelState)
    requires s.queues == map[id := q] && q.position + 1 == |q.frames| && q.startTime >= 0.0
    requires forall k <- q.frames :: HasPoint(k)
    requires !StillRuns(q.frames[q.position], time * timeScale - q.startTime)
    requires Follows(c, s, ApplyUpdate(time, timeScale), s')
    ensures s' == ChannelState(map[], s.value)
  {
    MovesOn(q, time, timeScale, s.value);
    LoneEnds(c, s, id, q, time, timeScale, s');
  }
}
