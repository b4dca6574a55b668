/** Keyframes of a sequencer channel and the cursor that runs through them. Doubles are real numbers;
    values of an integer channel are whole numbers. */
module Keyframes {
  import opened Interpolation

  datatype TransitionType = EDGE | LINEAR | EASE_IN | EASE_OUT

  datatype Keyframe = Keyframe(value: real, transition: TransitionType, duration: real)

  const MIN_CYCLE_TIME := 40.0

  function Max(a: real, b: real): real {
    if a >= b then a else b
  }

  function Min(a: real, b: real): real {
    if a <= b then a else b
  }

  /** Only an EDGE can do without a duration: all other curves divide by it. */
  predicate HasPoint(k: Keyframe) {
    k.transition == EDGE || k.duration != 0.0
  }

  /** The elapsed share of the duration. */
  function Share(k: Keyframe, elapsed: real, timeScale: real): real
    requires k.duration != 0.0
  {
    elapsed * timeScale / k.duration
  }

  /** How far the transition has come, from 0 (start value) to 1 (target). */
  function InterleavePoint(k: Keyframe, elapsed: real, timeScale: real): real
    requires HasPoint(k)
  {
    match k.transition
    case LINEAR => Min(Max(Share(k, elapsed, timeScale), 0.0), 1.0)
    case EDGE => if elapsed * timeScale + MIN_CYCLE_TIME >= k.duration then 1.0 else 0.0
    case EASE_IN =>
      var advance := Share(k, elapsed, timeScale);
      advance * advance
    case EASE_OUT =>
      var advance := Share(k, elapsed, timeScale);
      1.0 - (1.0 - advance) * (1.0 - advance)
  }

  /** The conversion to the channel type: integer channels cut off the fraction. */
  function Cast(integral: bool, x: real): real {
    if !integral then x else if x >= 0.0 then x.Floor as real else -((-x).Floor as real)
  }

  function CalculateUpdate(integral: bool, k: Keyframe, elapsed: real, start: real, timeScale: real): real
    requires HasPoint(k)
  {
    Cast(integral, Mix(start, k.value, InterleavePoint(k, elapsed, timeScale)))
  }

  // ----- what a keyframe asks for -----

  lemma ShareOfDuration(k: Keyframe, elapsed: real, timeScale: real)
    requires k.duration > 0.0
    ensures Share(k, elapsed, timeScale) * k.duration == elapsed * timeScale
    ensures Share(k, elapsed, timeScale) < 0.0 <==> elapsed * timeScale < 0.0
    ensures Share(k, elapsed, timeScale) > 1.0 <==> elapsed * timeScale > k.duration
  {
    var a := Share(k, elapsed, timeScale);
    OrderTimes(a, 0.0, k.duration);
    OrderTimes(a, 1.0, k.duration);
  }

  /** LINEAR leaves the start value when it starts, reaches the target at the end of its duration, and has
      gone the elapsed share of the way in between. */
  lemma LinearIsProportional(k: Keyframe, elapsed: real, start: real, timeScale: real)
    requires k.transition == LINEAR && k.duration > 0.0
    ensures var s, x := elapsed * timeScale, CalculateUpdate(false, k, elapsed, start, timeScale);
            && (s <= 0.0 ==> x == start)
            && (0.0 <= s <= k.duration ==> (x - start) * k.duration == s * (k.value - start))
            && (s >= k.duration ==> x == k.value)
  {
    ShareOfDuration(k, elapsed, timeScale);
    var p := InterleavePoint(k, elapsed, timeScale);
    MixMoves(start, k.value, p);
    if 0.0 <= elapsed * timeScale <= k.duration {
      ShareTimes(p, elapsed * timeScale, k.value - start, k.duration);
    }
  }

  /** EDGE switches from the start value to the target one cycle of 40 ms before the end of its duration. */
  lemma EdgeSwitches(k: Keyframe, elapsed: real, start: real, timeScale: real)
    requires k.transition == EDGE
    ensures CalculateUpdate(false, k, elapsed, start, timeScale) ==
            if elapsed * timeScale + 40.0 < k.duration then start else k.value
  {
    MixMoves(start, k.value, InterleavePoint(k, elapsed, timeScale));
  }

  /** EASE_IN leaves the start value with the square of the elapsed share. */
  lemma EaseInIsSquare(k: Keyframe, elapsed: real, start: real, timeScale: real)
    requires k.transition == EASE_IN && k.duration > 0.0
    ensures var s, x := elapsed * timeScale, CalculateUpdate(false, k, elapsed, start, timeScale);
            (x - start) * k.duration * k.duration == s * s * (k.value - start)
  {
    ShareOfDuration(k, elapsed, timeScale);
    MixMoves(start, k.value, InterleavePoint(k, elapsed, timeScale));
    SquareTimes(Share(k, elapsed, timeScale), elapsed * timeScale, k.value - start, k.duration);
  }

  /** EASE_OUT comes to the target with the square of the share that is left. */
  lemma EaseOutIsSquare(k: Keyframe, elapsed: real, start: real, timeScale: real)
    requires k.transition == EASE_OUT && k.duration > 0.0
    ensures var s, x := elapsed * timeScale, CalculateUpdate(false, k, elapsed, start, timeScale);
            (k.value - x) * k.duration * k.duration == (k.duration - s) * (k.duration - s) * (k.value - start)
  {
    ShareOfDuration(k, elapsed, timeScale);
    var left := 1.0 - Share(k, elapsed, timeScale);
    assert left * k.duration == k.duration - elapsed * timeScale;
    MixMoves(start, k.value, InterleavePoint(k, elapsed, timeScale));
    SquareTimes(left, k.duration - elapsed * timeScale, k.value - start, k.duration);
  }

  /** An integer channel gets the same value without its fraction. */
  lemma IntegralCutsOff(k: Keyframe, elapsed: real, start: real, timeScale: real)
    requires HasPoint(k)
    ensures var x := CalculateUpdate(false, k, elapsed, start, timeScale);
            var y := CalculateUpdate(true, k, elapsed, start, timeScale);
            Whole(y) && if x >= 0.0 then y <= x < y + 1.0 && y >= 0.0 else y - 1.0 < x <= y && y <= 0.0
  {
    var x := CalculateUpdate(false, k, elapsed, start, timeScale);
    if x >= 0.0 {
      FloorIsClose(x);
      NumberIsWhole(x.Floor);
    } else {
      FloorIsClose(-x);
      NumberIsWhole((-x).Floor);
      WholeNegation((-x).Floor as real);
    }
  }

  lemma FloorIsClose(x: real)
    requires x >= 0.0
    ensures 0.0 <= x.Floor as real <= x < x.Floor as real + 1.0
  {
    var f := x.Floor;
    assert f as real <= x < (f + 1) as real;
    assert f + 1 > 0;
  }

  /** Exactly when the point is between start and target: always for LINEAR and EDGE, for the eases as
      long as the transition has not overshot its duration. */
  lemma PointInUnit(k: Keyframe, elapsed: real, timeScale: real)
    requires HasPoint(k)
    ensures InUnit(InterleavePoint(k, elapsed, timeScale)) <==> Tame(k, elapsed, timeScale)
  {
    if k.transition == EASE_IN {
      SquareInUnit(Share(k, elapsed, timeScale));
    } else if k.transition == EASE_OUT {
      SquareInUnit(1.0 - Share(k, elapsed, timeScale));
    }
  }

  /** No curve but an ease can be asked for a share it overshoots at. */
  predicate Tame(k: Keyframe, elapsed: real, timeScale: real)
    requires HasPoint(k)
  {
    match k.transition
    case LINEAR => true
    case EDGE => true
    case EASE_IN => -1.0 <= Share(k, elapsed, timeScale) <= 1.0
    case EASE_OUT => 0.0 <= Share(k, elapsed, timeScale) <= 2.0
  }

  /** A keyframe asks for values in every range of start and target exactly when it is tame: always for
      LINEAR and EDGE, for the eases depending on the elapsed share of the duration. */
  lemma StaysBetweenIffTame(k: Keyframe, elapsed: real, timeScale: real)
    requires HasPoint(k)
    ensures Tame(k, elapsed, timeScale) <==>
            forall start, target, lo, hi
              {:trigger Requested(k, elapsed, timeScale, start, target), Between(start, lo, hi)} ::
              Between(start, lo, hi) && Between(target, lo, hi) ==>
                Between(Requested(k, elapsed, timeScale, start, target), lo, hi)
  {
    PointInUnit(k, elapsed, timeScale);
    var point := InterleavePoint(k, elapsed, timeScale);
    if InUnit(point) {
      forall start, target, lo, hi | Between(start, lo, hi) && Between(target, lo, hi)
        ensures Between(Requested(k, elapsed, timeScale, start, target), lo, hi)
      {
        RequestedIsMix(k, elapsed, timeScale, start, target);
        MixBetween(start, target, point, lo, hi);
      }
    } else {
      RequestedIsMix(k, elapsed, timeScale, 0.0, 1.0);
      MixFromZeroToOne(point);
      assert Between(0.0, 0.0, 1.0) && Between(1.0, 0.0, 1.0);
    }
  }

  lemma RequestedIsMix(k: Keyframe, elapsed: real, timeScale: real, start: real, target: real)
    requires HasPoint(k)
    ensures Requested(k, elapsed, timeScale, start, target) ==
            Mix(start, target, InterleavePoint(k, elapsed, timeScale))
  {
    var k' := k.(value := target);
    assert k.duration != 0.0 ==> Share(k', elapsed, timeScale) == Share(k, elapsed, timeScale);
  }

  /** What a frame like `k` with the given target asks for in a channel of doubles. */
  function Requested(k: Keyframe, elapsed: real, timeScale: real, start: real, target: real): real
    requires HasPoint(k)
  {
    CalculateUpdate(false, k.(value := target), elapsed, start, timeScale)
  }

  /** For the two values at hand: unless they are the same, the request leaves their range as soon as the
      frame is not tame. */
  lemma OvershootsUnlessTame(k: Keyframe, elapsed: real, start: real, timeScale: real)
    requires HasPoint(k)
    ensures Between(CalculateUpdate(false, k, elapsed, start, timeScale), Min(start, k.value), Max(start, k.value)) <==>
            start == k.value || Tame(k, elapsed, timeScale)
  {
    PointInUnit(k, elapsed, timeScale);
    MixBetweenEnds(start, k.value, InterleavePoint(k, elapsed, timeScale));
  }

  lemma MixBetweenEnds(start: real, target: real, point: real)
    ensures Between(Mix(start, target, point), Min(start, target), Max(start, target)) <==>
            start == target || InUnit(point)
  {
    var d := target - start;
    assert Mix(start, target, point) == start + d * point;
    if d > 0.0 {
      OrderTimes(point, 0.0, d);
      OrderTimes(point, 1.0, d);
    } else if d < 0.0 {
      OrderTimes(point, 0.0, -d);
      OrderTimes(point, 1.0, -d);
      assert d * point == -(point * (-d));
    }
  }

  lemma OrderTimes(a: real, b: real, d: real)
    requires d > 0.0
    ensures (a <= b <==> a * d <= b * d) && (b <= a <==> b * d <= a * d)
  {
    var c := b - a;
    assert b * d - a * d == c * d;
    assert c > 0.0 ==> c * d > 0.0;
    assert c < 0.0 ==> c * d < 0.0;
  }

  lemma CastBetween(integral: bool, x: real, lo: real, hi: real)
    requires Between(x, lo, hi) && (integral ==> Whole(lo) && Whole(hi))
    ensures Between(Cast(integral, x), lo, hi)
  {
    if integral {
      if x >= 0.0 {
        FloorBetween(x, lo, hi);
      } else {
        WholeNegation(hi);
        FloorBetween(-x, -hi, -lo);
      }
    }
  }

  // ----- the cursor over a transition's keyframes -----

  datatype FrameQueue = FrameQueue(frames: seq<Keyframe>, position: nat, startTime: real, startValue: real) {
    predicate Empty() {
      position >= |frames|
    }

    function Front(): Keyframe
      requires !Empty()
    {
      frames[position]
    }

    function Advance(time: real, value: real): FrameQueue {
      FrameQueue(frames, position + 1, time, value)
    }
  }

  predicate Expired(q: FrameQueue, time: real, timeScale: real)
    requires !q.Empty()
  {
    time * timeScale >= q.startTime + Max(q.Front().duration, MIN_CYCLE_TIME)
  }

  /** The current frame has started and is not over. */
  predicate Running(q: FrameQueue, time: real, timeScale: real) {
    !q.Empty() && q.startTime >= 0.0 && !Expired(q, time, timeScale)
  }

  /** One turn of the loop that brings a queue up to date. */
  function Turn(q: FrameQueue, time: real, timeScale: real, current: real): FrameQueue {
    if q.Empty() then q
    else if q.startTime < 0.0 then q.(startTime := time * timeScale)
    else if Expired(q, time, timeScale) then q.Advance(time, current)
    else q
  }

  /** A queue that has not started needs a scaled time of zero or more to start at. */
  predicate Ends(q: FrameQueue, time: real, timeScale: real) {
    time * timeScale >= 0.0 || q.Empty() || q.startTime >= 0.0
  }

  /** All turns: the queue the loop ends with, used up or with its front frame running. */
  function Settle(q: FrameQueue, time: real, timeScale: real, current: real): (q': FrameQueue)
    requires Ends(q, time, timeScale)
    ensures q'.Empty() || Running(q', time, timeScale)
    ensures q'.frames == q.frames && q'.position >= q.position
    decreases if q.Empty() then 0 else |q.frames| - q.position, if q.startTime < 0.0 then 1 else 0
  {
    if q.Empty() || Running(q, time, timeScale) then q
    else Settle(Turn(q, time, timeScale, current), time, timeScale, current)
  }

  /** A queue that has not started starts with its front frame, at the scaled time. */
  lemma StartsNow(q: FrameQueue, time: real, timeScale: real, current: real)
    requires !q.Empty() && q.startTime < 0.0 <= time * timeScale
    ensures Settle(q, time, timeScale, current) == FrameQueue(q.frames, q.position, time * timeScale, q.startValue)
  {
    var started := q.(startTime := time * timeScale);
    assert Settle(q, time, timeScale, current) == Settle(started, time, timeScale, current) == started;
  }

  /** A frame goes on for its duration, and for 40 ms at least. */
  lemma GoesOn(q: FrameQueue, time: real, timeScale: real, current: real)
    requires !q.Empty() && q.startTime >= 0.0
    requires time * timeScale - q.startTime < q.frames[q.position].duration || time * timeScale - q.startTime < 40.0
    ensures Ends(q, time, timeScale) && Settle(q, time, timeScale, current) == q
  {
  }

  /** When that time is over, the next frame starts now, at the value the channel has; if there is none,
      or it is not over at once, this is all. */
  lemma MovesOn(q: FrameQueue, time: real, timeScale: real, current: real)
    requires !q.Empty() && q.startTime >= 0.0
    requires q.frames[q.position].duration <= time * timeScale - q.startTime && 40.0 <= time * timeScale - q.startTime
    ensures var next := FrameQueue(q.frames, q.position + 1, time, current);
            && Ends(q, time, timeScale) && Ends(next, time, timeScale)
            && Settle(q, time, timeScale, current) == Settle(next, time, timeScale, current)
            && (q.position + 1 >= |q.frames| ==> Settle(q, time, timeScale, current) == next)
            && (q.position + 1 < |q.frames| && time >= 0.0 && time * timeScale - time < 40.0 ==>
                  Settle(q, time, timeScale, current) == next)
  {
    var next := FrameQueue(q.frames, q.position + 1, time, current);
    assert Turn(q, time, timeScale, current) == next;
    if q.position + 1 < |q.frames| && time >= 0.0 && time * timeScale - time < 40.0 {
      GoesOn(next, time, timeScale, current);
    }
  }

  function Turns(q: FrameQueue, time: real, timeScale: real, current: real, n: nat): FrameQueue {
    if n == 0 then q else Turn(Turns(q, time, timeScale, current, n - 1), time, timeScale, current)
  }

  predicate Done(q: FrameQueue, time: real, timeScale: real) {
    q.Empty() || Running(q, time, timeScale)
  }

  ghost predicate LoopEnds(q: FrameQueue, time: real, timeScale: real, current: real) {
    exists n: nat :: Done(Turns(q, time, timeScale, current, n), time, timeScale)
  }

  /** The loop ends exactly when the queue has started, is used up, or the scaled time is not negative. */
  lemma LoopEndsIff(q: FrameQueue, time: real, timeScale: real, current: real)
    ensures LoopEnds(q, time, timeScale, current) <==> Ends(q, time, timeScale)
  {
    if Ends(q, time, timeScale) {
      var n := TurnsSettle(q, time, timeScale, current);
    } else {
      forall n: nat
        ensures !Done(Turns(q, time, timeScale, current, n), time, timeScale)
      {
        NegativeTimeLoopsForever(q, time, timeScale, current, n);
      }
    }
  }

  /** The turns reach the settled queue. */
  lemma {:induction false} TurnsSettle(q: FrameQueue, time: real, timeScale: real, current: real) returns (n: nat)
    requires Ends(q, time, timeScale)
    ensures Turns(q, time, timeScale, current, n) == Settle(q, time, timeScale, current)
    decreases if q.Empty() then 0 else |q.frames| - q.position, if q.startTime < 0.0 then 1 else 0
  {
    if Done(q, time, timeScale) {
      n := 0;
    } else {
      var m := TurnsSettle(Turn(q, time, timeScale, current), time, timeScale, current);
      FirstTurn(q, time, timeScale, current, m);
      n := m + 1;
    }
  }

  lemma {:induction false} FirstTurn(q: FrameQueue, time: real, timeScale: real, current: real, n: nat)
    ensures Turns(q, time, timeScale, current, n + 1) ==
            Turns(Turn(q, time, timeScale, current), time, timeScale, current, n)
    decreases n
  {
    if n == 0 {
      assert Turns(q, time, timeScale, current, 1) ==
             Turn(Turns(q, time, timeScale, current, 0), time, timeScale, current);
    } else {
      FirstTurn(q, time, timeScale, current, n - 1);
    }
  }

  /** With a negative scaled time the loop never ends for a queue that has not started: the start time it
      sets looks unset again. */
  lemma {:induction false} NegativeTimeLoopsForever(q: FrameQueue, time: real, timeScale: real, current: real, n: nat)
    requires time * timeScale < 0.0 && !q.Empty() && q.startTime < 0.0
    ensures var q' := Turns(q, time, timeScale, current, n);
            !q'.Empty() && !Running(q', time, timeScale) && q'.position == q.position
    decreases n
  {
    if n > 0 {
      NegativeTimeLoopsForever(q, time, timeScale, current, n - 1);
      TurnsStayUnset(q, time, timeScale, current, n - 1);
    }
  }

  lemma {:induction false} TurnsStayUnset(q: FrameQueue, time: real, timeScale: real, current: real, n: nat)
    requires time * timeScale < 0.0 && !q.Empty() && q.startTime < 0.0
    ensures var q' := Turns(q, time, timeScale, current, n);
            q'.startTime < 0.0 && q'.position == q.position && q'.frames == q.frames
    decreases n
  {
    if n > 0 {
      TurnsStayUnset(q, time, timeScale, current, n - 1);
    }
  }

  // ----- staying within a range -----

  /** LINEAR and EDGE keep their range at any speed. */
  predicate Steady(k: Keyframe) {
    k.transition == LINEAR || k.transition == EDGE
  }

  ghost predicate AllSteady(q: FrameQueue) {
    forall k <- q.frames :: Steady(k)
  }

  /** Start value and targets are in range; an ease is not cut off early and has not started in the future. */
  ghost predicate QueueWithin(q: FrameQueue, lo: real, hi: real, time: real) {
    && Between(q.startValue, lo, hi)
    && (forall k <- q.frames :: Between(k.value, lo, hi) && HasPoint(k))
    && (AllSteady(q) || (q.startTime <= time && forall k <- q.frames :: Steady(k) || k.duration >= MIN_CYCLE_TIME))
  }

  lemma {:induction false} SettleWithin(q: FrameQueue, time: real, timeScale: real, current: real, lo: real, hi: real)
    requires Ends(q, time, timeScale) && (timeScale == 1.0 || AllSteady(q))
    requires QueueWithin(q, lo, hi, time) && Between(current, lo, hi)
    ensures QueueWithin(Settle(q, time, timeScale, current), lo, hi, time)
    decreases if q.Empty() then 0 else |q.frames| - q.position, if q.startTime < 0.0 then 1 else 0
  {
    if !q.Empty() && !Running(q, time, timeScale) {
      SettleWithin(Turn(q, time, timeScale, current), time, timeScale, current, lo, hi);
    }
  }

  /** What a running frame asks for lies in the range of the value it started from and its target. */
  lemma UpdateWithin(integral: bool, q: FrameQueue, time: real, timeScale: real, lo: real, hi: real)
    requires QueueWithin(q, lo, hi, time) && Running(q, time, timeScale) && (timeScale == 1.0 || AllSteady(q))
    requires integral ==> Whole(lo) && Whole(hi)
    ensures Between(CalculateUpdate(integral, q.Front(), time - q.startTime, q.startValue, timeScale), lo, hi)
  {
    var k, elapsed := q.Front(), time - q.startTime;
    assert k in q.frames;
    if !Steady(k) {
      assert 0.0 <= elapsed * timeScale <= k.duration;
      DivideInUnit(elapsed * timeScale, k.duration);
    }
    PointInUnit(k, elapsed, timeScale);
    var p := InterleavePoint(k, elapsed, timeScale);
    MixBetween(q.startValue, k.value, p, lo, hi);
    CastBetween(integral, Mix(q.startValue, k.value, p), lo, hi);
  }

  /** Such a share does occur: at speed 2 an ease that is still running has come four times too far. */
  lemma EaseOvershootsAtSpeedTwo()
    ensures var q := FrameQueue([Keyframe(100.0, EASE_IN, 1000.0)], 0, -1.0, 0.0);
            var q' := Settle(q, 2000.0, 2.0, 0.0);
            Running(q', 2000.0, 2.0) && !Tame(q'.Front(), 2000.0 - q'.startTime, 2.0) &&
            CalculateUpdate(false, q'.Front(), 2000.0 - q'.startTime, q'.startValue, 2.0) == 1600.0
  {
    var k := Keyframe(100.0, EASE_IN, 1000.0);
    var q := FrameQueue([k], 0, -1.0, 0.0);
    var q1 := Turn(q, 2000.0, 2.0, 0.0);
    assert q1 == FrameQueue([k], 0, 4000.0, 0.0);
    assert Settle(q, 2000.0, 2.0, 0.0) == Settle(q1, 2000.0, 2.0, 0.0) == q1;
    assert Share(k, -2000.0, 2.0) == -4.0;
  }
}
