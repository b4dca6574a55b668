/** One numeric channel of the sequencer filter: it follows any number of transitions at once. */
module SequencerChannel {
  import opened Collections
  import opened Interpolation
  import opened Keyframes

  datatype InterleavingMethod = AVERAGE | MIN | MAX

  // ----- combining the requested values -----

  function Sum(values: seq<real>): real {
    if values == [] then 0.0 else values[0] + Sum(values[1..])
  }

  predicate IsLargest(x: real, values: seq<real>) {
    x in values && forall v <- values :: v <= x
  }

  predicate IsSmallest(x: real, values: seq<real>) {
    x in values && forall v <- values :: x <= v
  }

  /** The value the channel takes from the requested ones. */
  predicate Arbitrated(m: InterleavingMethod, integral: bool, values: seq<real>, x: real)
    requires values != []
  {
    match m
    case AVERAGE => var mean := Sum(values) / |values| as real; x == if integral then mean.Floor as real else mean
    case MIN => IsSmallest(x, values)
    case MAX => IsLargest(x, values)
  }

  lemma {:induction false} SumConcat(xs: seq<real>, ys: seq<real>)
    ensures Sum(xs + ys) == Sum(xs) + Sum(ys)
    decreases |xs|
  {
    if xs == [] {
      assert xs + ys == ys;
    } else {
      assert (xs + ys)[1..] == xs[1..] + ys;
      SumConcat(xs[1..], ys);
    }
  }

  lemma {:induction false} SumPermutation(xs: seq<real>, ys: seq<real>)
    requires multiset(xs) == multiset(ys)
    ensures Sum(xs) == Sum(ys)
    decreases |xs|
  {
    if xs == [] {
      assert |multiset(ys)| == 0;
    } else {
      var k := WithoutOne(xs, ys);
      var before, after := ys[..k], ys[k + 1..];
      SumPermutation(xs[1..], before + after);
      SumConcat(before, after);
      assert ys == before + ([ys[k]] + after);
      SumConcat(before, [ys[k]] + after);
      assert ([ys[k]] + after)[1..] == after;
    }
  }

  /** The channel value is determined, and it does not depend on the order in which the hash map of the
      transitions is walked through. */
  lemma ArbitrationIgnoresOrder(m: InterleavingMethod, integral: bool, xs: seq<real>, ys: seq<real>, x: real, y: real)
    requires multiset(xs) == multiset(ys) && xs != [] && ys != []
    requires Arbitrated(m, integral, xs, x) && Arbitrated(m, integral, ys, y)
    ensures x == y
  {
    PermutationHasSameElements(xs, ys);
    SumPermutation(xs, ys);
    assert |xs| == |multiset(xs)| == |multiset(ys)| == |ys|;
  }

  lemma {:induction false} SumBetween(values: seq<real>, lo: real, hi: real)
    requires forall v <- values :: Between(v, lo, hi)
    ensures Between(Sum(values), lo * |values| as real, hi * |values| as real)
    decreases |values|
  {
    if values != [] {
      assert values == [values[0]] + values[1..];
      assert values[0] in values;
      SumBetween(values[1..], lo, hi);
      AddBetween(values[0], Sum(values[1..]), |values[1..]|, lo, hi);
    }
  }

  lemma AddBetween(x: real, sum: real, n: nat, lo: real, hi: real)
    requires Between(x, lo, hi) && Between(sum, lo * n as real, hi * n as real)
    ensures Between(x + sum, lo * (n + 1) as real, hi * (n + 1) as real)
  {
    var a, b := lo * n as real, hi * n as real;
    assert lo * (n + 1) as real == a + lo by {
      OneMore(lo, n);
    }
    assert hi * (n + 1) as real == b + hi by {
      OneMore(hi, n);
    }
    assert a + lo <= x + sum <= b + hi;
  }

  lemma OneMore(x: real, n: nat)
    ensures x * (n + 1) as real == x * n as real + x
  {
  }

  lemma DivideBetween(s: real, n: real, lo: real, hi: real)
    requires n > 0.0 && Between(s, lo * n, hi * n)
    ensures Between(s / n, lo, hi)
  {
    assert lo == lo * n / n && hi == hi * n / n;
  }

  lemma MeanBetween(values: seq<real>, lo: real, hi: real)
    requires values != [] && forall v <- values :: Between(v, lo, hi)
    ensures Between(Sum(values) / |values| as real, lo, hi)
  {
    SumBetween(values, lo, hi);
    DivideBetween(Sum(values), |values| as real, lo, hi);
  }

  lemma ArbitratedBetween(m: InterleavingMethod, integral: bool, values: seq<real>, x: real, lo: real, hi: real)
    requires values != [] && Arbitrated(m, integral, values, x)
    requires forall v <- values :: Between(v, lo, hi)
    requires integral ==> Whole(lo)
    ensures Between(x, lo, hi)
  {
    if m == AVERAGE {
      MeanBetween(values, lo, hi);
      if integral {
        FloorBetween(Sum(values) / |values| as real, lo, hi);
      }
    }
  }

  /** The least of the values under MIN, the largest under MAX; under AVERAGE the mean, of integers without
      its fraction. */
  lemma ArbitratedValue(m: InterleavingMethod, integral: bool, values: seq<real>, x: real)
    requires values != []
    ensures m == MIN ==> (Arbitrated(m, integral, values, x) <==> x in values && forall v <- values :: v >= x)
    ensures m == MAX ==> (Arbitrated(m, integral, values, x) <==> x in values && forall v <- values :: v <= x)
    ensures var n := |values| as real;
            m == AVERAGE ==>
              (Arbitrated(m, integral, values, x) <==>
               if integral then Whole(x) && x * n <= Sum(values) < (x + 1.0) * n else x * n == Sum(values))
  {
    var n, mean := |values| as real, Sum(values) / |values| as real;
    OrderOfMean(x, Sum(values), n);
    OrderOfMean(x + 1.0, Sum(values), n);
    FloorIs(x, mean);
  }

  lemma OrderOfMean(x: real, sum: real, n: real)
    requires n > 0.0
    ensures (x <= sum / n <==> x * n <= sum) && (sum / n <= x <==> sum <= x * n)
  {
    var mean := sum / n;
    assert mean * n == sum;
    OrderTimes(x, mean, n);
  }

  lemma FloorIs(x: real, y: real)
    ensures x == y.Floor as real <==> Whole(x) && x <= y < x + 1.0
  {
    var f := y.Floor;
    assert f as real <= y < (f + 1) as real;
    NumberIsWhole(f);
    if Whole(x) && x <= y < x + 1.0 {
      var g := x.Floor;
      assert g as real <= y < (g + 1) as real;
      assert g < f + 1 && f < g + 1;
    }
  }

  /** One value is its own arbitration. */
  lemma LoneValue(m: InterleavingMethod, integral: bool, v: real, x: real)
    requires Arbitrated(m, integral, [v], x) && (integral ==> Whole(v))
    ensures x == v
  {
    assert Sum([v]) == v + Sum([v][1..]) == v;
  }

  // ----- the queues of a channel -----

  type Queues = map<nat, FrameQueue>

  /** Every queue has started, is used up, or can start: bringing all of them up to date ends. */
  predicate AllEnd(qs: Queues, time: real, timeScale: real) {
    forall id <- qs :: Ends(qs[id], time, timeScale)
  }

  /** The loops of an update all end exactly then. */
  lemma UpdateEndsIff(qs: Queues, time: real, timeScale: real, current: real)
    ensures AllEnd(qs, time, timeScale) <==> forall id <- qs :: LoopEnds(qs[id], time, timeScale, current)
  {
    forall id | id in qs
      ensures LoopEnds(qs[id], time, timeScale, current) <==> Ends(qs[id], time, timeScale)
    {
      LoopEndsIff(qs[id], time, timeScale, current);
    }
  }

  function SettleAll(qs: Queues, time: real, timeScale: real, current: real): Queues
    requires AllEnd(qs, time, timeScale)
  {
    map id <- qs :: Settle(qs[id], time, timeScale, current)
  }

  /** The queues an update leaves: brought up to date, without the used-up ones. */
  function Remaining(qs: Queues, time: real, timeScale: real, current: real): Queues
    requires AllEnd(qs, time, timeScale)
  {
    var settled := SettleAll(qs, time, timeScale, current);
    map id <- settled | !settled[id].Empty() :: settled[id]
  }

  /** What one queue asks for. */
  function Request(qs: Queues, time: real, timeScale: real, integral: bool, id: nat): real {
    if id in qs && !qs[id].Empty() && HasPoint(qs[id].Front()) then
      CalculateUpdate(integral, qs[id].Front(), time - qs[id].startTime, qs[id].startValue, timeScale)
    else 0.0
  }

  function Requests(qs: Queues, time: real, timeScale: real, integral: bool, order: seq<nat>): seq<real> {
    MapSeq(id => Request(qs, time, timeScale, integral, id), order)
  }

  /** All keyframes have a point to be at. */
  ghost predicate Timed(qs: Queues) {
    forall id <- qs :: forall k <- qs[id].frames :: HasPoint(k)
  }

  ghost predicate IsListing(order: seq<nat>, ids: set<nat>) {
    multiset(order) == multiset(ids)
  }

  function UsedUp(qs: Queues): set<nat> {
    set id <- qs | qs[id].Empty()
  }

  /** During an update: the queues outside of `ids` are up to date, those in `ids` as they were. */
  ghost predicate PartlySettled(qs: Queues, before: Queues, ids: set<nat>, time: real, timeScale: real, current: real)
    requires AllEnd(before, time, timeScale)
  {
    && ids <= qs.Keys == before.Keys
    && forall id <- qs :: qs[id] == if id in ids then before[id] else Settle(before[id], time, timeScale, current)
  }

  lemma SettleOne(qs: Queues, before: Queues, ids: set<nat>, id: nat, time: real, timeScale: real, current: real)
    requires AllEnd(before, time, timeScale) && PartlySettled(qs, before, ids, time, timeScale, current) && id in ids
    ensures var q := Settle(before[id], time, timeScale, current);
            && PartlySettled(qs[id := q], before, ids - {id}, time, timeScale, current)
            && qs[id := q].Keys == qs.Keys && qs[id] == before[id]
            && UsedUp(qs[id := q]) - (ids - {id}) == UsedUp(qs) - ids + if q.Empty() then {id} else {}
  {
  }

  lemma AllSettled(qs: Queues, before: Queues, time: real, timeScale: real, current: real)
    requires AllEnd(before, time, timeScale) && PartlySettled(qs, before, {}, time, timeScale, current)
    ensures qs - UsedUp(qs) == Remaining(before, time, timeScale, current)
  {
    assert qs == SettleAll(before, time, timeScale, current);
  }

  lemma ListOne(order: seq<nat>, ids: set<nat>, id: nat)
    requires IsListing(order, ids) && id !in ids
    ensures IsListing(order + [id], ids + {id})
  {
    assert multiset(ids + {id}) == multiset(ids) + multiset{id};
  }

  lemma ListingSize(order: seq<nat>, ids: set<nat>)
    requires IsListing(order, ids)
    ensures |order| == |ids|
  {
    assert |multiset(order)| == |order| && |multiset(ids)| == |ids|;
  }

  lemma RequestOne(before: Queues, time: real, timeScale: real, current: real, integral: bool, order: seq<nat>, id: nat)
    requires AllEnd(before, time, timeScale) && id in before && Timed(before)
    requires !Settle(before[id], time, timeScale, current).Empty()
    ensures var q := Settle(before[id], time, timeScale, current);
            var qs := Remaining(before, time, timeScale, current);
            && HasPoint(q.Front())
            && Requests(qs, time, timeScale, integral, order + [id]) == Requests(qs, time, timeScale, integral, order)
                 + [CalculateUpdate(integral, q.Front(), time - q.startTime, q.startValue, timeScale)]
  {
    var qs := Remaining(before, time, timeScale, current);
    assert qs[id].Front() in before[id].frames;
    MapSeqConcat(i => Request(qs, time, timeScale, integral, i), order, [id]);
  }

  // ----- staying within a range -----

  ghost predicate AllWithin(qs: Queues, lo: real, hi: real, time: real) {
    forall id <- qs :: QueueWithin(qs[id], lo, hi, time)
  }

  /** No ease is running, or the speed is one. */
  ghost predicate SpeedAllowed(qs: Queues, timeScale: real) {
    timeScale == 1.0 || forall id <- qs :: AllSteady(qs[id])
  }

  lemma RemainingWithin(qs: Queues, time: real, timeScale: real, current: real, lo: real, hi: real)
    requires AllEnd(qs, time, timeScale) && AllWithin(qs, lo, hi, time) && SpeedAllowed(qs, timeScale)
    requires Between(current, lo, hi)
    ensures AllWithin(Remaining(qs, time, timeScale, current), lo, hi, time)
    ensures SpeedAllowed(Remaining(qs, time, timeScale, current), timeScale)
  {
    forall id | id in qs
      ensures QueueWithin(Settle(qs[id], time, timeScale, current), lo, hi, time)
    {
      SettleWithin(qs[id], time, timeScale, current, lo, hi);
    }
  }

  lemma {:induction false} RequestsWithin(qs: Queues, time: real, timeScale: real, integral: bool, order: seq<nat>,
                                          lo: real, hi: real)
    requires AllWithin(qs, lo, hi, time) && SpeedAllowed(qs, timeScale)
    requires forall id <- order :: id in qs && Running(qs[id], time, timeScale)
    requires integral ==> Whole(lo) && Whole(hi)
    ensures forall v <- Requests(qs, time, timeScale, integral, order) :: Between(v, lo, hi)
    decreases |order|
  {
    if order != [] {
      var id := order[0];
      assert id in qs && qs[id].Front() in qs[id].frames;
      UpdateWithin(integral, qs[id], time, timeScale, lo, hi);
      RequestsWithin(qs, time, timeScale, integral, order[1..], lo, hi);
    }
  }

  lemma ListedIds(order: seq<nat>, ids: set<nat>)
    requires IsListing(order, ids)
    ensures forall id <- order :: id in ids
  {
    forall id | id in order
      ensures id in ids
    {
      assert id in multiset(order);
    }
  }

  /** An update of the queues asks for values in the range only, so the channel stays in it. */
  lemma UpdateStaysWithin(m: InterleavingMethod, integral: bool, qs: Queues, time: real, timeScale: real, current: real,
                          order: seq<nat>, x: real, lo: real, hi: real)
    requires AllEnd(qs, time, timeScale) && AllWithin(qs, lo, hi, time) && SpeedAllowed(qs, timeScale)
    requires Between(current, lo, hi) && (integral ==> Whole(lo) && Whole(hi))
    requires var left := Remaining(qs, time, timeScale, current);
             && IsListing(order, left.Keys) && order != []
             && Arbitrated(m, integral, Requests(left, time, timeScale, integral, order), x)
    ensures Between(x, lo, hi)
  {
    var left := Remaining(qs, time, timeScale, current);
    RemainingWithin(qs, time, timeScale, current, lo, hi);
    ListedIds(order, left.Keys);
    RequestsWithin(left, time, timeScale, integral, order, lo, hi);
    ArbitratedBetween(m, integral, Requests(left, time, timeScale, integral, order), x, lo, hi);
  }

  /** Two walks through the same queues, in different orders, give the channel the same value. */
  lemma WalkOrderIsIrrelevant(m: InterleavingMethod, integral: bool, qs: Queues, time: real, timeScale: real,
                              order: seq<nat>, other: seq<nat>, x: real, y: real)
    requires IsListing(order, qs.Keys) && IsListing(other, qs.Keys) && order != [] && other != []
    requires Arbitrated(m, integral, Requests(qs, time, timeScale, integral, order), x)
    requires Arbitrated(m, integral, Requests(qs, time, timeScale, integral, other), y)
    ensures x == y
  {
    MapSeqPermutation(id => Request(qs, time, timeScale, integral, id), order, other);
    ArbitrationIgnoresOrder(m, integral, Requests(qs, time, timeScale, integral, order),
                            Requests(qs, time, timeScale, integral, other), x, y);
  }

  // ----- the channel -----

  datatype Settings = Settings(defaultValue: real, onEmpty: bool, onClear: bool, interleaving: InterleavingMethod,
                               integral: bool)

  datatype ChannelState = ChannelState(queues: Queues, value: real)

  datatype ChannelStep =
    | InsertKeyframes(frames: seq<Keyframe>, id: nat, resetAllowed: bool)
    | Clear
    | ApplyUpdate(time: real, timeScale: real)

  /** The value is what the running frames ask for, in whatever order they are asked. */
  ghost predicate TakesRequests(c: Settings, s: ChannelState, time: real, timeScale: real) {
    exists order :: order != [] && IsListing(order, s.queues.Keys) &&
      Arbitrated(c.interleaving, c.integral, Requests(s.queues, time, timeScale, c.integral, order), s.value)
  }

  /** What each step does to a channel. */
  ghost predicate Follows(c: Settings, s: ChannelState, step: ChannelStep, s': ChannelState) {
    match step
    case InsertKeyframes(frames, id, resetAllowed) =>
      && s'.value == s.value
      && s'.queues == if resetAllowed || id !in s.queues then s.queues[id := FrameQueue(frames, 0, -1.0, s.value)]
                      else s.queues
    case Clear =>
      s' == ChannelState(map[], if c.onClear then c.defaultValue else s.value)
    case ApplyUpdate(time, timeScale) => AllEnd(s.queues, time, timeScale) && Updates(c, s, time, timeScale, s')
  }

  /** The queues are brought up to date and the used-up ones dropped; the value follows what is left. */
  ghost predicate Updates(c: Settings, s: ChannelState, time: real, timeScale: real, s': ChannelState)
    requires AllEnd(s.queues, time, timeScale)
  {
    && s'.queues == Remaining(s.queues, time, timeScale, s.value)
    && (s.queues == map[] ==> s'.value == if c.onEmpty then c.defaultValue else s.value)
    && (s.queues != map[] && s'.queues == map[] ==> s'.value == s.value)
    && (s'.queues != map[] ==> TakesRequests(c, s', time, timeScale))
  }

  class Channel {
    var currentValue: real
    const defaultValue: real
    var upcommingKeyframes: Queues
    const applyDefaultOnEmpty: bool
    const applyDefaultOnClear: bool
    const interleaving: InterleavingMethod
    const integral: bool

    constructor (defaultValue: real, onEmpty: bool, onClear: bool, interleaving: InterleavingMethod, integral: bool)
      ensures currentValue == this.defaultValue == defaultValue && upcommingKeyframes == map[]
      ensures applyDefaultOnEmpty == onEmpty && applyDefaultOnClear == onClear
      ensures this.interleaving == interleaving && this.integral == integral
    {
      currentValue, this.defaultValue, upcommingKeyframes := defaultValue, defaultValue, map[];
      applyDefaultOnEmpty, applyDefaultOnClear := onEmpty, onClear;
      this.interleaving, this.integral := interleaving, integral;
    }

    function Configured(): Settings {
      Settings(defaultValue, applyDefaultOnEmpty, applyDefaultOnClear, interleaving, integral)
    }

    function State(): ChannelState
      reads this
    {
      ChannelState(upcommingKeyframes, currentValue)
    }

    predicate TransitionActive(id: nat)
      reads this
    {
      id in upcommingKeyframes
    }

    /** Starts a transition from the current value; a running one is restarted or left alone. */
    method InsertKeyframes(frames: seq<Keyframe>, id: nat, resetAllowed: bool) returns (inserted: bool)
      modifies this`upcommingKeyframes
      ensures inserted <==> resetAllowed || !old(TransitionActive(id))
      ensures upcommingKeyframes == if inserted
                then old(upcommingKeyframes)[id := FrameQueue(frames, 0, -1.0, currentValue)]
                else old(upcommingKeyframes)
      ensures Follows(Configured(), old(State()), ChannelStep.InsertKeyframes(frames, id, resetAllowed), State())
    {
      if TransitionActive(id) {
        if !resetAllowed {
          return false;
        }
        upcommingKeyframes := upcommingKeyframes - {id};
      }
      upcommingKeyframes := upcommingKeyframes[id := FrameQueue(frames, 0, -1.0, currentValue)];
      return true;
    }

    method Clear()
      modifies this`upcommingKeyframes, this`currentValue
      ensures upcommingKeyframes == map[]
      ensures currentValue == if applyDefaultOnClear then defaultValue else old(currentValue)
      ensures Follows(Configured(), old(State()), ChannelStep.Clear, State())
    {
      upcommingKeyframes := map[];
      if applyDefaultOnClear {
        currentValue := defaultValue;
      }
    }

    /** Brings all queues up to date, takes the requested values over, drops the used-up queues. */
    method ApplyUpdate(time: real, timeScale: real) returns (removed: bool)
      requires AllEnd(upcommingKeyframes, time, timeScale) && Timed(upcommingKeyframes)
      modifies this`upcommingKeyframes, this`currentValue
      ensures upcommingKeyframes == Remaining(old(upcommingKeyframes), time, timeScale, old(currentValue))
      ensures removed <==> upcommingKeyframes.Keys != old(upcommingKeyframes.Keys)
      ensures upcommingKeyframes == map[] ==>
                currentValue == if old(upcommingKeyframes) == map[] && applyDefaultOnEmpty then defaultValue
                                else old(currentValue)
      ensures Updates(Configured(), old(State()), time, timeScale, State())
    {
      if upcommingKeyframes == map[] {
        if applyDefaultOnEmpty {
          currentValue := defaultValue;
        }
        NothingRemains(time, timeScale, currentValue);
        return false;
      }
      ghost var before, current := upcommingKeyframes, currentValue;
      var w := SettleQueues(upcommingKeyframes, time, timeScale, currentValue, integral);
      currentValue := PerformUpdateArbiting(w.requested);
      WalkFollows(Configured(), ChannelState(before, current), w, time, timeScale, currentValue);
      removed := w.toRemove != {};
      upcommingKeyframes := w.qs - w.toRemove;
    }

    method PerformUpdateArbiting(values: seq<real>) returns (value: real)
      ensures values == [] ==> value == currentValue
      ensures values != [] ==> Arbitrated(interleaving, integral, values, value)
    {
      if values == [] {
        return currentValue;
      }
      match interleaving {
        case AVERAGE =>
          value := Average(values, integral);
        case MAX =>
          value := values[0];
          for i := 1 to |values|
            invariant IsLargest(value, values[..i])
          {
            value := Keyframes.Max(value, values[i]);
            assert values[..i + 1] == values[..i] + [values[i]];
          }
          assert values[..|values|] == values;
        case MIN =>
          value := values[0];
          for i := 1 to |values|
            invariant IsSmallest(value, values[..i])
          {
            value := Keyframes.Min(value, values[i]);
            assert values[..i + 1] == values[..i] + [values[i]];
          }
          assert values[..|values|] == values;
      }
    }
  }

  /** The loop over the turns of one queue. */
  method BringUpToDate(q: FrameQueue, time: real, timeScale: real, current: real) returns (q': FrameQueue)
    requires Ends(q, time, timeScale)
    ensures q' == Settle(q, time, timeScale, current)
  {
    q' := q;
    while !q'.Empty() && !Running(q', time, timeScale)
      invariant Ends(q', time, timeScale) && Settle(q', time, timeScale, current) == Settle(q, time, timeScale, current)
      invariant q'.frames == q.frames
      decreases if q'.Empty() then 0 else |q.frames| - q'.position, if q'.startTime < 0.0 then 1 else 0
    {
      if q'.startTime < 0.0 {
        q' := q'.(startTime := time * timeScale);
      } else {
        q' := q'.Advance(time, current);
      }
    }
  }

  /** A walk through the queues: those still to visit, the used-up ones, and what the others asked for. */
  datatype Walk = Walk(qs: Queues, ids: set<nat>, toRemove: set<nat>, requested: seq<real>, order: seq<nat>) {
    ghost predicate Valid(before: Queues, time: real, timeScale: real, current: real, integral: bool)
      requires AllEnd(before, time, timeScale)
    {
      && PartlySettled(qs, before, ids, time, timeScale, current)
      && toRemove == UsedUp(qs) - ids
      && IsListing(order, qs.Keys - ids - toRemove)
      && requested == Requests(Remaining(before, time, timeScale, current), time, timeScale, integral, order)
    }

    function Drop(id: nat, q: FrameQueue): Walk {
      Walk(qs[id := q], ids - {id}, toRemove + {id}, requested, order)
    }

    function Keep(id: nat, q: FrameQueue, request: real): Walk {
      Walk(qs[id := q], ids - {id}, toRemove, requested + [request], order + [id])
    }
  }

  lemma WalkIsDone(w: Walk, before: Queues, time: real, timeScale: real, current: real, integral: bool)
    requires AllEnd(before, time, timeScale) && w.Valid(before, time, timeScale, current, integral) && w.ids == {}
    ensures w.qs - w.toRemove == Remaining(before, time, timeScale, current)
    ensures w.toRemove == {} <==> Remaining(before, time, timeScale, current).Keys == before.Keys
    ensures IsListing(w.order, (w.qs - w.toRemove).Keys)
    ensures w.order == [] <==> w.qs - w.toRemove == map[]
    ensures w.requested == [] <==> w.order == []
    ensures w.requested == Requests(w.qs - w.toRemove, time, timeScale, integral, w.order)
  {
    WalkLeavesRemaining(w, before, time, timeScale, current, integral);
    NoneDropped(w.qs, w.toRemove);
    ListingSize(w.order, (w.qs - w.toRemove).Keys);
  }

  lemma NothingRemains(time: real, timeScale: real, current: real)
    ensures Remaining(map[], time, timeScale, current) == map[]
  {
  }

  lemma WalkFollows(c: Settings, s: ChannelState, w: Walk, time: real, timeScale: real, value: real)
    requires AllEnd(s.queues, time, timeScale) && w.Valid(s.queues, time, timeScale, s.value, c.integral) && w.ids == {}
    requires s.queues != map[] && (w.requested == [] ==> value == s.value)
    requires w.requested != [] ==> Arbitrated(c.interleaving, c.integral, w.requested, value)
    ensures Updates(c, s, time, timeScale, ChannelState(w.qs - w.toRemove, value))
    ensures w.toRemove != {} <==> (w.qs - w.toRemove).Keys != s.queues.Keys
  {
    var s' := ChannelState(w.qs - w.toRemove, value);
    WalkIsDone(w, s.queues, time, timeScale, s.value, c.integral);
    if w.order != [] {
      RequestsTaken(c, s', time, timeScale, w.order, w.requested);
    }
  }

  lemma RequestsTaken(c: Settings, s: ChannelState, time: real, timeScale: real, order: seq<nat>, requested: seq<real>)
    requires order != [] && IsListing(order, s.queues.Keys)
    requires requested == Requests(s.queues, time, timeScale, c.integral, order)
    requires requested != [] && Arbitrated(c.interleaving, c.integral, requested, s.value)
    ensures TakesRequests(c, s, time, timeScale)
  {
  }

  lemma NoneDropped(qs: Queues, toRemove: set<nat>)
    requires toRemove <= qs.Keys
    ensures (qs - toRemove).Keys == qs.Keys - {} - toRemove
    ensures toRemove == {} <==> (qs - toRemove).Keys == qs.Keys
  {
    if id :| id in toRemove {
      assert id in qs.Keys && id !in (qs - toRemove).Keys;
    }
  }

  lemma WalkLeavesRemaining(w: Walk, before: Queues, time: real, timeScale: real, current: real, integral: bool)
    requires AllEnd(before, time, timeScale) && w.Valid(before, time, timeScale, current, integral) && w.ids == {}
    ensures w.qs - w.toRemove == Remaining(before, time, timeScale, current)
    ensures w.toRemove <= w.qs.Keys && w.qs.Keys == before.Keys
  {
    AllSettled(w.qs, before, time, timeScale, current);
    assert w.toRemove == UsedUp(w.qs);
  }

  lemma DropKeepsValid(w: Walk, before: Queues, id: nat, q: FrameQueue, time: real, timeScale: real, current: real,
                       integral: bool)
    requires AllEnd(before, time, timeScale) && w.Valid(before, time, timeScale, current, integral) && id in w.ids
    requires q == Settle(w.qs[id], time, timeScale, current) && q.Empty()
    ensures w.Drop(id, q).Valid(before, time, timeScale, current, integral)
  {
    SettleOne(w.qs, before, w.ids, id, time, timeScale, current);
    assert w.qs.Keys - (w.ids - {id}) - (w.toRemove + {id}) == w.qs.Keys - w.ids - w.toRemove;
  }

  lemma KeepKeepsValid(w: Walk, before: Queues, id: nat, q: FrameQueue, time: real, timeScale: real, current: real,
                       integral: bool)
    requires AllEnd(before, time, timeScale) && w.Valid(before, time, timeScale, current, integral) && id in w.ids
             && Timed(before)
    requires q == Settle(w.qs[id], time, timeScale, current) && !q.Empty()
    ensures HasPoint(q.Front())
    ensures w.Keep(id, q, CalculateUpdate(integral, q.Front(), time - q.startTime, q.startValue, timeScale))
             .Valid(before, time, timeScale, current, integral)
  {
    SettleOne(w.qs, before, w.ids, id, time, timeScale, current);
    RequestOne(before, time, timeScale, current, integral, w.order, id);
    var listed := w.qs.Keys - w.ids - w.toRemove;
    ListOne(w.order, listed, id);
    assert w.qs.Keys - (w.ids - {id}) - w.toRemove == listed + {id};
  }

  /** Brings all queues up to date, in the order the hash map happens to have. */
  method SettleQueues(before: Queues, time: real, timeScale: real, current: real, integral: bool) returns (w: Walk)
    requires AllEnd(before, time, timeScale) && Timed(before)
    ensures w.ids == {} && w.Valid(before, time, timeScale, current, integral)
  {
    w := Walk(before, before.Keys, {}, [], []);
    while w.ids != {}
      invariant w.Valid(before, time, timeScale, current, integral)
      decreases w.ids
    {
      w := VisitOne(w, before, time, timeScale, current, integral);
    }
  }

  method VisitOne(w: Walk, ghost before: Queues, time: real, timeScale: real, current: real, integral: bool)
    returns (w': Walk)
    requires AllEnd(before, time, timeScale) && Timed(before)
    requires w.Valid(before, time, timeScale, current, integral) && w.ids != {}
    ensures w'.Valid(before, time, timeScale, current, integral) && w'.ids < w.ids
  {
    var id :| id in w.ids;
    var q := BringUpToDate(w.qs[id], time, timeScale, current);
    if q.Empty() {
      DropKeepsValid(w, before, id, q, time, timeScale, current, integral);
      return w.Drop(id, q);
    } else {
      KeepKeepsValid(w, before, id, q, time, timeScale, current, integral);
      return w.Keep(id, q, CalculateUpdate(integral, q.Front(), time - q.startTime, q.startValue, timeScale));
    }
  }

  /** Integers are summed up and divided once, doubles are divided one by one. */
  method Average(values: seq<real>, integral: bool) returns (value: real)
    requires values != []
    ensures Arbitrated(AVERAGE, integral, values, value)
  {
    var size := |values| as real;
    var acc := 0.0;
    for i := 0 to |values|
      invariant acc == if integral then Sum(values[..i]) else Sum(values[..i]) / size
    {
      assert values[..i + 1] == values[..i] + [values[i]];
      SumConcat(values[..i], [values[i]]);
      acc := acc + if integral then values[i] else values[i] / size;
    }
    assert values[..|values|] == values;
    value := if integral then (acc / size).Floor as real else acc;
  }
}
