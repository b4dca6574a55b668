/** The sequencer filter: events start transitions, each transition runs in several channels, and a
    summary of the running transitions is kept beside the channels. */
module FilterSequencer {
  import opened Keyframes
  import opened SequencerChannel

  /** `frames` gives the keyframes for each affected channel. */
  datatype Transition = Transition(id: nat, name: string, resetAllowed: bool, frames: map<nat, seq<Keyframe>>)

  /** An entry of the multimap from events to transitions. */
  datatype Trigger = Trigger(event: nat, transition: Transition)

  /** A transition affects existing channels only, and only edges lack a duration. */
  ghost predicate WellFormed(t: Transition, channelCount: nat) {
    forall i <- t.frames :: i < channelCount && forall k <- t.frames[i] :: HasPoint(k)
  }

  /** The transition affects some channel. The configuration accepts others, too. */
  predicate HasFrames(t: Transition) {
    t.frames.Keys != {}
  }

  /** The queues of all channels and the summary. */
  datatype View = View(queues: seq<Queues>, active: map<nat, string>)

  /** The id has a queue in at least one channel. */
  ghost predicate Runs(queues: seq<Queues>, id: nat) {
    exists i :: 0 <= i < |queues| && id in queues[i]
  }

  /** The summary lists exactly the transitions that run. */
  ghost predicate Exact(v: View) {
    forall id: nat :: id in v.active <==> Runs(v.queues, id)
  }

  /** The summary lists every transition that runs. */
  ghost predicate Complete(v: View) {
    forall id: nat :: Runs(v.queues, id) ==> id in v.active
  }

  // ----- starting transitions -----

  predicate CanStart(v: View, t: Transition) {
    t.resetAllowed || t.id !in v.active
  }

  /** The queue of a transition in one channel, right after its start. */
  function StartedIn(q: Queues, i: nat, value: real, t: Transition): Queues {
    if i in t.frames then q[t.id := FrameQueue(t.frames[i], 0, -1.0, value)] else q
  }

  function Start(v: View, values: seq<real>, t: Transition): (v': View)
    requires |v.queues| == |values|
    ensures |v'.queues| == |v.queues|
  {
    if !CanStart(v, t) then v
    else View(seq(|v.queues|, i requires 0 <= i < |v.queues| => StartedIn(v.queues[i], i, values[i], t)),
              v.active[t.id := t.name])
  }

  function StartAll(v: View, values: seq<real>, ts: seq<Transition>): (v': View)
    requires |v.queues| == |values|
    ensures |v'.queues| == |v.queues|
    decreases |ts|
  {
    if ts == [] then v else StartAll(Start(v, values, ts[0]), values, ts[1..])
  }

  lemma StartKeepsComplete(v: View, values: seq<real>, t: Transition)
    requires Complete(v) && |v.queues| == |values|
    ensures Complete(Start(v, values, t))
  {
    var v' := Start(v, values, t);
    forall id: nat | Runs(v'.queues, id)
      ensures id in v'.active
    {
      if id != t.id {
        assert forall i :: 0 <= i < |v.queues| ==> (id in v'.queues[i] <==> id in v.queues[i]);
        assert Runs(v.queues, id);
      }
    }
  }

  /** Starting a transition keeps the summary exact, unless it affects no channel: then the summary lists it
      although it does not run. */
  lemma StartKeepsExactIff(v: View, values: seq<real>, t: Transition)
    requires Exact(v) && |v.queues| == |values| && WellFormed(t, |v.queues|)
    ensures Exact(Start(v, values, t)) <==> HasFrames(t) || t.id in v.active
  {
    var v' := Start(v, values, t);
    if HasFrames(t) && CanStart(v, t) {
      var c :| c in t.frames;
      assert t.id in v'.queues[c];
    }
    forall id: nat | id != t.id
      ensures Runs(v'.queues, id) <==> Runs(v.queues, id)
    {
      assert forall i :: 0 <= i < |v.queues| ==> (id in v'.queues[i] <==> id in v.queues[i]);
    }
    if !HasFrames(t) {
      SameQueues(v, values, t);
    }
  }

  lemma SameQueues(v: View, values: seq<real>, t: Transition)
    requires |v.queues| == |values| && !HasFrames(t)
    ensures Start(v, values, t).queues == v.queues
  {
    assert forall i :: i !in t.frames;
  }

  /** A transition that may not be restarted enters all of its channels afresh, or, when the summary lists
      it, none. */
  lemma AllOrNone(v: View, values: seq<real>, t: Transition)
    requires Complete(v) && |v.queues| == |values| && WellFormed(t, |v.queues|) && !t.resetAllowed
    ensures t.id in v.active ==> Start(v, values, t) == v
    ensures t.id !in v.active ==> !Runs(v.queues, t.id) && forall i :: 0 <= i < |v.queues| ==>
              (i in t.frames <==> t.id in Start(v, values, t).queues[i])
              && (i in t.frames ==> Start(v, values, t).queues[i][t.id] == FrameQueue(t.frames[i], 0, -1.0, values[i]))
  {
    if t.id !in v.active {
      assert forall i :: 0 <= i < |v.queues| && t.id in v.queues[i] ==> Runs(v.queues, t.id);
    }
  }

  /** A transition that may start, because it does not run or may be restarted, enters all of its channels
      afresh, each with its own frames and from its own value; nothing else changes. */
  lemma StartsAfresh(v: View, values: seq<real>, t: Transition)
    requires |v.queues| == |values|
    ensures var v' := Start(v, values, t);
            if t.resetAllowed || t.id !in v.active then
              && v'.active == v.active[t.id := t.name]
              && forall i :: 0 <= i < |v.queues| ==>
                   if i in t.frames
                   then v'.queues[i] == v.queues[i][t.id := FrameQueue(t.frames[i], 0, -1.0, values[i])]
                   else v'.queues[i] == v.queues[i]
            else v' == v
  {
  }

  lemma {:induction false} StartAllKeepsComplete(v: View, values: seq<real>, ts: seq<Transition>)
    requires Complete(v) && |v.queues| == |values|
    ensures Complete(StartAll(v, values, ts))
    decreases |ts|
  {
    if ts != [] {
      StartKeepsComplete(v, values, ts[0]);
      StartAllKeepsComplete(Start(v, values, ts[0]), values, ts[1..]);
    }
  }

  /** Every transition has an id of its own. */
  predicate OwnIds(ts: seq<Transition>) {
    forall i, j :: 0 <= i < |ts| && 0 <= j < |ts| && ts[i].id == ts[j].id ==> ts[i] == ts[j]
  }

  predicate Shown(v: View, ts: seq<Transition>) {
    forall i :: 0 <= i < |ts| ==> HasFrames(ts[i]) || ts[i].id in v.active
  }

  /** The summary stays exact exactly when all transitions that start affect a channel, or run already. */
  lemma {:induction false} StartAllKeepsExactIff(v: View, values: seq<real>, ts: seq<Transition>)
    requires Exact(v) && |v.queues| == |values| && (forall t <- ts :: WellFormed(t, |v.queues|)) && OwnIds(ts)
    ensures Exact(StartAll(v, values, ts)) <==> Shown(v, ts)
    decreases |ts|
  {
    if ts != [] {
      var t, rest := ts[0], ts[1..];
      var v' := Start(v, values, t);
      StartKeepsExactIff(v, values, t);
      assert OwnIds(rest) by {
        assert forall i :: 0 <= i < |rest| ==> rest[i] == ts[i + 1];
      }
      if HasFrames(t) || t.id in v.active {
        StartAllKeepsExactIff(v', values, rest);
        ShownNext(v, values, ts);
      } else {
        SameQueues(v, values, t);
        assert forall i :: 0 <= i < |rest| && rest[i].id == t.id ==> rest[i] == ts[i + 1] == t;
        NeverRuns(v', values, rest, t.id);
      }
    }
  }

  lemma ShownNext(v: View, values: seq<real>, ts: seq<Transition>)
    requires ts != [] && |v.queues| == |values| && OwnIds(ts) && (HasFrames(ts[0]) || ts[0].id in v.active)
    ensures Shown(v, ts) <==> Shown(Start(v, values, ts[0]), ts[1..])
  {
    var v', rest := Start(v, values, ts[0]), ts[1..];
    forall i | 0 <= i < |rest|
      ensures rest[i] == ts[i + 1]
      ensures (HasFrames(rest[i]) || rest[i].id in v'.active) <==> HasFrames(rest[i]) || rest[i].id in v.active
    {
      if rest[i].id == ts[0].id {
        assert ts[i + 1] == ts[0];
      }
    }
    if Shown(v', rest) {
      forall i | 0 <= i < |ts|
        ensures HasFrames(ts[i]) || ts[i].id in v.active
      {
        assert i > 0 ==> ts[i] == rest[i - 1];
      }
    }
  }

  /** A transition that affects no channel is listed without running, whatever else starts. */
  lemma {:induction false} NeverRuns(v: View, values: seq<real>, ts: seq<Transition>, id: nat)
    requires |v.queues| == |values| && !Runs(v.queues, id) && id in v.active
    requires forall i :: 0 <= i < |ts| && ts[i].id == id ==> !HasFrames(ts[i])
    ensures var w := StartAll(v, values, ts); !Runs(w.queues, id) && id in w.active && !Exact(w)
    decreases |ts|
  {
    if ts != [] {
      var v' := Start(v, values, ts[0]);
      if !HasFrames(ts[0]) {
        SameQueues(v, values, ts[0]);
      } else {
        assert forall i :: 0 <= i < |v.queues| ==> (id in v'.queues[i] <==> id in v.queues[i]);
      }
      NeverRuns(v', values, ts[1..], id);
    }
  }

  /** The transitions an event starts, in the order of the multimap. */
  function StartedBy(triggers: seq<Trigger>, event: nat): seq<Transition> {
    if triggers == [] then []
    else
      var init := StartedBy(triggers[..|triggers| - 1], event);
      var last := triggers[|triggers| - 1];
      if last.event == event then init + [last.transition] else init
  }

  /** The transitions all events of a cycle start. */
  function AllStarted(triggers: seq<Trigger>, events: seq<nat>): seq<Transition> {
    if events == [] then []
    else AllStarted(triggers, events[..|events| - 1]) + StartedBy(triggers, events[|events| - 1])
  }

  lemma OneStarted(trigger: Trigger, event: nat)
    ensures AllStarted([trigger], [event]) == if trigger.event == event then [trigger.transition] else []
  {
    assert [event][..0] == [] && [trigger][..0] == [];
    assert AllStarted([trigger], []) == [] && StartedBy([], event) == [];
    assert AllStarted([trigger], [event]) == AllStarted([trigger], [event][..0]) + StartedBy([trigger], event);
    assert StartedBy([trigger], event) ==
           StartedBy([trigger][..0], event) + if trigger.event == event then [trigger.transition] else [];
  }

  /** Earlier events start their transitions first. */
  lemma {:induction false} StartedInOrderOfEvents(triggers: seq<Trigger>, a: seq<nat>, b: seq<nat>)
    ensures AllStarted(triggers, a + b) == AllStarted(triggers, a) + AllStarted(triggers, b)
    decreases |b|
  {
    if b == [] {
      assert a + b == a;
    } else {
      var n := |b| - 1;
      assert (a + b)[..|a| + n] == a + b[..n];
      StartedInOrderOfEvents(triggers, a, b[..n]);
    }
  }

  /** For one event the transitions start in the order of the triggers. */
  lemma {:induction false} StartedInOrderOfTriggers(a: seq<Trigger>, b: seq<Trigger>, event: nat)
    ensures AllStarted(a + b, [event]) == AllStarted(a, [event]) + AllStarted(b, [event])
    decreases |b|
  {
    SingleEvent(a, event);
    SingleEvent(b, event);
    SingleEvent(a + b, event);
    if b == [] {
      assert a + b == a;
    } else {
      var n := |b| - 1;
      assert (a + b)[..|a| + n] == a + b[..n];
      StartedInOrderOfTriggers(a, b[..n], event);
      SingleEvent(b[..n], event);
      SingleEvent(a + b[..n], event);
    }
  }

  lemma SingleEvent(triggers: seq<Trigger>, event: nat)
    ensures AllStarted(triggers, [event]) == StartedBy(triggers, event)
  {
    assert [event][..0] == [];
    assert AllStarted(triggers, [event]) == AllStarted(triggers, [event][..0]) + StartedBy(triggers, event);
  }

  /** The trigger starts its transition at one of the events. */
  predicate Fires(trigger: Trigger, events: seq<nat>) {
    exists i :: 0 <= i < |events| && events[i] == trigger.event
  }

  lemma {:induction false} StartedByIff(triggers: seq<Trigger>, event: nat, t: Transition)
    ensures t in StartedBy(triggers, event) <==>
            exists k :: 0 <= k < |triggers| && triggers[k].event == event && triggers[k].transition == t
    decreases |triggers|
  {
    if triggers != [] {
      StartedByIff(triggers[..|triggers| - 1], event, t);
    }
  }

  /** A transition starts exactly when one of its triggers has the sender of one of the events. */
  lemma {:induction false} StartedIff(triggers: seq<Trigger>, events: seq<nat>, t: Transition)
    ensures t in AllStarted(triggers, events) <==>
            exists k :: 0 <= k < |triggers| && Fires(triggers[k], events) && triggers[k].transition == t
    decreases |events|
  {
    if events != [] {
      var n := |events| - 1;
      StartedIff(triggers, events[..n], t);
      StartedByIff(triggers, events[n], t);
      forall k | 0 <= k < |triggers|
        ensures Fires(triggers[k], events) <==> Fires(triggers[k], events[..n]) || triggers[k].event == events[n]
      {
        assert events == events[..n] + [events[n]];
      }
    }
  }

  lemma NothingStarted(triggers: seq<Trigger>, events: seq<nat>)
    requires forall k <- triggers :: !Fires(k, events)
    ensures AllStarted(triggers, events) == []
  {
    if AllStarted(triggers, events) != [] {
      StartedIff(triggers, events, AllStarted(triggers, events)[0]);
    }
  }

  lemma {:induction false} StartAllConcat(v: View, values: seq<real>, a: seq<Transition>, b: seq<Transition>)
    requires |v.queues| == |values|
    ensures StartAll(v, values, a + b) == StartAll(StartAll(v, values, a), values, b)
    decreases |a|
  {
    if a == [] {
      assert a + b == b;
    } else {
      assert (a + b)[1..] == a[1..] + b;
      StartAllConcat(Start(v, values, a[0]), values, a[1..], b);
    }
  }

  // ----- one cycle -----

  /** All queues of all channels can be brought up to date. */
  predicate QueuesEnd(queues: seq<Queues>, time: real, timeScale: real) {
    forall i :: 0 <= i < |queues| ==> AllEnd(queues[i], time, timeScale)
  }

  /** With a negative scaled time a cycle ends exactly when the queues end as they are and none of its
      transitions enters a channel. */
  lemma {:induction false} NegativeCycleEndsIff(v: View, values: seq<real>, ts: seq<Transition>, time: real,
                                                timeScale: real)
    requires |v.queues| == |values| && time * timeScale < 0.0 && OwnIds(ts)
    requires forall t <- ts :: WellFormed(t, |v.queues|) && forall i <- t.frames :: t.frames[i] != []
    ensures QueuesEnd(StartAll(v, values, ts).queues, time, timeScale) <==>
            QueuesEnd(v.queues, time, timeScale) && NoneEnters(v, ts)
    decreases |ts|
  {
    if ts != [] {
      if HasFrames(ts[0]) && CanStart(v, ts[0]) {
        var i :| i in ts[0].frames;
        StartedStaysUnset(Start(v, values, ts[0]), values, ts[1..], i, ts[0].id);
        var q := StartAll(v, values, ts).queues[i];
        assert !Ends(q[ts[0].id], time, timeScale);
      } else {
        var v', rest := Start(v, values, ts[0]), ts[1..];
        assert forall i :: 0 <= i < |rest| ==> rest[i] == ts[i + 1];
        if !HasFrames(ts[0]) {
          SameQueues(v, values, ts[0]);
        }
        NegativeCycleEndsIff(v', values, rest, time, timeScale);
        NoneEntersNext(v, values, ts);
      }
    }
  }

  /** No transition with frames can start. */
  predicate NoneEnters(v: View, ts: seq<Transition>) {
    forall i :: 0 <= i < |ts| ==> HasFrames(ts[i]) ==> !CanStart(v, ts[i])
  }

  lemma NoneEntersNext(v: View, values: seq<real>, ts: seq<Transition>)
    requires ts != [] && |v.queues| == |values| && OwnIds(ts) && (HasFrames(ts[0]) ==> !CanStart(v, ts[0]))
    ensures NoneEnters(v, ts) <==> NoneEnters(Start(v, values, ts[0]), ts[1..])
  {
    var v', rest := Start(v, values, ts[0]), ts[1..];
    forall i | 0 <= i < |rest| && HasFrames(rest[i])
      ensures rest[i] == ts[i + 1] && (CanStart(v', rest[i]) <==> CanStart(v, rest[i]))
    {
      if rest[i].id == ts[0].id {
        assert ts[i + 1] == ts[0];
      }
    }
    if NoneEnters(v', rest) {
      forall i | 0 <= i < |ts| && HasFrames(ts[i])
        ensures !CanStart(v, ts[i])
      {
        assert i > 0 ==> ts[i] == rest[i - 1];
      }
    }
  }

  /** A queue that has just been started waits for its start time, whatever else starts. */
  lemma {:induction false} StartedStaysUnset(v: View, values: seq<real>, ts: seq<Transition>, i: nat, id: nat)
    requires |v.queues| == |values| && i < |v.queues| && id in v.queues[i]
    requires !v.queues[i][id].Empty() && v.queues[i][id].startTime < 0.0
    requires forall t <- ts :: forall j <- t.frames :: t.frames[j] != []
    ensures var q := StartAll(v, values, ts).queues[i];
            id in q && !q[id].Empty() && q[id].startTime < 0.0
    decreases |ts|
  {
    if ts != [] {
      assert ts[0] in ts;
      StartedStaysUnset(Start(v, values, ts[0]), values, ts[1..], i, id);
    }
  }

  function ApplyAll(queues: seq<Queues>, values: seq<real>, time: real, timeScale: real): (qs: seq<Queues>)
    requires |queues| == |values| && QueuesEnd(queues, time, timeScale)
    ensures |qs| == |queues|
  {
    seq(|queues|, i requires 0 <= i < |queues| => Remaining(queues[i], time, timeScale, values[i]))
  }

  ghost predicate SomethingRemoved(before: seq<Queues>, after: seq<Queues>)
    requires |before| == |after|
  {
    exists i :: 0 <= i < |before| && before[i].Keys != after[i].Keys
  }

  function StatesOf(queues: seq<Queues>, values: seq<real>): (ss: seq<ChannelState>)
    requires |queues| == |values|
    ensures |ss| == |queues|
  {
    seq(|queues|, i requires 0 <= i < |queues| => ChannelState(queues[i], values[i]))
  }

  function QueuesOf(ss: seq<ChannelState>): (queues: seq<Queues>)
    ensures |queues| == |ss|
  {
    seq(|ss|, i requires 0 <= i < |ss| => ss[i].queues)
  }

  /** The first `n` channels have been updated, the others are as they were. */
  ghost predicate UpdatedUpTo(cs: seq<Settings>, before: seq<ChannelState>, now: seq<ChannelState>, n: nat,
                              time: real, timeScale: real) {
    && |cs| == |before| == |now| && n <= |now|
    && (forall i :: 0 <= i < |before| ==> AllEnd(before[i].queues, time, timeScale))
    && (forall i :: 0 <= i < n ==> Updates(cs[i], before[i], time, timeScale, now[i]))
    && (forall i :: n <= i < |now| ==> now[i] == before[i])
  }

  ghost predicate RemovedUpTo(before: seq<ChannelState>, now: seq<ChannelState>, n: nat)
    requires n <= |before| == |now|
  {
    exists i :: 0 <= i < n && before[i].queues.Keys != now[i].queues.Keys
  }

  lemma OneMoreUpdated(cs: seq<Settings>, before: seq<ChannelState>, now: seq<ChannelState>, next: seq<ChannelState>,
                       i: nat, time: real, timeScale: real)
    requires UpdatedUpTo(cs, before, now, i, time, timeScale) && i < |now| == |next|
    requires next == now[i := next[i]] && Updates(cs[i], before[i], time, timeScale, next[i])
    ensures UpdatedUpTo(cs, before, next, i + 1, time, timeScale)
    ensures RemovedUpTo(before, next, i + 1) <==>
            RemovedUpTo(before, now, i) || before[i].queues.Keys != next[i].queues.Keys
  {
    if RemovedUpTo(before, now, i) {
      var j :| 0 <= j < i && before[j].queues.Keys != now[j].queues.Keys;
      assert next[j] == now[j];
    }
  }

  lemma UpdatedQueues(cs: seq<Settings>, queues: seq<Queues>, values: seq<real>, now: seq<ChannelState>, time: real,
                      timeScale: real)
    requires |queues| == |values| == |now| && QueuesEnd(queues, time, timeScale)
    requires UpdatedUpTo(cs, StatesOf(queues, values), now, |now|, time, timeScale)
    ensures QueuesOf(now) == ApplyAll(queues, values, time, timeScale)
    ensures RemovedUpTo(StatesOf(queues, values), now, |now|) <==> SomethingRemoved(queues, QueuesOf(now))
  {
    forall i | 0 <= i < |now|
      ensures QueuesOf(now)[i] == ApplyAll(queues, values, time, timeScale)[i]
    {
      assert Updates(cs[i], StatesOf(queues, values)[i], time, timeScale, now[i]);
    }
    if SomethingRemoved(queues, QueuesOf(now)) {
      var i :| 0 <= i < |queues| && queues[i].Keys != QueuesOf(now)[i].Keys;
      assert StatesOf(queues, values)[i].queues.Keys != now[i].queues.Keys;
    }
  }

  /** The summary without the transitions that no longer run. */
  ghost function Collected(active: map<nat, string>, queues: seq<Queues>): map<nat, string> {
    map id <- active | Runs(queues, id) :: active[id]
  }

  ghost function Apply(v: View, values: seq<real>, time: real, timeScale: real): (v': View)
    requires |v.queues| == |values| && QueuesEnd(v.queues, time, timeScale)
    ensures |v'.queues| == |v.queues|
  {
    var queues := ApplyAll(v.queues, values, time, timeScale);
    View(queues, if SomethingRemoved(v.queues, queues) then Collected(v.active, queues) else v.active)
  }

  lemma KeysOnlyLeave(v: View, values: seq<real>, time: real, timeScale: real, id: nat)
    requires |v.queues| == |values| && QueuesEnd(v.queues, time, timeScale)
    ensures var queues := ApplyAll(v.queues, values, time, timeScale);
            && (Runs(queues, id) ==> Runs(v.queues, id))
            && (!SomethingRemoved(v.queues, queues) ==> (Runs(queues, id) <==> Runs(v.queues, id)))
  {
    var queues := ApplyAll(v.queues, values, time, timeScale);
    forall i | 0 <= i < |queues|
      ensures queues[i].Keys <= v.queues[i].Keys
      ensures !SomethingRemoved(v.queues, queues) ==> queues[i].Keys == v.queues[i].Keys
    {
    }
    assert forall i :: 0 <= i < |queues| && id in queues[i] ==> id in v.queues[i];
    if !SomethingRemoved(v.queues, queues) {
      assert forall i :: 0 <= i < |queues| && id in v.queues[i] ==> id in queues[i];
    }
  }

  lemma OnlyLeave(v: View, values: seq<real>, time: real, timeScale: real)
    requires |v.queues| == |values| && QueuesEnd(v.queues, time, timeScale)
    ensures var v' := Apply(v, values, time, timeScale);
            v'.active.Keys <= v.active.Keys && forall i :: 0 <= i < |v.queues| ==> v'.queues[i].Keys <= v.queues[i].Keys
  {
  }

  /** Updating the channels leaves an exact summary exact, and makes any other exact as soon as something
      ends in some channel. */
  lemma ApplyMakesExactIff(v: View, values: seq<real>, time: real, timeScale: real)
    requires Complete(v) && |v.queues| == |values| && QueuesEnd(v.queues, time, timeScale)
    ensures Complete(Apply(v, values, time, timeScale))
    ensures Exact(Apply(v, values, time, timeScale)) <==>
            Exact(v) || SomethingRemoved(v.queues, ApplyAll(v.queues, values, time, timeScale))
  {
    forall id: nat
      ensures var queues := ApplyAll(v.queues, values, time, timeScale);
              && (Runs(queues, id) ==> Runs(v.queues, id))
              && (!SomethingRemoved(v.queues, queues) ==> (Runs(queues, id) <==> Runs(v.queues, id)))
    {
      KeysOnlyLeave(v, values, time, timeScale, id);
    }
  }

  // ----- all runs -----

  /** What happens to a sequencer: a cycle (with the transitions its events start and the channel values
      it finds), or its scene being switched on. */
  datatype Happening = Cycle(started: seq<Transition>, values: seq<real>, time: real, timeScale: real) | SceneActivated

  /** The queues of a cycle end once its transitions have started. */
  ghost predicate Possible(v: View, h: Happening) {
    match h
    case Cycle(started, values, time, timeScale) =>
      && |values| == |v.queues| && (forall t <- started :: WellFormed(t, |v.queues|))
      && QueuesEnd(StartAll(v, values, started).queues, time, timeScale)
    case SceneActivated => true
  }

  ghost function Happen(v: View, h: Happening): (v': View)
    requires Possible(v, h)
    ensures |v'.queues| == |v.queues|
  {
    match h
    case Cycle(started, values, time, timeScale) => Apply(StartAll(v, values, started), values, time, timeScale)
    case SceneActivated => View(seq(|v.queues|, i => map[]), map[])
  }

  ghost predicate CanHappen(v: View, hs: seq<Happening>)
    decreases |hs|
  {
    hs == [] || (Possible(v, hs[0]) && CanHappen(Happen(v, hs[0]), hs[1..]))
  }

  ghost function HappenAll(v: View, hs: seq<Happening>): View
    requires CanHappen(v, hs)
    decreases |hs|
  {
    if hs == [] then v else HappenAll(Happen(v, hs[0]), hs[1..])
  }

  /** All transitions that start affect a channel. */
  predicate Framed(h: Happening) {
    h.Cycle? ==> forall i :: 0 <= i < |h.started| ==> HasFrames(h.started[i])
  }

  lemma HappenKeepsComplete(v: View, h: Happening)
    requires Complete(v) && Possible(v, h)
    ensures Complete(Happen(v, h))
  {
    if h.Cycle? {
      StartAllKeepsComplete(v, h.values, h.started);
      ApplyMakesExactIff(StartAll(v, h.values, h.started), h.values, h.time, h.timeScale);
    }
  }

  lemma {:induction false} FramedStartsKeepExact(v: View, values: seq<real>, ts: seq<Transition>)
    requires Exact(v) && |v.queues| == |values|
    requires forall i :: 0 <= i < |ts| ==> WellFormed(ts[i], |v.queues|) && HasFrames(ts[i])
    ensures Exact(StartAll(v, values, ts))
    decreases |ts|
  {
    if ts != [] {
      StartKeepsExactIff(v, values, ts[0]);
      FramedStartsKeepExact(Start(v, values, ts[0]), values, ts[1..]);
    }
  }

  lemma HappenKeepsExact(v: View, h: Happening)
    requires Exact(v) && Possible(v, h) && Framed(h)
    ensures Exact(Happen(v, h))
  {
    if h.Cycle? {
      FramedStartsKeepExact(v, h.values, h.started);
      ApplyMakesExactIff(StartAll(v, h.values, h.started), h.values, h.time, h.timeScale);
    }
  }

  /** After a cycle that starts at an exact summary the summary is exact again exactly when all transitions
      that started affect a channel or were running, or when something ended in the cycle. */
  lemma CycleExactIff(v: View, h: Happening)
    requires Exact(v) && h.Cycle? && Possible(v, h) && OwnIds(h.started)
    ensures var w := StartAll(v, h.values, h.started);
            Exact(Happen(v, h)) <==>
            Shown(v, h.started) || SomethingRemoved(w.queues, ApplyAll(w.queues, h.values, h.time, h.timeScale))
  {
    StartAllKeepsExactIff(v, h.values, h.started);
    StartAllKeepsComplete(v, h.values, h.started);
    ApplyMakesExactIff(StartAll(v, h.values, h.started), h.values, h.time, h.timeScale);
  }

  /** After every cycle and every activation, in every run, the summary lists every transition that runs;
      and no other, unless a transition has started that affects no channel. */
  lemma {:induction false} EveryRun(v: View, hs: seq<Happening>)
    requires Complete(v) && CanHappen(v, hs)
    ensures Complete(HappenAll(v, hs))
    ensures Exact(v) && (forall h <- hs :: Framed(h)) ==> Exact(HappenAll(v, hs))
    decreases |hs|
  {
    if hs != [] {
      HappenKeepsComplete(v, hs[0]);
      if Exact(v) && Framed(hs[0]) {
        HappenKeepsExact(v, hs[0]);
      }
      assert hs == [hs[0]] + hs[1..];
      EveryRun(Happen(v, hs[0]), hs[1..]);
    }
  }

  // ----- the filter -----

  class FilterSequencer {
    const channels: seq<Channel>
    const transitions: seq<Trigger>
    var activeTransitions: map<nat, string>

    constructor (channels: seq<Channel>, transitions: seq<Trigger>)
      requires forall i, j :: 0 <= i < j < |channels| ==> channels[i] != channels[j]
      requires forall c <- channels :: c.upcommingKeyframes == map[]
      requires forall t <- transitions :: WellFormed(t.transition, |channels|)
      ensures Valid() && this.channels == channels && this.transitions == transitions && activeTransitions == map[]
    {
      this.channels, this.transitions, activeTransitions := channels, transitions, map[];
    }

    ghost predicate Consistent()
      reads this, channels
    {
      && (forall i, j :: 0 <= i < j < |channels| ==> channels[i] != channels[j])
      && (forall t <- transitions :: WellFormed(t.transition, |channels|))
      && (forall i :: 0 <= i < |channels| ==> Timed(channels[i].upcommingKeyframes))
    }

    ghost predicate Valid()
      reads this, channels
    {
      Consistent() && Complete(Look()) && (AllHaveFrames() ==> Exact(Look()))
    }

    predicate AllHaveFrames() {
      forall t <- transitions :: HasFrames(t.transition)
    }

    ghost function Look(): View
      reads this, channels
    {
      View(AllQueues(), activeTransitions)
    }

    ghost function AllQueues(): (qs: seq<Queues>)
      reads this, channels
      ensures |qs| == |channels|
    {
      seq(|channels|, i reads this, channels requires 0 <= i < |channels| => channels[i].upcommingKeyframes)
    }

    ghost function AllValues(): (vs: seq<real>)
      reads this, channels
      ensures |vs| == |channels|
    {
      seq(|channels|, i reads this, channels requires 0 <= i < |channels| => channels[i].currentValue)
    }

    /** Starts a transition in all of its channels. */
    method EnqueueTransition(t: Transition) returns (started: bool)
      requires Valid() && WellFormed(t, |channels|) && (AllHaveFrames() ==> HasFrames(t))
      modifies this`activeTransitions, channels
      ensures started <==> t.resetAllowed || t.id !in old(activeTransitions)
      ensures activeTransitions == if started then old(activeTransitions)[t.id := t.name] else old(activeTransitions)
      ensures Valid() && AllValues() == old(AllValues())
      ensures Look() == old(Start(Look(), AllValues(), t))
    {
      StartKeepsComplete(Look(), AllValues(), t);
      if AllHaveFrames() {
        StartKeepsExactIff(Look(), AllValues(), t);
      }
      if !t.resetAllowed && t.id in activeTransitions {
        return false;
      }
      NotRunningYet(Look(), t);
      ghost var after := Start(Look(), AllValues(), t);
      InsertIntoChannels(t);
      activeTransitions := activeTransitions[t.id := t.name];
      assert AllQueues() == after.queues;
      return true;
    }

    /** The loops over the channels of the transition. */
    method InsertIntoChannels(t: Transition)
      requires Consistent() && WellFormed(t, |channels|)
      requires t.resetAllowed || forall i :: 0 <= i < |channels| ==> t.id !in AllQueues()[i]
      modifies channels
      ensures Consistent() && AllValues() == old(AllValues())
      ensures forall i :: 0 <= i < |channels| ==>
              AllQueues()[i] == StartedIn(old(AllQueues())[i], i, old(AllValues())[i], t)
    {
      ghost var queues, values := AllQueues(), AllValues();
      for i := 0 to |channels|
        invariant Consistent() && AllValues() == values
        invariant forall j :: 0 <= j < i ==> AllQueues()[j] == StartedIn(queues[j], j, values[j], t)
        invariant forall j :: i <= j < |channels| ==> AllQueues()[j] == queues[j]
      {
        assert channels[i].upcommingKeyframes == AllQueues()[i] && channels[i].currentValue == AllValues()[i];
        if i in t.frames {
          var inserted := channels[i].InsertKeyframes(t.frames[i], t.id, t.resetAllowed);
        }
      }
    }

    /** Starts all transitions of one event. */
    method HandleEvent(event: nat)
      requires Valid()
      modifies this`activeTransitions, channels
      ensures Valid() && AllValues() == old(AllValues())
      ensures Look() == old(StartAll(Look(), AllValues(), StartedBy(transitions, event)))
    {
      ghost var before, values := Look(), AllValues();
      for i := 0 to |transitions|
        invariant Valid() && AllValues() == values
        invariant Look() == StartAll(before, values, StartedBy(transitions[..i], event))
      {
        assert transitions[..i + 1][..i] == transitions[..i];
        if transitions[i].event == event {
          ghost var soFar := StartedBy(transitions[..i], event);
          StartAllConcat(before, values, soFar, [transitions[i].transition]);
          var started := EnqueueTransition(transitions[i].transition);
        }
      }
      assert transitions[..|transitions|] == transitions;
    }

    ghost function Configs(): (cs: seq<Settings>)
      ensures |cs| == |channels| && forall i :: 0 <= i < |channels| ==> cs[i] == channels[i].Configured()
    {
      seq(|channels|, i requires 0 <= i < |channels| => channels[i].Configured())
    }

    ghost function States(): (ss: seq<ChannelState>)
      reads this, channels
      ensures |ss| == |channels|
    {
      seq(|channels|, i reads this, channels requires 0 <= i < |channels| => channels[i].State())
    }

    /** Every channel has been updated, its value included. */
    ghost predicate ChannelsUpdated(queues: seq<Queues>, values: seq<real>, time: real, timeScale: real)
      reads this, channels
      requires |queues| == |values| == |channels|
    {
      UpdatedUpTo(Configs(), StatesOf(queues, values), States(), |channels|, time, timeScale)
    }

    /** Updates one channel. */
    method UpdateOne(i: nat, time: real, timeScale: real) returns (removed: bool)
      requires Consistent() && i < |channels| && AllEnd(States()[i].queues, time, timeScale)
      modifies channels[i]
      ensures Consistent() && States() == old(States())[i := channels[i].State()]
      ensures Updates(channels[i].Configured(), old(States())[i], time, timeScale, channels[i].State())
      ensures removed <==> old(States())[i].queues.Keys != channels[i].upcommingKeyframes.Keys
    {
      TimedRemaining(channels[i].upcommingKeyframes, time, timeScale, channels[i].currentValue);
      ghost var before := States();
      removed := channels[i].ApplyUpdate(time, timeScale);
      assert forall j :: 0 <= j < |channels| && j != i ==> channels[j].State() == before[j];
      assert States() == before[i := channels[i].State()];
    }

    /** Updates all channels; tells whether some transition has ended in some channel. */
    method ApplyUpdates(time: real, timeScale: real) returns (removed: bool)
      requires Consistent() && QueuesEnd(AllQueues(), time, timeScale)
      modifies channels
      ensures Consistent()
      ensures AllQueues() == ApplyAll(old(AllQueues()), old(AllValues()), time, timeScale)
      ensures removed <==> SomethingRemoved(old(AllQueues()), AllQueues())
      ensures ChannelsUpdated(old(AllQueues()), old(AllValues()), time, timeScale)
    {
      ghost var queues, values := AllQueues(), AllValues();
      ghost var before := StatesOf(queues, values);
      assert States() == before;
      removed := false;
      for i := 0 to |channels|
        invariant Consistent() && UpdatedUpTo(Configs(), before, States(), i, time, timeScale)
        invariant removed <==> RemovedUpTo(before, States(), i)
      {
        ghost var now := States();
        var r := UpdateOne(i, time, timeScale);
        OneMoreUpdated(Configs(), before, now, States(), i, time, timeScale);
        removed := removed || r;
      }
      assert AllQueues() == QueuesOf(States());
      UpdatedQueues(Configs(), queues, values, States(), time, timeScale);
    }

    /** Starts the transitions of all events of the cycle. */
    method HandleEvents(events: seq<nat>)
      requires Valid()
      modifies this`activeTransitions, channels
      ensures Valid() && AllValues() == old(AllValues())
      ensures Look() == old(StartAll(Look(), AllValues(), AllStarted(transitions, events)))
    {
      ghost var before, values := Look(), AllValues();
      for i := 0 to |events|
        invariant Valid() && AllValues() == values
        invariant Look() == StartAll(before, values, AllStarted(transitions, events[..i]))
      {
        assert events[..i + 1][..i] == events[..i];
        StartAllConcat(before, values, AllStarted(transitions, events[..i]), StartedBy(transitions, events[i]));
        HandleEvent(events[i]);
      }
      assert events[..|events|] == events;
    }

    /** Updates the channels, and the summary when it has to be. */
    method Advance(time: real, timeScale: real)
      requires Valid() && QueuesEnd(AllQueues(), time, timeScale)
      modifies this`activeTransitions, channels
      ensures Valid()
      ensures Look() == old(Apply(Look(), AllValues(), time, timeScale))
      ensures ChannelsUpdated(old(AllQueues()), old(AllValues()), time, timeScale)
    {
      ghost var after := Apply(Look(), AllValues(), time, timeScale);
      ApplyMakesExactIff(Look(), AllValues(), time, timeScale);
      var removed := ApplyUpdates(time, timeScale);
      assert AllQueues() == after.queues;
      if removed {
        PerformTransitionGc();
      }
      assert AllQueues() == after.queues;
      assert Look() == after;
    }

    /** What the events of a cycle start. */
    ghost function AfterEvents(events: seq<nat>): (v: View)
      reads this, channels
      ensures |v.queues| == |channels|
    {
      StartAll(Look(), AllValues(), AllStarted(transitions, events))
    }

    /** One cycle. */
    method Update(events: seq<nat>, time: real, timeScale: real)
      requires Valid() && QueuesEnd(AfterEvents(events).queues, time, timeScale)
      modifies this`activeTransitions, channels
      ensures Valid()
      ensures Look() == old(Apply(AfterEvents(events), AllValues(), time, timeScale))
      ensures ChannelsUpdated(old(AfterEvents(events)).queues, old(AllValues()), time, timeScale)
      ensures (forall k <- transitions :: !Fires(k, events)) ==>
                && old(AfterEvents(events) == Look())
                && activeTransitions.Keys <= old(activeTransitions).Keys
                && forall i :: 0 <= i < |channels| ==> AllQueues()[i].Keys <= old(AllQueues())[i].Keys
    {
      if forall k <- transitions :: !Fires(k, events) {
        NothingStarted(transitions, events);
        OnlyLeave(Look(), AllValues(), time, timeScale);
      }
      HandleEvents(events);
      Advance(time, timeScale);
    }

    method SceneActivated()
      requires Valid()
      modifies this`activeTransitions, channels
      ensures Valid() && activeTransitions == map[]
      ensures forall i :: 0 <= i < |channels| ==>
                Follows(channels[i].Configured(), old(channels[i].State()), ChannelStep.Clear, channels[i].State())
      ensures forall i :: 0 <= i < |channels| ==>
                && channels[i].upcommingKeyframes == map[]
                && channels[i].currentValue ==
                   if channels[i].applyDefaultOnClear then channels[i].defaultValue else old(channels[i].currentValue)
    {
      for i := 0 to |channels|
        invariant Consistent()
        invariant forall j :: 0 <= j < i ==>
                    Follows(channels[j].Configured(), old(channels[j].State()), ChannelStep.Clear, channels[j].State())
        invariant forall j :: i <= j < |channels| ==> channels[j].State() == old(channels[j].State())
      {
        channels[i].Clear();
      }
      activeTransitions := map[];
    }

    method ComputeTransitionActive(id: nat) returns (active: bool)
      ensures active <==> Runs(AllQueues(), id)
    {
      for i := 0 to |channels|
        invariant forall j :: 0 <= j < i ==> id !in AllQueues()[j]
      {
        if channels[i].TransitionActive(id) {
          assert id in AllQueues()[i];
          return true;
        }
      }
      return false;
    }

    /** Drops the transitions that no longer run from the summary. */
    method PerformTransitionGc()
      requires Consistent()
      modifies this`activeTransitions
      ensures Consistent() && AllQueues() == old(AllQueues()) && States() == old(States())
      ensures activeTransitions == Collected(old(activeTransitions), AllQueues())
    {
      ghost var queues, states := AllQueues(), States();
      var ids := activeTransitions.Keys;
      while ids != {}
        invariant AllQueues() == queues && States() == states && Consistent()
        invariant ids <= activeTransitions.Keys <= old(activeTransitions.Keys)
        invariant forall id <- activeTransitions :: activeTransitions[id] == old(activeTransitions[id])
        invariant forall id <- old(activeTransitions.Keys) - ids :: id in activeTransitions <==> Runs(queues, id)
        decreases |ids|
      {
        var id :| id in ids;
        var active := ComputeTransitionActive(id);
        if !active {
          activeTransitions := activeTransitions - {id};
        }
        ids := ids - {id};
      }
    }
  }

  lemma TimedRemaining(qs: Queues, time: real, timeScale: real, current: real)
    requires Timed(qs) && AllEnd(qs, time, timeScale)
    ensures Timed(Remaining(qs, time, timeScale, current))
  {
  }

  lemma NotRunningYet(v: View, t: Transition)
    requires Complete(v) && CanStart(v, t)
    ensures t.resetAllowed || forall i :: 0 <= i < |v.queues| ==> t.id !in v.queues[i]
  {
    if i :| 0 <= i < |v.queues| && t.id in v.queues[i] {
      assert Runs(v.queues, t.id);
    }
  }
}
