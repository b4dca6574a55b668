/** The double-buffered event storage: producers insert with a try-lock, the main loop swaps the
    buffers once per cycle and adds one event for everything that is still going on. */
module EventStorage {
  import opened Collections

  datatype EventType = SINGLE_TRIGGER | START | RELEASE | ONGOING_EVENT | INVALID

  /** `sender` is the encoded sender id: the function in the upper, the source in the lower 32 bits. */
  datatype Event = Event(eventType: EventType, arguments: seq<int>, eventId: nat, sender: nat)

  function SourceOf(sender: nat): nat {
    sender % 0x1_0000_0000
  }

  // ----- what is going on after a history of events -----

  /** The latest START or RELEASE of a sender. */
  function LatestMark(history: seq<Event>, sender: nat): Option<Event> {
    if history == [] then None
    else
      var e := history[|history| - 1];
      if e.sender == sender && (e.eventType == START || e.eventType == RELEASE) then Some(e)
      else LatestMark(history[..|history| - 1], sender)
  }

  /** The sender has started and not released since. */
  predicate GoesOn(history: seq<Event>, sender: nat) {
    var m := LatestMark(history, sender); m.Some? && m.value.eventType == START
  }

  /** The map of ongoing events fits a history: one entry for every sender that goes on, with the
      arguments of the event that started it. */
  ghost predicate Fits(ongoing: map<nat, Event>, history: seq<Event>) {
    forall sender: nat ::
      && (sender in ongoing <==> GoesOn(history, sender))
      && (sender in ongoing ==> Continues(ongoing[sender], LatestMark(history, sender).value))
  }

  predicate Continues(e: Event, started: Event) {
    e.eventType == ONGOING_EVENT && e.arguments == started.arguments && e.sender == started.sender
  }

  /** The ongoing map and the event counter after one event of the new read storage. */
  function Track(ongoing: map<nat, Event>, nextEventId: nat, e: Event): (map<nat, Event>, nat) {
    match e.eventType
    case START => (ongoing[e.sender := Event(ONGOING_EVENT, e.arguments, nextEventId, e.sender)], nextEventId + 1)
    case RELEASE => (ongoing - {e.sender}, nextEventId)
    case _ => (ongoing, nextEventId)
  }

  function TrackAll(ongoing: map<nat, Event>, nextEventId: nat, events: seq<Event>): (map<nat, Event>, nat) {
    if events == [] then (ongoing, nextEventId)
    else
      var before := TrackAll(ongoing, nextEventId, events[..|events| - 1]);
      Track(before.0, before.1, events[|events| - 1])
  }

  lemma TrackFits(ongoing: map<nat, Event>, nextEventId: nat, history: seq<Event>, e: Event)
    requires Fits(ongoing, history)
    ensures Fits(Track(ongoing, nextEventId, e).0, history + [e])
  {
    var h := history + [e];
    assert h[..|h| - 1] == history && h[|h| - 1] == e;
    var ongoing' := Track(ongoing, nextEventId, e).0;
    forall sender: nat
      ensures sender in ongoing' <==> GoesOn(h, sender)
      ensures sender in ongoing' ==> Continues(ongoing'[sender], LatestMark(h, sender).value)
    {
      assert sender in ongoing <==> GoesOn(history, sender);
    }
  }

  lemma {:induction false} TrackAllFits(ongoing: map<nat, Event>, nextEventId: nat, history: seq<Event>,
                                        events: seq<Event>)
    requires Fits(ongoing, history)
    ensures Fits(TrackAll(ongoing, nextEventId, events).0, history + events)
    decreases |events|
  {
    if events == [] {
      assert history + events == history;
    } else {
      var init, e := events[..|events| - 1], events[|events| - 1];
      TrackAllFits(ongoing, nextEventId, history, init);
      var before := TrackAll(ongoing, nextEventId, init);
      TrackFits(before.0, before.1, history + init, e);
      assert history + events == history + init + [e];
    }
  }

  function CountStarts(events: seq<Event>): nat {
    if events == [] then 0
    else CountStarts(events[..|events| - 1]) + if events[|events| - 1].eventType == START then 1 else 0
  }

  /** Every START takes an id of its own for what goes on. */
  lemma {:induction false} IdsAreCounted(ongoing: map<nat, Event>, nextEventId: nat, events: seq<Event>)
    ensures TrackAll(ongoing, nextEventId, events).1 == nextEventId + CountStarts(events)
    decreases |events|
  {
    if events != [] {
      IdsAreCounted(ongoing, nextEventId, events[..|events| - 1]);
    }
  }

  predicate Marks(e: Event, sender: nat) {
    e.sender == sender && (e.eventType == START || e.eventType == RELEASE)
  }

  /** What no START or RELEASE of its sender touches goes on as it was. */
  lemma {:induction false} GoesOnUntouched(ongoing: map<nat, Event>, nextEventId: nat, events: seq<Event>, sender: nat)
    requires forall e <- events :: !Marks(e, sender)
    ensures var after := TrackAll(ongoing, nextEventId, events).0;
            (sender in after <==> sender in ongoing) && (sender in ongoing ==> after[sender] == ongoing[sender])
    decreases |events|
  {
    if events != [] {
      assert events[|events| - 1] in events;
      GoesOnUntouched(ongoing, nextEventId, events[..|events| - 1], sender);
    }
  }

  /** After its last START a sender goes on with the arguments of that event, under the next free id. */
  lemma {:induction false} LastStartGoesOn(ongoing: map<nat, Event>, nextEventId: nat, events: seq<Event>, i: nat)
    requires i < |events| && events[i].eventType == START
    requires forall j :: i < j < |events| ==> !Marks(events[j], events[i].sender)
    ensures var after, e := TrackAll(ongoing, nextEventId, events).0, events[i];
            && e.sender in after
            && after[e.sender] == Event(ONGOING_EVENT, e.arguments, nextEventId + CountStarts(events[..i]), e.sender)
    decreases |events|
  {
    var k := |events| - 1;
    if i < k {
      assert events[..k][..i] == events[..i];
      LastStartGoesOn(ongoing, nextEventId, events[..k], i);
    } else {
      IdsAreCounted(ongoing, nextEventId, events[..k]);
    }
  }

  /** The values of the map in the order of its keys. */
  ghost predicate ListsAll(events: seq<Event>, ongoing: map<nat, Event>) {
    && (forall i, j :: 0 <= i < j < |events| ==> events[i].sender < events[j].sender)
    && (forall e <- events :: e.sender in ongoing && ongoing[e.sender] == e)
    && (forall sender <- ongoing :: exists e <- events :: e.sender == sender)
  }

  /** The ongoing part of a cycle: one event for each sender that goes on, and for no other, by
      ascending sender. */
  ghost predicate IsOngoingPart(events: seq<Event>, history: seq<Event>) {
    && (forall i, j :: 0 <= i < j < |events| ==> events[i].sender < events[j].sender)
    && (forall e <- events :: GoesOn(history, e.sender) && Continues(e, LatestMark(history, e.sender).value))
    && (forall sender: nat :: GoesOn(history, sender) ==> exists e <- events :: e.sender == sender)
  }

  lemma ListedPart(events: seq<Event>, ongoing: map<nat, Event>, history: seq<Event>)
    requires ListsAll(events, ongoing) && Fits(ongoing, history)
    ensures IsOngoingPart(events, history)
  {
    forall e | e in events
      ensures GoesOn(history, e.sender) && Continues(e, LatestMark(history, e.sender).value)
    {
      assert e.sender in ongoing;
    }
    forall sender: nat | GoesOn(history, sender)
      ensures exists e <- events :: e.sender == sender
    {
      assert sender in ongoing;
    }
  }

  lemma {:induction false} LeastOf(keys: set<nat>) returns (k: nat)
    requires keys != {}
    ensures k in keys && forall j <- keys :: k <= j
    decreases |keys|
  {
    var one :| one in keys;
    k := one;
    if keys != {one} {
      var least := LeastOf(keys - {one});
      assert forall j <- keys :: j == one || j in keys - {one};
      if least < one {
        k := least;
      }
    }
  }

  /** The walk through the map has listed all senders but the given ones, which come later. */
  ghost predicate ListsSoFar(events: seq<Event>, ongoing: map<nat, Event>, later: set<nat>) {
    && later <= ongoing.Keys
    && (forall i, j :: 0 <= i < j < |events| ==> events[i].sender < events[j].sender)
    && (forall e <- events :: e.sender in ongoing && ongoing[e.sender] == e)
    && (forall e <- events, k <- later :: e.sender < k)
    && (forall sender <- ongoing :: sender in later || exists e <- events :: e.sender == sender)
  }

  lemma ListNext(events: seq<Event>, ongoing: map<nat, Event>, later: set<nat>, k: nat)
    requires ListsSoFar(events, ongoing, later) && k in later && forall j <- later :: k <= j
    requires ongoing[k].sender == k
    ensures ListsSoFar(events + [ongoing[k]], ongoing, later - {k})
  {
    var events' := events + [ongoing[k]];
    assert forall e <- events' :: e in events || e == ongoing[k];
    forall sender | sender in ongoing
      ensures sender in later - {k} || exists e <- events' :: e.sender == sender
    {
      if sender == k {
        assert ongoing[k] in events';
      } else if sender !in later {
        var e :| e in events && e.sender == sender;
        assert e in events';
      }
    }
  }

  /** Walks through the map from the smallest key to the largest. */
  method OngoingInOrder(ongoing: map<nat, Event>) returns (events: seq<Event>)
    requires forall sender <- ongoing :: ongoing[sender].sender == sender
    ensures ListsAll(events, ongoing)
  {
    events := [];
    var keys := ongoing.Keys;
    while keys != {}
      invariant ListsSoFar(events, ongoing, keys)
      decreases |keys|
    {
      ghost var least := LeastOf(keys);
      var k :| k in keys && forall j <- keys :: k <= j;
      ListNext(events, ongoing, keys, k);
      events := events + [ongoing[k]];
      keys := keys - {k};
    }
  }

  // ----- the storage, used by one thread at a time -----

  class Storage {
    var storageA: seq<Event>
    var storageB: seq<Event>
    var currentReadStorageIsA: bool
    var senders: nat
    var ongoingEvents: map<nat, Event>
    var nextEventId: nat

    constructor ()
      ensures senders == 0 && ongoingEvents == map[] && nextEventId == 1
      ensures ReadStorage() == [] && WriteStorage() == []
    {
      storageA, storageB, currentReadStorageIsA, senders, ongoingEvents, nextEventId := [], [], false, 0, map[], 1;
    }

    function ReadStorage(): seq<Event>
      reads this
    {
      if currentReadStorageIsA then storageA else storageB
    }

    function WriteStorage(): seq<Event>
      reads this
    {
      if currentReadStorageIsA then storageB else storageA
    }

    /** Gives out the next id; there is none for the source after the last 32-bit number. */
    method RegisterEventSource() returns (id: Option<nat>)
      modifies this`senders
      ensures id.None? <==> old(senders) > 0xFFFF_FFFF
      ensures senders == if id.Some? then old(senders) + 1 else old(senders)
      ensures id.Some? ==> id.value == old(senders) && SourceOf(id.value) == id.value
    {
      if senders > 0xFFFF_FFFF {
        return None;
      }
      id := Some(senders);
      senders := senders + 1;
    }

    /** `lockTaken`: whether the try-lock succeeded. */
    method InsertEvent(e: Event, lockTaken: bool) returns (accepted: bool)
      modifies this`storageA, this`storageB
      ensures accepted <==> SourceOf(e.sender) < senders && lockTaken
      ensures ReadStorage() == old(ReadStorage())
      ensures WriteStorage() == if accepted then old(WriteStorage()) + [e] else old(WriteStorage())
    {
      if SourceOf(e.sender) >= senders {
        return false;
      }
      if !lockTaken {
        return false;
      }
      if !currentReadStorageIsA {
        storageA := storageA + [e];
      } else {
        storageB := storageB + [e];
      }
      return true;
    }

    /** Goes through the events that have just been swapped in. */
    method TrackOngoing(arrived: seq<Event>)
      modifies this`ongoingEvents, this`nextEventId
      ensures (ongoingEvents, nextEventId) == TrackAll(old(ongoingEvents), old(nextEventId), arrived)
    {
      for i := 0 to |arrived|
        invariant (ongoingEvents, nextEventId) == TrackAll(old(ongoingEvents), old(nextEventId), arrived[..i])
      {
        assert arrived[..i + 1][..i] == arrived[..i];
        var t := Track(ongoingEvents, nextEventId, arrived[i]);
        ongoingEvents, nextEventId := t.0, t.1;
      }
      assert arrived[..|arrived|] == arrived;
    }

    /** Starts the next cycle. */
    method SwapBuffers(ghost history: seq<Event>)
      requires Fits(ongoingEvents, history)
      modifies this
      ensures senders == old(senders) && WriteStorage() == []
      ensures (ongoingEvents, nextEventId) == TrackAll(old(ongoingEvents), old(nextEventId), old(WriteStorage()))
      ensures var arrived := old(WriteStorage());
              && Fits(ongoingEvents, history + arrived)
              && arrived <= ReadStorage() && IsOngoingPart(ReadStorage()[|arrived|..], history + arrived)
    {
      if currentReadStorageIsA {
        storageA := [];
      } else {
        storageB := [];
      }
      currentReadStorageIsA := !currentReadStorageIsA;
      ghost var arrived := ReadStorage();
      TrackOngoing(ReadStorage());
      TrackAllFits(old(ongoingEvents), old(nextEventId), history, arrived);
      LatestMarkSender(ongoingEvents, history + arrived);
      var lasting := OngoingInOrder(ongoingEvents);
      ListedPart(lasting, ongoingEvents, history + arrived);
      if currentReadStorageIsA {
        storageA := storageA + lasting;
      } else {
        storageB := storageB + lasting;
      }
      assert ReadStorage()[|arrived|..] == lasting;
    }
  }

  lemma {:induction false} MarkHasSender(history: seq<Event>, sender: nat)
    ensures LatestMark(history, sender).Some? ==> LatestMark(history, sender).value.sender == sender
    decreases |history|
  {
    if history != [] {
      MarkHasSender(history[..|history| - 1], sender);
    }
  }

  lemma LatestMarkSender(ongoing: map<nat, Event>, history: seq<Event>)
    requires Fits(ongoing, history)
    ensures forall sender <- ongoing :: ongoing[sender].sender == sender
  {
    forall sender | sender in ongoing
      ensures ongoing[sender].sender == sender
    {
      MarkHasSender(history, sender);
    }
  }

  // ----- all interleavings of producers and the main loop -----

  /** Who holds the swap mutex; a producer holds it from its try-lock until it has appended. */
  datatype Mutex = FREE | PRODUCER(event: Event, appended: bool) | CONSUMER

  /** How far the main loop is with a swap. */
  datatype Consumer = READING | CLEARED | LOCKED | FLIPPED | COLLECTING

  /** What one cycle reads: the events handed over by the swap, then the lasting ones. */
  datatype CycleRecord = CycleRecord(arrived: seq<Event>, lasting: seq<Event>)

  datatype State = State(
    readStorage: seq<Event>, writeStorage: seq<Event>,
    mutex: Mutex, consumer: Consumer,
    senders: nat, ongoing: map<nat, Event>, nextEventId: nat,
    accepted: seq<Event>,       // all events whose insertion was accepted, in order
    cycles: seq<CycleRecord>)   // what the cycles so far have read

  datatype Step =
    | Register | TryInsert(event: Event) | Append | Release
    | Clear | Lock | Flip | Unlock | Collect(lasting: seq<Event>)

  ghost predicate CanStep(s: State, step: Step) {
    match step
    case Register => true
    case TryInsert(_) => true
    case Append => s.mutex.PRODUCER? && !s.mutex.appended
    case Release => s.mutex.PRODUCER? && s.mutex.appended
    case Clear => s.consumer == READING
    case Lock => s.consumer == CLEARED && s.mutex == FREE
    case Flip => s.consumer == LOCKED
    case Unlock => s.consumer == FLIPPED
    case Collect(lasting) =>
      s.consumer == COLLECTING && ListsAll(lasting, TrackAll(s.ongoing, s.nextEventId, s.readStorage).0)
  }

  /** A rejected insertion (unknown source, or mutex taken) changes nothing. */
  function Apply(s: State, step: Step): State {
    match step
    case Register => s.(senders := s.senders + 1)
    case TryInsert(e) =>
      if SourceOf(e.sender) >= s.senders || s.mutex != FREE then s else s.(mutex := PRODUCER(e, false))
    case Append =>
      if !s.mutex.PRODUCER? then s
      else s.(writeStorage := s.writeStorage + [s.mutex.event], accepted := s.accepted + [s.mutex.event],
              mutex := PRODUCER(s.mutex.event, true))
    case Release => s.(mutex := FREE)
    case Clear => s.(readStorage := [], consumer := CLEARED)
    case Lock => s.(mutex := CONSUMER, consumer := LOCKED)
    case Flip => s.(readStorage := s.writeStorage, writeStorage := s.readStorage, consumer := FLIPPED)
    case Unlock => s.(mutex := FREE, consumer := COLLECTING)
    case Collect(lasting) =>
      var t := TrackAll(s.ongoing, s.nextEventId, s.readStorage);
      s.(ongoing := t.0, nextEventId := t.1, readStorage := s.readStorage + lasting,
         cycles := s.cycles + [CycleRecord(s.readStorage, lasting)], consumer := READING)
  }

  const INITIAL := State([], [], FREE, READING, 0, map[], 1, [], [])

  /** The events the first cycles have been handed. */
  function Handed(cycles: seq<CycleRecord>): seq<Event> {
    if cycles == [] then [] else Handed(cycles[..|cycles| - 1]) + cycles[|cycles| - 1].arrived
  }

  /** The events that have been swapped in but not yet been read. */
  function Swapped(s: State): seq<Event> {
    if s.consumer == FLIPPED || s.consumer == COLLECTING then s.readStorage else []
  }

  /** Every cycle so far ended with exactly what was going on then. */
  ghost predicate CyclesFit(cycles: seq<CycleRecord>) {
    forall k :: 0 <= k < |cycles| ==> IsOngoingPart(cycles[k].lasting, Handed(cycles[..k + 1]))
  }

  /** All events on their way: handed over, swapped in, waiting. */
  function Account(s: State): seq<Event> {
    Handed(s.cycles) + Swapped(s) + s.writeStorage
  }

  ghost predicate Inv(s: State) {
    && s.accepted == Account(s)
    && Fits(s.ongoing, Handed(s.cycles))
    && CyclesFit(s.cycles)
    && (s.consumer == LOCKED || s.consumer == FLIPPED <==> s.mutex == CONSUMER)
    && (s.consumer == CLEARED || s.consumer == LOCKED ==> s.readStorage == [])
    && (s.consumer == FLIPPED ==> s.writeStorage == [])
    && (s.consumer == READING && s.cycles != [] ==>
          var c := s.cycles[|s.cycles| - 1]; s.readStorage == c.arrived + c.lasting)
    && (s.consumer == READING && s.cycles == [] ==> s.readStorage == [])
  }

  lemma CyclesFitAppend(cycles: seq<CycleRecord>, c: CycleRecord)
    requires CyclesFit(cycles) && IsOngoingPart(c.lasting, Handed(cycles + [c]))
    ensures CyclesFit(cycles + [c])
  {
    var all := cycles + [c];
    forall k | 0 <= k < |all|
      ensures IsOngoingPart(all[k].lasting, Handed(all[..k + 1]))
    {
      if k < |cycles| {
        assert all[..k + 1] == cycles[..k + 1];
      } else {
        assert all[..k + 1] == all;
      }
    }
  }

  lemma CollectHands(s: State, lasting: seq<Event>)
    requires s.consumer == COLLECTING
    ensures var s' := Apply(s, Collect(lasting));
            Handed(s'.cycles) == Handed(s.cycles) + s.readStorage && Account(s') == Account(s)
  {
    var c := CycleRecord(s.readStorage, lasting);
    assert (s.cycles + [c])[..|s.cycles|] == s.cycles;
  }

  lemma CollectKeepsInv(s: State, lasting: seq<Event>)
    requires Inv(s) && CanStep(s, Collect(lasting))
    ensures Inv(Apply(s, Collect(lasting)))
  {
    var c := CycleRecord(s.readStorage, lasting);
    var before, after := Handed(s.cycles), Handed(s.cycles + [c]);
    CollectHands(s, lasting);
    assert after == before + s.readStorage;
    TrackAllFits(s.ongoing, s.nextEventId, before, s.readStorage);
    ListedPart(lasting, TrackAll(s.ongoing, s.nextEventId, s.readStorage).0, after);
    CyclesFitAppend(s.cycles, c);
  }

  lemma StepKeepsInv(s: State, step: Step)
    requires Inv(s) && CanStep(s, step)
    ensures Inv(Apply(s, step))
  {
    match step
    case Collect(lasting) =>
      CollectKeepsInv(s, lasting);
    case Append => AppendKeepsInv(s);
    case Flip => FlipKeepsInv(s);
    case Clear => ConsumerKeepsInv(s, step);
    case Lock => ConsumerKeepsInv(s, step);
    case Unlock => ConsumerKeepsInv(s, step);
    case _ => ProducerKeepsInv(s, step);
  }

  /** Steps that hand on nothing. */
  lemma ConsumerKeepsInv(s: State, step: Step)
    requires Inv(s) && CanStep(s, step) && (step.Clear? || step.Lock? || step.Unlock?)
    ensures Inv(Apply(s, step))
  {
    assert Apply(s, step).cycles == s.cycles && Account(Apply(s, step)) == Account(s);
  }

  lemma ProducerKeepsInv(s: State, step: Step)
    requires Inv(s) && CanStep(s, step) && (step.Register? || step.TryInsert? || step.Release?)
    ensures Inv(Apply(s, step))
  {
    assert Apply(s, step).cycles == s.cycles && Account(Apply(s, step)) == Account(s);
  }

  lemma AppendKeepsInv(s: State)
    requires Inv(s) && CanStep(s, Append)
    ensures Inv(Apply(s, Append))
  {
    assert Account(Apply(s, Append)) == Account(s) + [s.mutex.event];
  }

  lemma FlipKeepsInv(s: State)
    requires Inv(s) && CanStep(s, Flip)
    ensures Inv(Apply(s, Flip))
  {
    assert Account(Apply(s, Flip)) == Account(s);
  }

  ghost predicate CanRun(s: State, steps: seq<Step>)
    decreases |steps|
  {
    steps == [] || (CanStep(s, steps[0]) && CanRun(Apply(s, steps[0]), steps[1..]))
  }

  function Run(s: State, steps: seq<Step>): State
    decreases |steps|
  {
    if steps == [] then s else Run(Apply(s, steps[0]), steps[1..])
  }

  lemma {:induction false} RunKeepsInv(s: State, steps: seq<Step>)
    requires Inv(s) && CanRun(s, steps)
    ensures Inv(Run(s, steps))
    decreases |steps|
  {
    if steps != [] {
      StepKeepsInv(s, steps[0]);
      RunKeepsInv(Apply(s, steps[0]), steps[1..]);
    }
  }

  /** In every interleaving, the accepted events are those handed to the cycles, one after the other,
      followed by those still waiting: each is read in one cycle only, in the order of insertion. Each
      cycle ends with one ONGOING event for every sender that goes on. */
  lemma EveryRun(steps: seq<Step>)
    requires CanRun(INITIAL, steps)
    ensures var s := Run(INITIAL, steps);
            && s.accepted == Handed(s.cycles) + Swapped(s) + s.writeStorage
            && CyclesFit(s.cycles)
            && (s.consumer == READING && s.cycles != [] ==>
                  var c := s.cycles[|s.cycles| - 1]; s.readStorage == c.arrived + c.lasting)
  {
    assert Inv(INITIAL);
    RunKeepsInv(INITIAL, steps);
  }

  // ----- which insertions are accepted -----

  /** The event that is tried by a registered source while nobody has the mutex. */
  function Inserted(s: State, step: Step): seq<Event> {
    if step.TryInsert? && SourceOf(step.event.sender) < s.senders && s.mutex == FREE then [step.event] else []
  }

  function Insertions(s: State, steps: seq<Step>): seq<Event>
    decreases |steps|
  {
    if steps == [] then [] else Inserted(s, steps[0]) + Insertions(Apply(s, steps[0]), steps[1..])
  }

  /** Inserted, but not appended yet. */
  function Pending(s: State): seq<Event> {
    if s.mutex.PRODUCER? && !s.mutex.appended then [s.mutex.event] else []
  }

  lemma StepAccepts(s: State, step: Step)
    requires s.consumer == LOCKED || s.consumer == FLIPPED <==> s.mutex == CONSUMER
    requires CanStep(s, step)
    ensures Apply(s, step).senders == s.senders + if step.Register? then 1 else 0
    ensures Apply(s, step).accepted + Pending(Apply(s, step)) == s.accepted + Pending(s) + Inserted(s, step)
  {
  }

  /** In every interleaving exactly the insertions that registered sources have tried while the mutex was
      free are accepted, in their order, none is lost and none comes twice. */
  lemma {:induction false} AcceptedInRun(s: State, steps: seq<Step>)
    requires Inv(s) && CanRun(s, steps)
    ensures Run(s, steps).accepted + Pending(Run(s, steps)) == s.accepted + Pending(s) + Insertions(s, steps)
    decreases |steps|
  {
    if steps != [] {
      StepAccepts(s, steps[0]);
      StepKeepsInv(s, steps[0]);
      var s', rest := Apply(s, steps[0]), steps[1..];
      AcceptedInRun(s', rest);
      Chain(s.accepted + Pending(s), Inserted(s, steps[0]), s'.accepted + Pending(s'), Insertions(s', rest));
    }
  }

  lemma Chain(before: seq<Event>, first: seq<Event>, after: seq<Event>, rest: seq<Event>)
    requires after == before + first
    ensures after + rest == before + (first + rest)
  {
  }
}
