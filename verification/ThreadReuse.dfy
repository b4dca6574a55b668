/** What a cleanup of the thread pool waits for, when the library gives the ids of joined threads to new
    threads. */
module ThreadReuse {
  import opened Threadpool

  /** The worker has left its loop and reported itself. */
  predicate Finished(s: State, t: Tid) {
    t < |s.workers| && (s.workers[t] == RETURNING || s.workers[t] == EXITED)
  }

  function CleanupIds(o: Owner): set<ThreadId> {
    match o
    case CLEANUP_EMPTY(ids) => ids
    case CLEANUP_POP(ids) => ids
    case CLEANUP_JOIN(ids, _) => ids
    case _ => {}
  }

  predicate Noted(s: State, id: ThreadId) {
    id in s.stopped || id in CleanupIds(s.owner)
  }

  /** No worker that still runs has an id that is noted as stopped. */
  ghost predicate OnlyFinishedNoted(s: State) {
    forall t :: 0 <= t < |s.threadIds| && !Finished(s, t) ==> !Noted(s, s.threadIds[t])
  }

  /** Every id noted as stopped is still taken, and noted once. */
  ghost predicate NoStaleIds(s: State) {
    && (forall id <- s.stopped :: !IsFree(s, id) && id !in CleanupIds(s.owner))
    && (forall i, j :: 0 <= i < j < |s.stopped| ==> s.stopped[i] != s.stopped[j])
  }

  /** The owner is not about to start a worker. */
  predicate StartsNone(o: Owner) {
    o != CHECK_ACTIVE && o != SPAWN && o != INCREMENT
  }

  /** Before the first `join` no noted id is stale; afterwards no worker is started. */
  ghost predicate Safe(s: State, afterJoin: bool) {
    OnlyFinishedNoted(s) && if afterJoin then StartsNone(s.owner) else NoStaleIds(s) && !Joining(s.owner)
  }

  lemma WorkerKeepsNoted(s: State, t: Tid)
    requires Tracked(s) && OnlyFinishedNoted(s) && Enabled(s, WorkerStep(t))
    ensures OnlyFinishedNoted(ApplyWorker(s, t))
  {
    var s' := ApplyWorker(s, t);
    forall u | 0 <= u < |s'.threadIds| && !Finished(s', u)
      ensures !Noted(s', s'.threadIds[u])
    {
      assert !Finished(s, u) && !Noted(s, s.threadIds[u]);
      if s.workers[t] == REPORT {
        assert u != t && u !in s.joined && t !in s.joined;
        assert s.threadIds[u] != s.threadIds[t];
      }
    }
  }

  lemma WorkerKeepsNoStale(s: State, t: Tid)
    requires Tracked(s) && OnlyFinishedNoted(s) && NoStaleIds(s) && Enabled(s, WorkerStep(t))
    ensures NoStaleIds(ApplyWorker(s, t))
  {
    var s' := ApplyWorker(s, t);
    assert t !in s.joined && !IsFree(s, s.threadIds[t]);
    forall id | id in s'.stopped
      ensures !IsFree(s', id) && id !in CleanupIds(s'.owner)
    {
      assert id in s.stopped || id == s.threadIds[t];
      if s.workers[t] == REPORT {
        assert !Finished(s, t) && !Noted(s, s.threadIds[t]);
      }
      StaysTaken(s, s', id);
    }
  }

  lemma StaysTaken(s: State, s': State, id: ThreadId)
    requires !IsFree(s, id) && s'.threadIds == s.threadIds && s'.joined == s.joined
    ensures !IsFree(s', id)
  {
  }

  lemma SpawnKeepsSafe(s: State, newId: ThreadId, cpuCount: nat)
    requires Tracked(s) && Safe(s, false) && s.owner == SPAWN && IsFree(s, newId)
    ensures Safe(ApplyOwner(s, newId, cpuCount), false)
  {
    var s' := ApplyOwner(s, newId, cpuCount);
    assert newId !in s.stopped;
    forall t | 0 <= t < |s'.threadIds| && !Finished(s', t)
      ensures !Noted(s', s'.threadIds[t])
    {
      if t < |s.threadIds| {
        assert !Finished(s, t);
      }
    }
    forall id | id in s'.stopped
      ensures !IsFree(s', id) && id !in CleanupIds(s'.owner)
    {
      var t :| 0 <= t < |s.threadIds| && t !in s.joined && s.threadIds[t] == id;
      assert s'.threadIds[t] == id;
    }
  }

  lemma CleanupPopKeepsSafe(s: State, newId: ThreadId, cpuCount: nat)
    requires Safe(s, false) && s.owner.CLEANUP_POP? && s.stopped != []
    ensures Safe(ApplyOwner(s, newId, cpuCount), false)
  {
    var s' := ApplyOwner(s, newId, cpuCount);
    var first := s.stopped[0];
    forall t | 0 <= t < |s'.threadIds| && !Finished(s', t)
      ensures !Noted(s', s'.threadIds[t])
    {
      assert !Finished(s, t) && !Noted(s, s.threadIds[t]);
      assert first in s.stopped;
    }
    forall id | id in s'.stopped
      ensures !IsFree(s', id) && id !in CleanupIds(s'.owner)
    {
      assert id in s.stopped;
      var k :| 1 <= k < |s.stopped| && s.stopped[k] == id;
      assert first != id;
      StaysTaken(s, s', id);
    }
  }

  /** Joining a thread in a cleanup frees an id that is not among those reported since. */
  lemma CleanupJoinKeepsSafe(s: State, newId: ThreadId, cpuCount: nat)
    requires Tracked(s) && Safe(s, false) && s.owner.CLEANUP_JOIN? && s.owner.at < |s.threads|
    requires Enabled(s, OwnerStep(newId))
    ensures Safe(ApplyOwner(s, newId, cpuCount), false)
  {
    var s' := ApplyOwner(s, newId, cpuCount);
    var t := s.threads[s.owner.at];
    forall u | 0 <= u < |s'.threadIds| && !Finished(s', u)
      ensures !Noted(s', s'.threadIds[u])
    {
      assert !Finished(s, u);
    }
    forall id | id in s'.stopped
      ensures !IsFree(s', id) && id !in CleanupIds(s'.owner)
    {
      var u :| 0 <= u < |s.threadIds| && u !in s.joined && s.threadIds[u] == id;
      if HasId(t, s.owner.ids, s.threadIds, s.joined) {
        assert u != t;
      }
      assert u !in s'.joined;
    }
  }

  lemma OwnerKeepsSafe(s: State, newId: ThreadId, cpuCount: nat)
    requires Tracked(s) && Progressed(s) && Safe(s, false) && Enabled(s, OwnerStep(newId))
    ensures Safe(ApplyOwner(s, newId, cpuCount), false)
  {
    if s.owner == SPAWN {
      SpawnKeepsSafe(s, newId, cpuCount);
    } else if s.owner.CLEANUP_POP? && s.stopped != [] {
      CleanupPopKeepsSafe(s, newId, cpuCount);
    } else if s.owner.CLEANUP_JOIN? && s.owner.at < |s.threads| {
      CleanupJoinKeepsSafe(s, newId, cpuCount);
    } else {
      var s' := ApplyOwner(s, newId, cpuCount);
      assert CleanupIds(s'.owner) == CleanupIds(s.owner) || CleanupIds(s'.owner) == {};
      assert forall t :: Finished(s, t) <==> Finished(s', t);
      forall id | id in s'.stopped
        ensures !IsFree(s', id)
      {
        StaysTaken(s, s', id);
      }
    }
  }

  /** After a `join` no worker is started, so nothing but the notes matters. */
  lemma OwnerKeepsNoted(s: State, newId: ThreadId, cpuCount: nat)
    requires Safe(s, true) && Enabled(s, OwnerStep(newId))
    ensures Safe(ApplyOwner(s, newId, cpuCount), true)
  {
    var s' := ApplyOwner(s, newId, cpuCount);
    forall t | 0 <= t < |s'.threadIds| && !Finished(s', t)
      ensures !Noted(s', s'.threadIds[t])
    {
      assert !Finished(s, t) && !Noted(s, s.threadIds[t]);
      if s.owner.CLEANUP_POP? && s.stopped != [] {
        assert s.stopped[0] in s.stopped;
      }
    }
  }

  lemma StepKeepsSafe(s: State, step: Step, cpuCount: nat, afterJoin: bool)
    requires Tracked(s) && Progressed(s) && Safe(s, afterJoin) && Enabled(s, step)
    requires !(afterJoin && step.Enqueue?)
    ensures Safe(Apply(s, step, cpuCount), afterJoin || step.Join?)
  {
    match step
    case WorkerStep(t) =>
      WorkerKeepsNoted(s, t);
      if !afterJoin {
        WorkerKeepsNoStale(s, t);
      }
    case OwnerStep(newId) =>
      if afterJoin {
        OwnerKeepsNoted(s, newId, cpuCount);
      } else {
        OwnerKeepsSafe(s, newId, cpuCount);
      }
    case _ =>
      CallKeepsSafe(s, step, cpuCount, afterJoin);
  }

  lemma CallKeepsSafe(s: State, step: Step, cpuCount: nat, afterJoin: bool)
    requires Safe(s, afterJoin) && Enabled(s, step) && !GoesOn(step) && !(afterJoin && step.Enqueue?)
    ensures Safe(Apply(s, step, cpuCount), afterJoin || step.Join?)
  {
    var s' := Apply(s, step, cpuCount);
    forall t | 0 <= t < |s'.threadIds| && !Finished(s', t)
      ensures !Noted(s', s'.threadIds[t])
    {
      assert !Finished(s, t) && !Noted(s, s.threadIds[t]);
    }
    if !afterJoin {
      forall id | id in s'.stopped
        ensures !IsFree(s', id)
      {
        StaysTaken(s, s', id);
      }
    }
  }

  /** A pool that has never been given a task. */
  predicate Unused(s: State) {
    s.workers == [] && s.threadIds == [] && s.stopped == [] && CleanupIds(s.owner) == {} && StartsNone(s.owner)
  }

  lemma StepKeepsUnused(s: State, step: Step, cpuCount: nat)
    requires Unused(s) && Enabled(s, step)
    ensures if step.Enqueue? then Safe(Apply(s, step, cpuCount), false) else Unused(Apply(s, step, cpuCount))
  {
  }

  // ----- calls -----

  /** The calls of a run. */
  function CallsOf(steps: seq<Step>): (calls: seq<Step>)
    ensures forall c <- calls :: c.Enqueue? || c.Join?
  {
    if steps == [] then []
    else (if steps[0].Enqueue? || steps[0].Join? then [steps[0]] else []) + CallsOf(steps[1..])
  }

  lemma {:induction false} CallsConcat(a: seq<Step>, b: seq<Step>)
    ensures CallsOf(a + b) == CallsOf(a) + CallsOf(b)
    decreases |a|
  {
    if a == [] {
      assert a + b == b;
    } else {
      assert (a + b)[1..] == a[1..] + b;
      CallsConcat(a[1..], b);
    }
  }

  /** A `join` comes between two tasks. */
  predicate JoinsInBetween(calls: seq<Step>) {
    exists i, j, k :: 0 <= i < j < k < |calls| && calls[i].Enqueue? && calls[j].Join? && calls[k].Enqueue?
  }

  predicate JoinThenEnqueue(calls: seq<Step>) {
    exists j, k :: 0 <= j < k < |calls| && calls[j].Join? && calls[k].Enqueue?
  }

  predicate SomeEnqueue(calls: seq<Step>) {
    exists k :: 0 <= k < |calls| && calls[k].Enqueue?
  }

  lemma FirstCall(calls: seq<Step>)
    requires calls != []
    ensures JoinsInBetween(calls) <==> JoinsInBetween(calls[1..]) || (calls[0].Enqueue? && JoinThenEnqueue(calls[1..]))
    ensures JoinThenEnqueue(calls) <==> JoinThenEnqueue(calls[1..]) || (calls[0].Join? && SomeEnqueue(calls[1..]))
    ensures SomeEnqueue(calls) <==> SomeEnqueue(calls[1..]) || calls[0].Enqueue?
  {
    var rest := calls[1..];
    assert forall i :: 1 <= i < |calls| ==> calls[i] == rest[i - 1];
    assert forall i :: 0 <= i < |rest| ==> rest[i] == calls[i + 1];
  }

  lemma CallsNext(steps: seq<Step>)
    requires steps != []
    ensures var calls, rest := CallsOf(steps), CallsOf(steps[1..]);
            && (JoinsInBetween(calls) <==> JoinsInBetween(rest) || (steps[0].Enqueue? && JoinThenEnqueue(rest)))
            && (JoinThenEnqueue(calls) <==> JoinThenEnqueue(rest) || (steps[0].Join? && SomeEnqueue(rest)))
            && (SomeEnqueue(calls) <==> SomeEnqueue(rest) || steps[0].Enqueue?)
  {
    var rest := CallsOf(steps[1..]);
    if steps[0].Enqueue? || steps[0].Join? {
      assert CallsOf(steps) == [steps[0]] + rest && CallsOf(steps)[1..] == rest;
      FirstCall(CallsOf(steps));
    } else {
      assert CallsOf(steps) == [] + rest == rest;
    }
  }

  // ----- a cleanup waits for finished workers unless a join comes between two tasks -----

  /** The owner is about to wait for a worker that has not reported itself. */
  predicate WaitsForUnfinished(s: State) {
    s.owner.CLEANUP_JOIN? && s.owner.at < |s.threads|
      && HasId(s.threads[s.owner.at], s.owner.ids, s.threadIds, s.joined)
    && !Finished(s, s.threads[s.owner.at])
  }

  lemma SafeWaitsForNone(s: State, afterJoin: bool)
    requires Safe(s, afterJoin)
    ensures !WaitsForUnfinished(s)
  {
  }

  lemma {:induction false} AfterJoinSafe(s: State, steps: seq<Step>, cpuCount: nat)
    requires Inv(s, cpuCount) && Safe(s, true) && CanRun(s, steps, cpuCount) && !SomeEnqueue(CallsOf(steps))
    ensures !WaitsForUnfinished(Run(s, steps, cpuCount))
    decreases |steps|
  {
    SafeWaitsForNone(s, true);
    if steps != [] {
      CallsNext(steps);
      StepKeepsSafe(s, steps[0], cpuCount, true);
      StepKeepsInv(s, steps[0], cpuCount);
      AfterJoinSafe(Apply(s, steps[0], cpuCount), steps[1..], cpuCount);
    }
  }

  lemma {:induction false} BeforeJoinSafe(s: State, steps: seq<Step>, cpuCount: nat)
    requires Inv(s, cpuCount) && Safe(s, false) && CanRun(s, steps, cpuCount) && !JoinThenEnqueue(CallsOf(steps))
    ensures !WaitsForUnfinished(Run(s, steps, cpuCount))
    decreases |steps|
  {
    SafeWaitsForNone(s, false);
    if steps != [] {
      CallsNext(steps);
      StepKeepsSafe(s, steps[0], cpuCount, false);
      StepKeepsInv(s, steps[0], cpuCount);
      if steps[0].Join? {
        AfterJoinSafe(Apply(s, steps[0], cpuCount), steps[1..], cpuCount);
      } else {
        BeforeJoinSafe(Apply(s, steps[0], cpuCount), steps[1..], cpuCount);
      }
    }
  }

  lemma {:induction false} UnusedSafe(s: State, steps: seq<Step>, cpuCount: nat)
    requires Inv(s, cpuCount) && Unused(s) && CanRun(s, steps, cpuCount) && !JoinsInBetween(CallsOf(steps))
    ensures !WaitsForUnfinished(Run(s, steps, cpuCount))
    decreases |steps|
  {
    if steps != [] {
      CallsNext(steps);
      StepKeepsUnused(s, steps[0], cpuCount);
      StepKeepsInv(s, steps[0], cpuCount);
      if steps[0].Enqueue? {
        BeforeJoinSafe(Apply(s, steps[0], cpuCount), steps[1..], cpuCount);
      } else {
        UnusedSafe(Apply(s, steps[0], cpuCount), steps[1..], cpuCount);
      }
    }
  }

  /** Without processors no worker is ever started. */
  lemma {:induction false} NoWorkers(s: State, steps: seq<Step>)
    requires Inv(s, 0) && s.workers == [] && CanRun(s, steps, 0)
    ensures Run(s, steps, 0).workers == []
    decreases |steps|
  {
    if steps != [] {
      StepKeepsInv(s, steps[0], 0);
      NoWorkers(Apply(s, steps[0], 0), steps[1..]);
    }
  }

  /** Unless a `join` comes between two tasks, a cleanup only ever waits for workers that have left their
      loop, so for no task, whatever ids the threads get. */
  lemma CleanupWaitsForFinished(steps: seq<Step>, cpuCount: nat)
    requires CanRun(START, steps, cpuCount) && cpuCount < WORD
    requires cpuCount == 0 || !JoinsInBetween(CallsOf(steps))
    ensures !WaitsForUnfinished(Run(START, steps, cpuCount))
  {
    assert Inv(START, cpuCount) && Unused(START);
    if cpuCount == 0 {
      NoWorkers(START, steps);
      RunKeepsInv(START, steps, 0);
    } else {
      UnusedSafe(START, steps, cpuCount);
    }
  }
}
