/** Which calls of the thread pool can make a cleanup wait for a worker that has only just started: a schedule
    that lets every worker exit before the next call, and a library that is quick to use an id again. */
module StaleThreadIds {
  import opened Threadpool
  import opened ThreadReuse

  lemma {:induction false} RunExtends(s: State, steps: seq<Step>, step: Step, cpuCount: nat)
    requires CanRun(s, steps, cpuCount) && Enabled(Run(s, steps, cpuCount), step)
    ensures CanRun(s, steps + [step], cpuCount)
    ensures Run(s, steps + [step], cpuCount) == Apply(Run(s, steps, cpuCount), step, cpuCount)
    decreases |steps|
  {
    if steps == [] {
      assert [] + [step] == [step] && [step][1..] == [];
    } else {
      assert (steps + [step])[1..] == steps[1..] + [step];
      RunExtends(Apply(s, steps[0], cpuCount), steps[1..], step, cpuCount);
    }
  }

  /** A run with these calls leads to the state. */
  predicate LeadsTo(steps: seq<Step>, calls: seq<Step>, s: State, cpuCount: nat) {
    CanRun(START, steps, cpuCount) && CallsOf(steps) == calls && Run(START, steps, cpuCount) == s
  }

  ghost predicate Reaches(calls: seq<Step>, s: State, cpuCount: nat) {
    exists steps :: LeadsTo(steps, calls, s, cpuCount)
  }

  lemma ReachStep(calls: seq<Step>, s: State, step: Step, cpuCount: nat)
    requires Reaches(calls, s, cpuCount) && Enabled(s, step)
    ensures Reaches(calls + if step.Enqueue? || step.Join? then [step] else [], Apply(s, step, cpuCount), cpuCount)
  {
    var steps :| LeadsTo(steps, calls, s, cpuCount);
    RunExtends(START, steps, step, cpuCount);
    CallsConcat(steps, [step]);
    assert CallsOf([step]) == if step.Enqueue? || step.Join? then [step] else [];
    assert LeadsTo(steps + [step], calls + CallsOf([step]), Apply(s, step, cpuCount), cpuCount);
  }

  lemma ReachOn(calls: seq<Step>, s: State, step: Step, cpuCount: nat)
    requires Reaches(calls, s, cpuCount) && Enabled(s, step) && GoesOn(step)
    ensures Reaches(calls, Apply(s, step, cpuCount), cpuCount)
  {
    ReachStep(calls, s, step, cpuCount);
    assert calls + [] == calls;
  }

  lemma ReachedInv(calls: seq<Step>, s: State, cpuCount: nat)
    requires Reaches(calls, s, cpuCount) && cpuCount < WORD
    ensures Inv(s, cpuCount) && Measure(s) >= 0
  {
    var steps :| LeadsTo(steps, calls, s, cpuCount);
    assert Inv(START, cpuCount);
    RunKeepsInv(START, steps, cpuCount);
    assert OwnerRank(s) >= 0;
  }

  predicate AllOut(s: State) {
    forall t :: 0 <= t < |s.workers| ==> s.workers[t] == EXITED
  }

  predicate Quiet(s: State) {
    AllOut(s) && (s.owner == READY || s.owner == JOINED)
  }

  predicate Cleaning(o: Owner) {
    o.CLEANUP_CHECK? || o.CLEANUP_EMPTY? || o.CLEANUP_POP? || o.CLEANUP_JOIN?
  }

  /** Whatever a cleanup is going to join has exited. */
  predicate NotedHaveExited(s: State) {
    forall t :: 0 <= t < |s.threadIds| && t !in s.joined && Noted(s, s.threadIds[t]) ==> CanJoin(s, t)
  }

  lemma CleanupStep(s: State, cpuCount: nat)
    requires Inv(s, cpuCount) && Cleaning(s.owner) && NotedHaveExited(s)
    ensures Enabled(s, OwnerStep(0))
    ensures var s' := Apply(s, OwnerStep(0), cpuCount);
            && (Cleaning(s'.owner) || s'.owner == READY) && NotedHaveExited(s')
            && s'.workers == s.workers && s'.threadIds == s.threadIds
  {
    var s' := Apply(s, OwnerStep(0), cpuCount);
    forall id | Noted(s', id)
      ensures Noted(s, id)
    {
      if s.owner.CLEANUP_POP? && s.stopped != [] {
        assert s.stopped[0] in s.stopped;
      }
    }
  }

  lemma CleanupGoesOn(calls: seq<Step>, s: State, cpuCount: nat) returns (next: State)
    requires Reaches(calls, s, cpuCount) && cpuCount < WORD && Cleaning(s.owner) && NotedHaveExited(s)
    ensures Reaches(calls, next, cpuCount) && (Cleaning(next.owner) || next.owner == READY) && NotedHaveExited(next)
    ensures next.workers == s.workers && 0 <= Measure(next) < Measure(s)
  {
    ReachedInv(calls, s, cpuCount);
    CleanupStep(s, cpuCount);
    next := Apply(s, OwnerStep(0), cpuCount);
    ReachOn(calls, s, OwnerStep(0), cpuCount);
    StepDecreases(s, OwnerStep(0), cpuCount);
    ReachedInv(calls, next, cpuCount);
  }

  /** A cleanup that need not wait, before any worker takes a step. */
  lemma {:induction false} CleanupEnds(calls: seq<Step>, s: State, cpuCount: nat) returns (s': State)
    requires Reaches(calls, s, cpuCount) && cpuCount < WORD && (Cleaning(s.owner) || s.owner == READY)
             && NotedHaveExited(s)
    ensures Reaches(calls, s', cpuCount) && s'.owner == READY && s'.workers == s.workers
    decreases if Measure(s) < 0 then 0 else Measure(s)
  {
    s' := s;
    if s.owner != READY {
      var next := CleanupGoesOn(calls, s, cpuCount);
      s' := CleanupEnds(calls, next, cpuCount);
    }
  }

  /** Some worker has reported itself or has yet to do so. */
  predicate WillReport(s: State) {
    s.stopped != [] || exists t :: 0 <= t < |s.workers| && !Finished(s, t)
  }

  lemma WorkerStepReports(s: State, t: Tid, cpuCount: nat)
    requires Enabled(s, WorkerStep(t)) && WillReport(s)
    ensures WillReport(Apply(s, WorkerStep(t), cpuCount))
  {
    var s' := Apply(s, WorkerStep(t), cpuCount);
    if s.stopped == [] && s.workers[t] != REPORT {
      var u :| 0 <= u < |s.workers| && !Finished(s, u);
      assert !Finished(s', u);
    }
  }

  /** All workers run until they have exited. */
  lemma {:induction false} WorkersExit(calls: seq<Step>, s: State, cpuCount: nat) returns (s': State)
    requires Reaches(calls, s, cpuCount) && cpuCount < WORD && s.owner == READY && WillReport(s)
    ensures Reaches(calls, s', cpuCount) && s'.owner == READY && AllOut(s') && s'.stopped != []
    decreases if Measure(s) < 0 then 0 else Measure(s)
  {
    s' := s;
    if !AllOut(s) {
      var t :| 0 <= t < |s.workers| && s.workers[t] != EXITED;
      var next := WorkerGoesOn(calls, s, t, cpuCount);
      s' := WorkersExit(calls, next, cpuCount);
    }
  }

  lemma WorkerGoesOn(calls: seq<Step>, s: State, t: Tid, cpuCount: nat) returns (next: State)
    requires Reaches(calls, s, cpuCount) && cpuCount < WORD && s.owner == READY && WillReport(s)
    requires t < |s.workers| && s.workers[t] != EXITED
    ensures Reaches(calls, next, cpuCount) && next.owner == READY && WillReport(next) && 0 <= Measure(next) < Measure(s)
  {
    ReachedInv(calls, s, cpuCount);
    next := Apply(s, WorkerStep(t), cpuCount);
    ReachOn(calls, s, WorkerStep(t), cpuCount);
    StepDecreases(s, WorkerStep(t), cpuCount);
    ReachedInv(calls, next, cpuCount);
    WorkerStepReports(s, t, cpuCount);
  }

  lemma JoinStep(s: State, cpuCount: nat)
    requires Inv(s, cpuCount) && Joining(s.owner) && s.owner != JOINED && AllOut(s)
    ensures Enabled(s, OwnerStep(0))
    ensures var s' := Apply(s, OwnerStep(0), cpuCount);
            Joining(s'.owner) && s'.workers == s.workers && s'.stopped == s.stopped
  {
  }

  lemma JoinGoesOn(calls: seq<Step>, s: State, cpuCount: nat) returns (next: State)
    requires Reaches(calls, s, cpuCount) && cpuCount < WORD && Joining(s.owner) && s.owner != JOINED && AllOut(s)
    ensures Reaches(calls, next, cpuCount) && Joining(next.owner) && AllOut(next) && next.stopped == s.stopped
    ensures 0 <= Measure(next) < Measure(s)
  {
    ReachedInv(calls, s, cpuCount);
    JoinStep(s, cpuCount);
    next := Apply(s, OwnerStep(0), cpuCount);
    ReachOn(calls, s, OwnerStep(0), cpuCount);
    StepDecreases(s, OwnerStep(0), cpuCount);
    ReachedInv(calls, next, cpuCount);
  }

  /** A `join` with nobody to wait for; it leaves the noted ids alone. */
  lemma {:induction false} JoinEnds(calls: seq<Step>, s: State, cpuCount: nat) returns (s': State)
    requires Reaches(calls, s, cpuCount) && cpuCount < WORD && Joining(s.owner) && AllOut(s)
    ensures Reaches(calls, s', cpuCount) && s'.owner == JOINED && AllOut(s') && s'.stopped == s.stopped
    decreases if Measure(s) < 0 then 0 else Measure(s)
  {
    s' := s;
    if s.owner != JOINED {
      var next := JoinGoesOn(calls, s, cpuCount);
      s' := JoinEnds(calls, next, cpuCount);
    }
  }

  lemma ReachTo(calls: seq<Step>, s: State, step: Step, s': State, cpuCount: nat)
    requires Reaches(calls, s, cpuCount) && Enabled(s, step) && GoesOn(step) && Apply(s, step, cpuCount) == s'
    ensures Reaches(calls, s', cpuCount)
  {
    ReachOn(calls, s, step, cpuCount);
  }

  lemma NobodyActive(s: State, cpuCount: nat)
    requires Inv(s, cpuCount) && Quiet(s)
    ensures s.active == 0
  {
    AllExited(s.workers);
  }

  /** The state after a worker called `id` has been started for a new task. */
  function WithWorker(s: State, task: Task, id: ThreadId): State {
    s.(tasks := s.tasks + [task], enqueued := s.enqueued + multiset{task}, workers := s.workers + [CHECK],
       threadIds := s.threadIds + [id], threads := [|s.workers|] + s.threads, active := 1, owner := CLEANUP_CHECK)
  }

  /** A pool at rest starts a worker for a new task, and gives it any free id. */
  lemma Spawned(calls: seq<Step>, s: State, task: Task, id: ThreadId, cpuCount: nat)
    requires Reaches(calls, s, cpuCount) && 1 <= cpuCount < WORD && Quiet(s) && IsFree(s, id)
    ensures Reaches(calls + [Enqueue(task)], WithWorker(s, task, id), cpuCount)
  {
    ReachedInv(calls, s, cpuCount);
    NobodyActive(s, cpuCount);
    var all := calls + [Enqueue(task)];
    var a := s.(tasks := s.tasks + [task], enqueued := s.enqueued + multiset{task}, owner := CHECK_ACTIVE);
    ReachStep(calls, s, Enqueue(task), cpuCount);
    assert Apply(s, Enqueue(task), cpuCount) == a;
    ReachTo(all, a, OwnerStep(id), a.(owner := SPAWN), cpuCount);
    var b := WithWorker(s, task, id).(active := 0, owner := INCREMENT);
    ReachTo(all, a.(owner := SPAWN), OwnerStep(id), b, cpuCount);
    ReachTo(all, b, OwnerStep(id), WithWorker(s, task, id), cpuCount);
  }

  /** The id of a new worker is not noted yet. */
  lemma NewIdIsNotNoted(s: State, task: Task, id: ThreadId)
    requires Tracked(s) && Quiet(s) && id !in s.stopped
    ensures NotedHaveExited(WithWorker(s, task, id)) && !Finished(WithWorker(s, task, id), |s.workers|)
  {
  }

  /** A task with an id never used before: the call returns, the worker exits, and its id is noted. */
  lemma EnqueueQuietly(calls: seq<Step>, s: State, task: Task, cpuCount: nat) returns (s': State)
    requires Reaches(calls, s, cpuCount) && 1 <= cpuCount < WORD && Quiet(s)
    ensures Reaches(calls + [Enqueue(task)], s', cpuCount) && Quiet(s') && s'.stopped != []
  {
    ReachedInv(calls, s, cpuCount);
    var id := SomeIdIsFree(s.threadIds + s.stopped);
    assert forall t :: 0 <= t < |s.threadIds| ==> s.threadIds[t] in s.threadIds + s.stopped;
    assert forall x <- s.stopped :: x in s.threadIds + s.stopped;
    Spawned(calls, s, task, id, cpuCount);
    NewIdIsNotNoted(s, task, id);
    s' := CleanupEnds(calls + [Enqueue(task)], WithWorker(s, task, id), cpuCount);
    assert !Finished(s', |s.workers|);
    s' := WorkersExit(calls + [Enqueue(task)], s', cpuCount);
  }

  lemma JoinQuietly(calls: seq<Step>, s: State, cpuCount: nat) returns (s': State)
    requires Reaches(calls, s, cpuCount) && cpuCount < WORD && Quiet(s)
    ensures Reaches(calls + [Join], s', cpuCount) && Quiet(s') && s'.owner == JOINED && s'.stopped == s.stopped
  {
    ReachStep(calls, s, Join, cpuCount);
    s' := JoinEnds(calls + [Join], Apply(s, Join, cpuCount), cpuCount);
  }

  predicate AreCalls(calls: seq<Step>) {
    forall i :: 0 <= i < |calls| ==> calls[i].Enqueue? || calls[i].Join?
  }

  /** All calls, each at rest; once a task has been enqueued, some id is noted. */
  lemma {:induction false} AllQuietly(calls: seq<Step>, cpuCount: nat) returns (s: State)
    requires AreCalls(calls) && 1 <= cpuCount < WORD
    ensures Reaches(calls, s, cpuCount) && Quiet(s) && (SomeEnqueue(calls) ==> s.stopped != [])
    ensures calls != [] && calls[|calls| - 1].Join? ==> s.owner == JOINED
    decreases |calls|
  {
    if calls == [] {
      s := START;
      assert LeadsTo([], [], START, cpuCount);
    } else {
      var n := |calls| - 1;
      var init := calls[..n];
      s := AllQuietly(init, cpuCount);
      assert calls == init + [calls[n]];
      if calls[n].Enqueue? {
        s := EnqueueQuietly(init, s, calls[n].task, cpuCount);
      } else {
        s := JoinQuietly(init, s, cpuCount);
        if SomeEnqueue(calls) {
          var k :| 0 <= k < |calls| && calls[k].Enqueue?;
          assert init[k].Enqueue?;
        }
      }
    }
  }

  /** The cleanup notes all reported ids before it joins anybody. */
  lemma {:induction false} NotesAll(calls: seq<Step>, s: State, id: ThreadId, cpuCount: nat) returns (s': State)
    requires Reaches(calls, s, cpuCount) && s.owner.CLEANUP_EMPTY? && Noted(s, id)
    ensures Reaches(calls, s', cpuCount) && s'.owner.CLEANUP_JOIN? && s'.owner.at == 0 && id in s'.owner.ids
    ensures s'.workers == s.workers && s'.threads == s.threads && s'.threadIds == s.threadIds && s'.joined == s.joined
    decreases |s.stopped|
  {
    var ids := s.owner.ids;
    if s.stopped == [] {
      s' := s.(owner := CLEANUP_JOIN(ids, 0));
      ReachTo(calls, s, OwnerStep(0), s', cpuCount);
    } else {
      var next := s.(stopped := s.stopped[1..], owner := CLEANUP_EMPTY(ids + {s.stopped[0]}));
      ReachTo(calls, s, OwnerStep(0), s.(owner := CLEANUP_POP(ids)), cpuCount);
      ReachTo(calls, s.(owner := CLEANUP_POP(ids)), OwnerStep(0), next, cpuCount);
      assert s.stopped == [s.stopped[0]] + s.stopped[1..];
      s' := NotesAll(calls, next, id, cpuCount);
    }
  }

  lemma AllJoined(s: State)
    requires Tracked(s) && Progressed(s) && s.owner == JOINED
    ensures forall id :: IsFree(s, id)
  {
  }

  lemma NewestIsFirst(s: State, task: Task, id: ThreadId, ids: set<ThreadId>, joined: set<Tid>)
    requires Tracked(s) && id in ids && joined == s.joined
    ensures var w := WithWorker(s, task, id);
            w.threads[0] == |s.workers| && HasId(|s.workers|, ids, w.threadIds, joined) && !Finished(w, |s.workers|)
  {
    assert |s.workers| !in s.joined;
  }

  /** After a `join` the id of a joined worker is free but still noted. A worker that gets it is waited for by
      the very call that has started it. */
  lemma NewWorkerIsWaitedFor(calls: seq<Step>, s: State, task: Task, cpuCount: nat) returns (s': State)
    requires Reaches(calls, s, cpuCount) && 1 <= cpuCount < WORD && AllOut(s) && s.owner == JOINED && s.stopped != []
    ensures Reaches(calls + [Enqueue(task)], s', cpuCount) && WaitsForUnfinished(s')
  {
    ReachedInv(calls, s, cpuCount);
    var id := s.stopped[0];
    AllJoined(s);
    Spawned(calls, s, task, id, cpuCount);
    var all, w := calls + [Enqueue(task)], WithWorker(s, task, id);
    ReachTo(all, w, OwnerStep(0), w.(owner := CLEANUP_EMPTY({})), cpuCount);
    s' := NotesAll(all, w.(owner := CLEANUP_EMPTY({})), id, cpuCount);
    NewestIsFirst(s, task, id, s'.owner.ids, s'.joined);
  }

  /** The first task after the `join`. */
  lemma FirstAfterJoin(calls: seq<Step>) returns (k: nat)
    requires AreCalls(calls) && JoinsInBetween(calls)
    ensures 0 < k < |calls| && calls[k].Enqueue? && calls[k - 1].Join? && SomeEnqueue(calls[..k])
  {
    var i, j, e :| 0 <= i < j < e < |calls| && calls[i].Enqueue? && calls[j].Join? && calls[e].Enqueue?;
    k := j + 1;
    while !calls[k].Enqueue?
      invariant j < k <= e && forall m :: j <= m < k ==> calls[m].Join?
      decreases e - k
    {
      k := k + 1;
    }
    assert calls[..k][i].Enqueue?;
  }

  /** A run with these calls, or with the first of them, in which a cleanup waits for an unfinished worker. */
  predicate WaitingRun(steps: seq<Step>, calls: seq<Step>, cpuCount: nat) {
    CanRun(START, steps, cpuCount) && CallsOf(steps) <= calls && WaitsForUnfinished(Run(START, steps, cpuCount))
  }

  /** A cleanup can come to wait for a worker that has not finished exactly when there are workers at all and
      a `join` comes between two tasks. */
  lemma UnfinishedIsWaitedForIff(calls: seq<Step>, cpuCount: nat)
    requires AreCalls(calls) && cpuCount < WORD
    ensures (exists steps :: WaitingRun(steps, calls, cpuCount)) <==> cpuCount >= 1 && JoinsInBetween(calls)
  {
    if cpuCount >= 1 && JoinsInBetween(calls) {
      var k := FirstAfterJoin(calls);
      var s := AllQuietly(calls[..k], cpuCount);
      var s' := NewWorkerIsWaitedFor(calls[..k], s, calls[k].task, cpuCount);
      var steps :| LeadsTo(steps, calls[..k] + [calls[k]], s', cpuCount);
      assert calls[..k] + [calls[k]] <= calls;
      assert WaitingRun(steps, calls, cpuCount);
    } else {
      forall steps
        ensures !WaitingRun(steps, calls, cpuCount)
      {
        if CanRun(START, steps, cpuCount) && CallsOf(steps) <= calls {
          PrefixJoins(CallsOf(steps), calls);
          CleanupWaitsForFinished(steps, cpuCount);
        }
      }
    }
  }

  lemma PrefixJoins(first: seq<Step>, calls: seq<Step>)
    requires first <= calls
    ensures JoinsInBetween(first) ==> JoinsInBetween(calls)
  {
    if i, j, k :| 0 <= i < j < k < |first| && first[i].Enqueue? && first[j].Join? && first[k].Enqueue? {
      assert calls[i] == first[i] && calls[j] == first[j] && calls[k] == first[k];
    }
  }
}
