/** In which orders the pool can finish its tasks: exactly those in which a task gets ahead of no more tasks
    still to be finished than there are processors. They are held up by as many workers, one of which may be
    the owner itself. */
module FinishingOrders {
  import opened Threadpool
  import opened SceneCompilation
  import Reuse = ThreadReuse
  import Schedules = StaleThreadIds

  /** When `m` tasks are done, none beyond number `m` + `cpuCount` is the next. */
  predicate NoneTooFar(done: seq<Task>, cpuCount: nat) {
    forall m :: 0 <= m < |done| ==> done[m] <= m + cpuCount
  }

  /** The tasks 0 to `n` - 1, each once, none too far ahead. */
  ghost predicate Feasible(order: seq<Task>, n: nat, cpuCount: nat) {
    && multiset(order) == multiset(Numbers(n))
    && NoneTooFar(order, cpuCount)
  }

  // ----- numbers -----

  lemma {:induction false} NumbersOnce(n: nat, x: nat)
    ensures multiset(Numbers(n))[x] == if x < n then 1 else 0
    decreases n
  {
    if n > 0 {
      NumbersOnce(n - 1, x);
      assert Numbers(n) == Numbers(n - 1) + [n - 1];
    }
  }

  /** The queue is the end of the line of all tasks. */
  predicate EndOfLine(tasks: seq<Task>, k: nat) {
    |tasks| <= k && forall i :: 0 <= i < |tasks| ==> tasks[i] == k - |tasks| + i
  }

  lemma InTasksIff(tasks: seq<Task>, k: nat, x: Task)
    requires EndOfLine(tasks, k)
    ensures x in tasks <==> k - |tasks| <= x < k
  {
    if k - |tasks| <= x < k {
      assert tasks[x - (k - |tasks|)] == x;
    }
  }

  // ----- the hands -----

  lemma {:induction false} HandHolds(ws: seq<Worker>, t: Tid)
    requires t < |ws| && ws[t].RUN?
    ensures ws[t].task in InHand(ws)
    decreases |ws|
  {
    if t < |ws| - 1 {
      HandHolds(ws[..|ws| - 1], t);
    }
  }

  lemma {:induction false} HolderOf(ws: seq<Worker>, x: Task) returns (t: Tid)
    requires x in InHand(ws)
    ensures t < |ws| && ws[t] == RUN(x)
    decreases |ws|
  {
    t := |ws| - 1;
    if ws[t] != RUN(x) {
      t := HolderOf(ws[..t], x);
    }
  }

  ghost predicate Held(s: State, x: Task) {
    x in InHand(s.workers) || x in OwnerHand(s.owner)
  }

  /** Every task in a hand needs a live worker, and a busy one holds a task. */
  lemma {:induction false} CountHands(ws: seq<Worker>)
    ensures |InHand(ws)| <= Live(ws)
    ensures (forall t :: 0 <= t < |ws| ==> ws[t].RUN?) ==> |InHand(ws)| == |ws|
    decreases |ws|
  {
    if ws != [] {
      CountHands(ws[..|ws| - 1]);
    }
  }

  lemma CountTasks(s: State, n: nat)
    requires Conserved(s) && s.enqueued == multiset(Numbers(n))
    ensures n == |s.tasks| + |InHand(s.workers)| + |OwnerHand(s.owner)| + |s.completed|
  {
    assert |multiset(Numbers(n))| == n;
  }

  /** Each task is in one place only. */
  lemma WhereTaskIs(s: State, n: nat, x: Task)
    requires Conserved(s) && s.enqueued == multiset(Numbers(n)) && x < n
    ensures multiset(s.tasks)[x] + InHand(s.workers)[x] + OwnerHand(s.owner)[x] + multiset(s.completed)[x] == 1
  {
    NumbersOnce(n, x);
  }

  // ----- no other order -----

  /** Tasks wait in line, and none has been finished too far ahead. */
  ghost predicate InLine(s: State, k: nat, cpuCount: nat) {
    && EndOfLine(s.tasks, k) && s.enqueued == multiset(Numbers(k))
    && NoneTooFar(s.completed, cpuCount)
  }

  lemma NotTooFarAhead(s: State, x: Task, k: nat, cpuCount: nat)
    requires Conserved(s) && Live(s.workers) <= cpuCount && InLine(s, k, cpuCount) && Held(s, x)
    ensures x <= |s.completed| + cpuCount
  {
    NumbersOnce(k, x);
    assert x in s.enqueued;
    WhereTaskIs(s, k, x);
    InTasksIff(s.tasks, k, x);
    CountTasks(s, k);
    CountHands(s.workers);
  }

  /** At most the first task leaves the line, and at most one is finished, by whoever holds it. */
  ghost predicate Moves(s: State, s': State) {
    && s'.enqueued == s.enqueued && (s'.tasks == s.tasks || (s.tasks != [] && s'.tasks == s.tasks[1..]))
    && s.completed <= s'.completed && |s'.completed| <= |s.completed| + 1
    && (|s'.completed| > |s.completed| ==> Held(s, s'.completed[|s.completed|]))
  }

  lemma WorkerStepMoves(s: State, t: Tid)
    requires Enabled(s, WorkerStep(t))
    ensures Moves(s, ApplyWorker(s, t))
  {
    if s.workers[t].RUN? {
      HandHolds(s.workers, t);
    }
  }

  lemma OwnerStepMoves(s: State, newId: ThreadId, cpuCount: nat)
    requires Enabled(s, OwnerStep(newId))
    ensures Moves(s, ApplyOwner(s, newId, cpuCount))
  {
  }

  lemma StepMoves(s: State, step: Step, cpuCount: nat)
    requires Enabled(s, step) && !step.Enqueue?
    ensures Moves(s, Apply(s, step, cpuCount))
  {
    match step
    case WorkerStep(t) => WorkerStepMoves(s, t);
    case OwnerStep(newId) => OwnerStepMoves(s, newId, cpuCount);
    case _ =>
  }

  lemma RestEndsLine(tasks: seq<Task>, k: nat)
    requires EndOfLine(tasks, k) && tasks != []
    ensures EndOfLine(tasks[1..], k)
  {
  }

  lemma OneMoreNotTooFar(done: seq<Task>, done': seq<Task>, cpuCount: nat)
    requires NoneTooFar(done, cpuCount) && done <= done' && |done'| <= |done| + 1
    requires |done'| > |done| ==> done'[|done|] <= |done| + cpuCount
    ensures NoneTooFar(done', cpuCount)
  {
  }

  lemma MoveKeepsInLine(s: State, s': State, k: nat, cpuCount: nat)
    requires Conserved(s) && Live(s.workers) <= cpuCount && InLine(s, k, cpuCount) && Moves(s, s')
    ensures InLine(s', k, cpuCount)
  {
    if s.tasks != [] {
      RestEndsLine(s.tasks, k);
    }
    if |s'.completed| > |s.completed| {
      NotTooFarAhead(s, s'.completed[|s.completed|], k, cpuCount);
    }
    OneMoreNotTooFar(s.completed, s'.completed, cpuCount);
  }

  lemma EnqueueKeepsInLine(s: State, k: nat, cpuCount: nat)
    requires InLine(s, k, cpuCount) && Enabled(s, Enqueue(k))
    ensures InLine(Apply(s, Enqueue(k), cpuCount), k + 1, cpuCount)
  {
    OneMoreNumber(k);
  }

  /** What is still to be enqueued. */
  predicate Enqueues(steps: seq<Step>, k: nat, n: nat) {
    var ts := Enqueued(steps); |ts| == n - k && forall i :: 0 <= i < |ts| ==> ts[i] == k + i
  }

  lemma NextEnqueued(steps: seq<Step>, k: nat, n: nat)
    requires steps != [] && Enqueues(steps, k, n)
    ensures steps[0].Enqueue? ==> steps[0].task == k
    ensures Enqueues(steps[1..], if steps[0].Enqueue? then k + 1 else k, n)
  {
    var ts, rest := Enqueued(steps), Enqueued(steps[1..]);
    if steps[0].Enqueue? {
      assert ts == [steps[0].task] + rest;
      assert ts[0] == steps[0].task && forall i :: 0 <= i < |rest| ==> rest[i] == ts[i + 1];
    } else {
      assert ts == [] + rest == rest;
    }
  }

  lemma StepKeepsInLine(s: State, step: Step, k: nat, cpuCount: nat)
    requires Conserved(s) && Live(s.workers) <= cpuCount && InLine(s, k, cpuCount) && Enabled(s, step)
    requires step.Enqueue? ==> step.task == k
    ensures InLine(Apply(s, step, cpuCount), if step.Enqueue? then k + 1 else k, cpuCount)
  {
    if step.Enqueue? {
      EnqueueKeepsInLine(s, k, cpuCount);
    } else {
      StepMoves(s, step, cpuCount);
      MoveKeepsInLine(s, Apply(s, step, cpuCount), k, cpuCount);
    }
  }

  lemma {:induction false} RunKeepsInLine(s: State, steps: seq<Step>, k: nat, n: nat, cpuCount: nat)
    requires Inv(s, cpuCount) && InLine(s, k, cpuCount) && Enqueues(steps, k, n) && CanRun(s, steps, cpuCount)
    ensures InLine(Run(s, steps, cpuCount), n, cpuCount)
    decreases |steps|
  {
    if steps == [] {
      assert |Enqueued(steps)| == 0;
    } else {
      NextEnqueued(steps, k, n);
      StepKeepsInLine(s, steps[0], k, cpuCount);
      StepKeepsInv(s, steps[0], cpuCount);
      var k' := if steps[0].Enqueue? then k + 1 else k;
      RunKeepsInLine(Apply(s, steps[0], cpuCount), steps[1..], k', n, cpuCount);
    }
  }

  lemma OnlyFeasible(steps: seq<Step>, cpuCount: nat, n: nat)
    requires CompilesAll(steps, cpuCount, n)
    ensures Feasible(Run(START, steps, cpuCount).completed, n, cpuCount)
  {
    PoolCompletes(steps, cpuCount, n);
    assert Inv(START, cpuCount) && InLine(START, 0, cpuCount);
    RunKeepsInLine(START, steps, 0, n, cpuCount);
  }

  // ----- every one of these: all tasks are enqueued before a worker takes the first one -----

  function Min(a: nat, b: nat): nat {
    if a <= b then a else b
  }

  function EnqueueCalls(n: nat): seq<Step> {
    seq(n, k requires 0 <= k < n => Enqueue(k))
  }

  /** The first `k` tasks are enqueued, `w` workers are started and `active` of them counted. */
  function Waiting(k: nat, w: nat, active: nat, owner: Owner): State {
    var newestFirst := seq(w, t => w - 1 - t);
    State(Numbers(k), [], newestFirst, {}, active, seq(w, _ => CHECK), Numbers(w), owner, multiset(Numbers(k)), [])
  }

  /** As many workers are started as there may be, and none has moved. */
  function AllWaiting(k: nat, cpuCount: nat): State {
    Waiting(k, Min(k, cpuCount), Min(k, cpuCount), READY)
  }

  lemma OneMoreNumber(k: nat)
    ensures Numbers(k + 1) == Numbers(k) + [k] && EnqueueCalls(k + 1) == EnqueueCalls(k) + [Enqueue(k)]
    ensures multiset(Numbers(k + 1)) == multiset(Numbers(k)) + multiset{k}
  {
    assert Numbers(k + 1) == Numbers(k) + [k];
  }

  lemma EnqueueOne(k: nat, w: nat, cpuCount: nat)
    ensures Apply(Waiting(k, w, w, READY), Enqueue(k), cpuCount) == Waiting(k + 1, w, w, CHECK_ACTIVE)
  {
    OneMoreNumber(k);
  }

  lemma SpawnOne(k: nat, w: nat, cpuCount: nat)
    ensures Enabled(Waiting(k, w, w, SPAWN), OwnerStep(w))
    ensures Apply(Waiting(k, w, w, SPAWN), OwnerStep(w), cpuCount) == Waiting(k, w + 1, w, INCREMENT)
  {
    OneMoreNumber(w);
    var s, s' := Waiting(k, w, w, SPAWN), Waiting(k, w + 1, w, INCREMENT);
    assert s'.workers == s.workers + [CHECK];
    assert s'.threads == [w] + s.threads;
  }

  lemma StartOne(calls: seq<Step>, k: nat, w: nat, cpuCount: nat)
    requires w < cpuCount < WORD && Schedules.Reaches(calls, Waiting(k, w, w, CHECK_ACTIVE), cpuCount)
    ensures Schedules.Reaches(calls, Waiting(k, w + 1, w + 1, READY), cpuCount)
  {
    Schedules.ReachTo(calls, Waiting(k, w, w, CHECK_ACTIVE), OwnerStep(0), Waiting(k, w, w, SPAWN), cpuCount);
    SpawnOne(k, w, cpuCount);
    Schedules.ReachTo(calls, Waiting(k, w, w, SPAWN), OwnerStep(w), Waiting(k, w + 1, w, INCREMENT), cpuCount);
    CountOne(calls, k, w + 1, cpuCount);
  }

  lemma CountOne(calls: seq<Step>, k: nat, w: nat, cpuCount: nat)
    requires 1 <= w <= cpuCount < WORD && Schedules.Reaches(calls, Waiting(k, w, w - 1, INCREMENT), cpuCount)
    ensures Schedules.Reaches(calls, Waiting(k, w, w, READY), cpuCount)
  {
    var counted := Waiting(k, w, w, CLEANUP_CHECK);
    Schedules.ReachTo(calls, Waiting(k, w, w - 1, INCREMENT), OwnerStep(0), counted, cpuCount);
    Schedules.ReachTo(calls, counted, OwnerStep(0), Waiting(k, w, w, READY), cpuCount);
  }

  lemma StartNone(calls: seq<Step>, k: nat, cpuCount: nat)
    requires Schedules.Reaches(calls, Waiting(k, cpuCount, cpuCount, CHECK_ACTIVE), cpuCount)
    ensures Schedules.Reaches(calls, Waiting(k, cpuCount, cpuCount, READY), cpuCount)
  {
    var checked := Waiting(k, cpuCount, cpuCount, CLEANUP_CHECK);
    Schedules.ReachTo(calls, Waiting(k, cpuCount, cpuCount, CHECK_ACTIVE), OwnerStep(0), checked, cpuCount);
    Schedules.ReachTo(calls, checked, OwnerStep(0), Waiting(k, cpuCount, cpuCount, READY), cpuCount);
  }

  lemma OneMoreEnqueued(k: nat, w: nat, cpuCount: nat)
    requires Schedules.Reaches(EnqueueCalls(k), Waiting(k, w, w, READY), cpuCount)
    ensures Schedules.Reaches(EnqueueCalls(k + 1), Waiting(k + 1, w, w, CHECK_ACTIVE), cpuCount)
  {
    var s := Waiting(k, w, w, READY);
    OneMoreNumber(k);
    EnqueueOne(k, w, cpuCount);
    assert Enabled(s, Enqueue(k));
    Schedules.ReachStep(EnqueueCalls(k), s, Enqueue(k), cpuCount);
  }

  lemma OneMoreWaits(k: nat, cpuCount: nat)
    requires cpuCount < WORD && Schedules.Reaches(EnqueueCalls(k), AllWaiting(k, cpuCount), cpuCount)
    ensures Schedules.Reaches(EnqueueCalls(k + 1), AllWaiting(k + 1, cpuCount), cpuCount)
  {
    OneMoreEnqueued(k, Min(k, cpuCount), cpuCount);
    if k < cpuCount {
      StartOne(EnqueueCalls(k + 1), k + 1, k, cpuCount);
    } else {
      StartNone(EnqueueCalls(k + 1), k + 1, cpuCount);
    }
  }

  lemma {:induction false} AllCanWait(n: nat, cpuCount: nat)
    requires cpuCount < WORD
    ensures Schedules.Reaches(EnqueueCalls(n), AllWaiting(n, cpuCount), cpuCount)
    decreases n
  {
    if n == 0 {
      assert EnqueueCalls(0) == [] && AllWaiting(0, cpuCount) == START;
      assert Schedules.LeadsTo([], [], START, cpuCount);
    } else {
      AllCanWait(n - 1, cpuCount);
      OneMoreWaits(n - 1, cpuCount);
    }
  }

  // ----- then the tasks are finished as the order says -----

  /** The owner has called `join`; every worker is idle or busy with a task; the first tasks of the order are done. */
  ghost predicate Working(s: State, order: seq<Task>, n: nat, cpuCount: nat) {
    && s.enqueued == multiset(Numbers(n)) && EndOfLine(s.tasks, n) && s.completed <= order
    && (s.owner.JOIN_EMPTY? || s.owner.JOIN_RUN?)
    && |s.workers| == |s.threadIds| == Min(n, cpuCount)
    && forall t :: 0 <= t < |s.workers| ==> s.workers[t].CHECK? || s.workers[t].RUN?
  }

  /** The task that is next in the order is still in line, so there is a free hand. */
  lemma SomeHandIsFree(s: State, order: seq<Task>, n: nat, cpuCount: nat)
    requires Inv(s, cpuCount) && Working(s, order, n, cpuCount) && Feasible(order, n, cpuCount)
    requires |s.completed| < |order| && order[|s.completed|] in s.tasks
    ensures s.tasks != [] && (s.owner.JOIN_EMPTY? || exists t :: 0 <= t < |s.workers| && s.workers[t] == CHECK)
  {
    var x := order[|s.completed|];
    InTasksIff(s.tasks, n, x);
    CountTasks(s, n);
    CountHands(s.workers);
  }

  /** A free hand takes the next task in line. */
  lemma TakeTask(calls: seq<Step>, s: State, order: seq<Task>, n: nat, cpuCount: nat) returns (s': State)
    requires Schedules.Reaches(calls, s, cpuCount) && Working(s, order, n, cpuCount) && s.tasks != []
    requires s.owner.JOIN_EMPTY? || exists t :: 0 <= t < |s.workers| && s.workers[t] == CHECK
    ensures Schedules.Reaches(calls, s', cpuCount) && Working(s', order, n, cpuCount)
    ensures s'.completed == s.completed && |s'.tasks| < |s.tasks|
  {
    if s.owner.JOIN_EMPTY? {
      s' := s.(tasks := s.tasks[1..], owner := JOIN_RUN(s.tasks[0]));
      Schedules.ReachTo(calls, s, OwnerStep(0), s.(owner := JOIN_POP), cpuCount);
      Schedules.ReachTo(calls, s.(owner := JOIN_POP), OwnerStep(0), s', cpuCount);
    } else {
      var t :| 0 <= t < |s.workers| && s.workers[t] == CHECK;
      var popping := s.(workers := s.workers[t := POP]);
      s' := s.(tasks := s.tasks[1..], workers := s.workers[t := RUN(s.tasks[0])]);
      Schedules.ReachTo(calls, s, WorkerStep(t), popping, cpuCount);
      assert popping.workers[t := RUN(s.tasks[0])] == s'.workers;
      Schedules.ReachTo(calls, popping, WorkerStep(t), s', cpuCount);
    }
  }

  lemma OneMoreDone(done: seq<Task>, order: seq<Task>)
    requires done <= order && |done| < |order|
    ensures done + [order[|done|]] <= order
  {
  }

  lemma OwnerFinishes(calls: seq<Step>, s: State, x: Task, cpuCount: nat)
    requires Schedules.Reaches(calls, s, cpuCount) && s.owner == JOIN_RUN(x)
    ensures Schedules.Reaches(calls, s.(completed := s.completed + [x], owner := JOIN_EMPTY), cpuCount)
  {
    Schedules.ReachTo(calls, s, OwnerStep(0), s.(completed := s.completed + [x], owner := JOIN_EMPTY), cpuCount);
  }

  lemma WorkerFinishes(calls: seq<Step>, s: State, t: Tid, x: Task, cpuCount: nat)
    requires Schedules.Reaches(calls, s, cpuCount) && t < |s.workers| == |s.threadIds| && s.workers[t] == RUN(x)
    ensures Schedules.Reaches(calls, s.(completed := s.completed + [x], workers := s.workers[t := CHECK]), cpuCount)
  {
    Schedules.ReachTo(calls, s, WorkerStep(t), s.(completed := s.completed + [x], workers := s.workers[t := CHECK]),
                      cpuCount);
  }

  /** Whoever holds the task that is next in the order finishes it. */
  lemma FinishTask(calls: seq<Step>, s: State, order: seq<Task>, n: nat, cpuCount: nat) returns (s': State)
    requires Schedules.Reaches(calls, s, cpuCount) && Working(s, order, n, cpuCount) && |s.completed| < |order|
    requires Held(s, order[|s.completed|])
    ensures Schedules.Reaches(calls, s', cpuCount) && Working(s', order, n, cpuCount)
    ensures |s'.completed| == |s.completed| + 1
  {
    var x := order[|s.completed|];
    OneMoreDone(s.completed, order);
    if x in OwnerHand(s.owner) {
      OwnerFinishes(calls, s, x, cpuCount);
      s' := s.(completed := s.completed + [x], owner := JOIN_EMPTY);
    } else {
      var t := HolderOf(s.workers, x);
      WorkerFinishes(calls, s, t, x, cpuCount);
      s' := s.(completed := s.completed + [x], workers := s.workers[t := CHECK]);
    }
  }

  lemma OnlyOnce(order: seq<Task>, m: nat, n: nat, cpuCount: nat)
    requires Feasible(order, n, cpuCount) && m < |order|
    ensures order[m] < n && multiset(order[..m])[order[m]] == 0
  {
    var x := order[m];
    assert x in multiset(order);
    NumbersOnce(n, x);
    assert order == order[..m] + [x] + order[m + 1..];
    assert multiset(order)[x] >= multiset(order[..m])[x] + 1;
  }

  /** The next task in the order is in line or in somebody's hands. */
  lemma NextTask(s: State, order: seq<Task>, n: nat, cpuCount: nat)
    requires Conserved(s) && Working(s, order, n, cpuCount) && Feasible(order, n, cpuCount) && |s.completed| < |order|
    ensures order[|s.completed|] in s.tasks || Held(s, order[|s.completed|])
  {
    OnlyOnce(order, |s.completed|, n, cpuCount);
    assert s.completed == order[..|s.completed|];
    WhereTaskIs(s, n, order[|s.completed|]);
  }

  lemma {:induction false} FinishAll(calls: seq<Step>, s: State, order: seq<Task>, n: nat, cpuCount: nat)
    returns (s': State)
    requires Schedules.Reaches(calls, s, cpuCount) && Working(s, order, n, cpuCount)
    requires Feasible(order, n, cpuCount) && cpuCount < WORD
    ensures Schedules.Reaches(calls, s', cpuCount) && Joining(s'.owner) && s'.completed == order
    decreases |order| - |s.completed|, |s.tasks|
  {
    s' := s;
    if s.completed != order {
      Schedules.ReachedInv(calls, s, cpuCount);
      NextTask(s, order, n, cpuCount);
      if order[|s.completed|] in s.tasks {
        SomeHandIsFree(s, order, n, cpuCount);
        var next := TakeTask(calls, s, order, n, cpuCount);
        s' := FinishAll(calls, next, order, n, cpuCount);
      } else {
        var next := FinishTask(calls, s, order, n, cpuCount);
        s' := FinishAll(calls, next, order, n, cpuCount);
      }
    }
  }

  lemma JoinGoesOn(calls: seq<Step>, s: State, cpuCount: nat) returns (next: State)
    requires Schedules.Reaches(calls, s, cpuCount) && cpuCount < WORD && Joining(s.owner) && s.owner != JOINED
    ensures Schedules.Reaches(calls, next, cpuCount) && Joining(next.owner) && s.completed <= next.completed
    ensures 0 <= Measure(next) < Measure(s)
  {
    Schedules.ReachedInv(calls, s, cpuCount);
    var step := SomeStepIsEnabled(s, cpuCount);
    next := Apply(s, step, cpuCount);
    JoinStaysInside(s, [step], cpuCount);
    assert Run(s, [step], cpuCount) == Run(next, [step][1..], cpuCount) == next;
    StepMoves(s, step, cpuCount);
    Schedules.ReachOn(calls, s, step, cpuCount);
    StepDecreases(s, step, cpuCount);
    Schedules.ReachedInv(calls, next, cpuCount);
  }

  /** Then `join` returns, and what is done stays done. */
  lemma {:induction false} JoinEnds(calls: seq<Step>, s: State, cpuCount: nat) returns (s': State)
    requires Schedules.Reaches(calls, s, cpuCount) && cpuCount < WORD && Joining(s.owner)
    ensures Schedules.Reaches(calls, s', cpuCount) && s'.owner == JOINED && s.completed <= s'.completed
    decreases if Measure(s) < 0 then 0 else Measure(s)
  {
    s' := s;
    if s.owner != JOINED {
      var next := JoinGoesOn(calls, s, cpuCount);
      s' := JoinEnds(calls, next, cpuCount);
    }
  }

  // ----- exactly these -----

  lemma FirstOf(a: seq<Step>, b: seq<Step>)
    requires a != []
    ensures Enqueued(a + b) == (if a[0].Enqueue? then [a[0].task] else []) + Enqueued(a[1..] + b)
  {
    assert (a + b)[0] == a[0] && (a + b)[1..] == a[1..] + b;
  }

  lemma Associate(x: seq<Task>, y: seq<Task>, z: seq<Task>)
    ensures x + (y + z) == (x + y) + z
  {
  }

  lemma {:induction false} EnqueuedConcat(a: seq<Step>, b: seq<Step>)
    ensures Enqueued(a + b) == Enqueued(a) + Enqueued(b)
    decreases |a|
  {
    if a == [] {
      assert a + b == b;
    } else {
      FirstOf(a, b);
      EnqueuedConcat(a[1..], b);
      Associate(if a[0].Enqueue? then [a[0].task] else [], Enqueued(a[1..]), Enqueued(b));
    }
  }

  lemma {:induction false} CallsEnqueueAll(steps: seq<Step>)
    ensures Enqueued(Reuse.CallsOf(steps)) == Enqueued(steps)
    decreases |steps|
  {
    if steps != [] {
      var first := if steps[0].Enqueue? || steps[0].Join? then [steps[0]] else [];
      CallsEnqueueAll(steps[1..]);
      EnqueuedConcat(first, Reuse.CallsOf(steps[1..]));
    }
  }

  lemma {:induction false} EnqueueCallsEnqueue(n: nat)
    ensures Enqueued(EnqueueCalls(n)) == Numbers(n)
    decreases n
  {
    if n > 0 {
      OneMoreNumber(n - 1);
      EnqueueCallsEnqueue(n - 1);
      EnqueuedConcat(EnqueueCalls(n - 1), [Enqueue(n - 1)]);
      assert Enqueued([Enqueue(n - 1)]) == [n - 1] + Enqueued([]);
    }
  }

  /** A run of the pool that enqueues the tasks, joins, and finishes them in this order. */
  ghost predicate FinishesIn(steps: seq<Step>, order: seq<Task>, n: nat, cpuCount: nat) {
    CompilesAll(steps, cpuCount, n) && Run(START, steps, cpuCount).completed == order
  }

  lemma EveryFeasible(order: seq<Task>, n: nat, cpuCount: nat) returns (steps: seq<Step>)
    requires Feasible(order, n, cpuCount) && cpuCount < WORD
    ensures FinishesIn(steps, order, n, cpuCount)
  {
    var calls, s := EnqueueCalls(n) + [Join], AllWaiting(n, cpuCount);
    AllCanWait(n, cpuCount);
    Schedules.ReachStep(EnqueueCalls(n), s, Join, cpuCount);
    var working := FinishAll(calls, Apply(s, Join, cpuCount), order, n, cpuCount);
    var end := JoinEnds(calls, working, cpuCount);
    steps :| Schedules.LeadsTo(steps, calls, end, cpuCount);
    CallsEnqueueAll(steps);
    EnqueueCallsEnqueue(n);
    EnqueuedConcat(EnqueueCalls(n), [Join]);
    PoolCompletes(steps, cpuCount, n);
    assert |order| == |multiset(order)| == |multiset(end.completed)| == |end.completed|;
  }

  /** The pool can finish the tasks in an order exactly when, with m of them done, none beyond the
      (m + `cpuCount`)-th is the next. */
  lemma FinishesInIff(order: seq<Task>, n: nat, cpuCount: nat)
    requires cpuCount < WORD
    ensures (exists steps :: FinishesIn(steps, order, n, cpuCount)) <==> Feasible(order, n, cpuCount)
  {
    if steps :| FinishesIn(steps, order, n, cpuCount) {
      OnlyFeasible(steps, cpuCount, n);
    }
    if Feasible(order, n, cpuCount) {
      var steps := EveryFeasible(order, n, cpuCount);
    }
  }
}
