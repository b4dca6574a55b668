/** The thread pool as a protocol of atomic steps: the workers and the thread that owns the pool
    interleave freely. Every access to a locked queue, to the counter or to a thread is one step. */
module Threadpool {

  type Task = nat      // tasks and workers are known by numbers,
  type Tid = nat       // workers in the order they are spawned;
  type ThreadId = nat  // what a thread calls itself is up to the library

  /** What a worker does next. */
  datatype Worker =
    | CHECK            // while(!tasks.empty())
    | POP              // tasks.pop_front()
    | RUN(task: Task)
    | DECREMENT        // active_threads--
    | REPORT           // stopped_threads.push_back(own thread id)
    | RETURNING
    | EXITED

  /** What the owner of the pool does next. */
  datatype Owner =
    | READY                                   // outside of the pool
    | CHECK_ACTIVE | SPAWN | INCREMENT        // enque, after the push
    | CLEANUP_CHECK
    | CLEANUP_EMPTY(ids: set<ThreadId>) | CLEANUP_POP(ids: set<ThreadId>)
    | CLEANUP_JOIN(ids: set<ThreadId>, at: nat)
    | JOIN_EMPTY | JOIN_POP | JOIN_RUN(task: Task)
    | JOIN_THREADS(at: nat)
    | JOINED                                  // join has returned

  datatype State = State(
    tasks: seq<Task>,
    stopped: seq<ThreadId>,
    threads: seq<Tid>,         // the handles in the list, newest first
    joined: set<Tid>,          // handles that were joined: no longer joinable, and without an id
    active: nat,               // a 64-bit counter
    workers: seq<Worker>,
    threadIds: seq<ThreadId>,  // of all workers; the id of a joined one may be given to another
    owner: Owner,
    enqueued: multiset<Task>,
    completed: seq<Task>)      // in the order of completion

  const WORD := 0x1_0000_0000_0000_0000

  const START := State([], [], [], {}, 0, [], [], READY, multiset{}, [])

  /** One step of an interleaving: a step of a worker, a call of the owner, or the owner going on.
      A new thread gets the id the library has chosen. */
  datatype Step = WorkerStep(t: Tid) | Enqueue(task: Task) | Join | Destroy | OwnerStep(newId: ThreadId)

  /** Joining a thread blocks until it has exited. */
  predicate CanJoin(s: State, t: Tid) {
    t < |s.workers| && s.workers[t] == EXITED
  }

  predicate Enabled(s: State, step: Step) {
    match step
    case WorkerStep(t) => t < |s.workers| && t < |s.threadIds| && s.workers[t] != EXITED
    case Enqueue(_) => s.owner in {READY, JOINED}
    case Join => s.owner in {READY, JOINED}
    case Destroy => s.owner == JOINED
    case OwnerStep(newId) =>
      match s.owner
      case READY => false
      case JOINED => false
      case SPAWN => IsFree(s, newId)
      case CLEANUP_JOIN(ids, k) =>
        k < |s.threads| && HasId(s.threads[k], ids, s.threadIds, s.joined) ==> CanJoin(s, s.threads[k])
      case JOIN_THREADS(k) =>
        k < |s.threads| && s.threads[k] !in s.joined ==> CanJoin(s, s.threads[k])
      case _ => true
  }

  /** A step inside of a call. */
  predicate GoesOn(step: Step) {
    step.OwnerStep? || step.WorkerStep?
  }

  /** No thread that can still be joined has the id. */
  predicate IsFree(s: State, id: ThreadId) {
    forall t :: 0 <= t < |s.threadIds| && t !in s.joined ==> s.threadIds[t] != id
  }

  function Apply(s: State, step: Step, cpuCount: nat): State
    requires Enabled(s, step)
  {
    match step
    case WorkerStep(t) => ApplyWorker(s, t)
    case Enqueue(task) =>
      s.(tasks := s.tasks + [task], enqueued := s.enqueued + multiset{task}, owner := CHECK_ACTIVE)
    case Join => s.(owner := JOIN_EMPTY)
    case Destroy => s.(owner := CLEANUP_CHECK)
    case OwnerStep(newId) => ApplyOwner(s, newId, cpuCount)
  }

  function ApplyWorker(s: State, t: Tid): State
    requires Enabled(s, WorkerStep(t))
  {
    match s.workers[t]
    case CHECK => Go(s, t, if s.tasks != [] then POP else DECREMENT)
    case POP =>
      if s.tasks == [] then Go(s, t, CHECK)
      else Go(s.(tasks := s.tasks[1..]), t, RUN(s.tasks[0]))
    case RUN(task) => Go(s.(completed := s.completed + [task]), t, CHECK)
    case DECREMENT => Go(s.(active := if s.active == 0 then WORD - 1 else s.active - 1), t, REPORT)
    case REPORT => Go(s.(stopped := s.stopped + [s.threadIds[t]]), t, RETURNING)
    case RETURNING => Go(s, t, EXITED)
  }

  function Go(s: State, t: Tid, next: Worker): State
    requires t < |s.workers|
  {
    s.(workers := s.workers[t := next])
  }

  function ApplyOwner(s: State, newId: ThreadId, cpuCount: nat): State
    requires Enabled(s, OwnerStep(newId))
  {
    match s.owner
    case CHECK_ACTIVE => s.(owner := if s.active < cpuCount then SPAWN else CLEANUP_CHECK)
    case SPAWN =>
      s.(workers := s.workers + [CHECK], threadIds := s.threadIds + [newId], threads := [|s.workers|] + s.threads,
         owner := INCREMENT)
    case INCREMENT => s.(active := if s.active == WORD - 1 then 0 else s.active + 1, owner := CLEANUP_CHECK)
    case CLEANUP_CHECK => s.(owner := if s.stopped == [] then READY else CLEANUP_EMPTY({}))
    case CLEANUP_EMPTY(ids) => s.(owner := if s.stopped == [] then CLEANUP_JOIN(ids, 0) else CLEANUP_POP(ids))
    case CLEANUP_POP(ids) =>
      if s.stopped == [] then s.(owner := CLEANUP_EMPTY(ids))
      else s.(stopped := s.stopped[1..], owner := CLEANUP_EMPTY(ids + {s.stopped[0]}))
    case CLEANUP_JOIN(ids, k) =>
      if k >= |s.threads| then s.(threads := RemoveIf(s.threads, ids, s.threadIds, s.joined), owner := READY)
      else if HasId(s.threads[k], ids, s.threadIds, s.joined) then
        s.(joined := s.joined + {s.threads[k]}, owner := CLEANUP_JOIN(ids, k + 1))
      else s.(owner := CLEANUP_JOIN(ids, k + 1))
    case JOIN_EMPTY => s.(owner := if s.tasks == [] then JOIN_THREADS(0) else JOIN_POP)
    case JOIN_POP =>
      if s.tasks == [] then s.(owner := JOIN_EMPTY)
      else s.(tasks := s.tasks[1..], owner := JOIN_RUN(s.tasks[0]))
    case JOIN_RUN(task) => s.(completed := s.completed + [task], owner := JOIN_EMPTY)
    case JOIN_THREADS(k) =>
      if k >= |s.threads| then s.(owner := JOINED)
      else s.(joined := s.joined + {s.threads[k]}, owner := JOIN_THREADS(k + 1))
  }

  /** `ids.contains(handle.get_id())`: a joined handle has no id any more. */
  predicate HasId(t: Tid, ids: set<ThreadId>, threadIds: seq<ThreadId>, joined: set<Tid>) {
    t < |threadIds| && threadIds[t] in ids && t !in joined
  }

  function RemoveIf(threads: seq<Tid>, ids: set<ThreadId>, threadIds: seq<ThreadId>, joined: set<Tid>): seq<Tid> {
    if threads == [] then []
    else
      var rest := RemoveIf(threads[1..], ids, threadIds, joined);
      if HasId(threads[0], ids, threadIds, joined) then rest else [threads[0]] + rest
  }

  // ----- sums over the workers -----

  function Hand(w: Worker): multiset<Task> {
    match w case RUN(task) => multiset{task} case _ => multiset{}
  }

  function InHand(ws: seq<Worker>): multiset<Task> {
    if ws == [] then multiset{} else InHand(ws[..|ws| - 1]) + Hand(ws[|ws| - 1])
  }

  function OwnerHand(o: Owner): multiset<Task> {
    match o case JOIN_RUN(task) => multiset{task} case _ => multiset{}
  }

  /** A worker counts as live until it has left its loop and decremented the counter. */
  predicate HasLeft(w: Worker) {
    w == REPORT || w == RETURNING || w == EXITED
  }

  function Live(ws: seq<Worker>): nat {
    if ws == [] then 0 else Live(ws[..|ws| - 1]) + if HasLeft(ws[|ws| - 1]) then 0 else 1
  }

  lemma AddBoth<T>(a: multiset<T>, x: multiset<T>, b: multiset<T>, y: multiset<T>, both: multiset<T>)
    requires a + x == b + y
    ensures (a + both) + x == (b + both) + y
  {
    assert (a + both) + x == (a + x) + both;
    assert (b + both) + y == (b + y) + both;
  }

  lemma SwapLast<T>(a: multiset<T>, x: multiset<T>, y: multiset<T>)
    ensures (a + x) + y == (a + y) + x
  {
  }

  lemma InHandOfLast(ws: seq<Worker>)
    requires ws != []
    ensures InHand(ws) == InHand(ws[..|ws| - 1]) + Hand(ws[|ws| - 1])
  {
  }

  lemma UpdateSlices(ws: seq<Worker>, t: Tid, next: Worker, k: nat)
    requires t < |ws| && k < |ws|
    ensures ws[t := next][..k] == if t < k then ws[..k][t := next] else ws[..k]
  {
  }

  lemma {:induction false} HandAfterGo(ws: seq<Worker>, t: Tid, next: Worker)
    requires t < |ws|
    ensures InHand(ws[t := next]) + Hand(ws[t]) == InHand(ws) + Hand(next)
    decreases |ws|
  {
    var k := |ws| - 1;
    var ws' := ws[t := next];
    var init := InHand(ws[..k]);
    assert InHand(ws) == init + Hand(ws[k]);
    InHandOfLast(ws');
    if t == k {
      UpdateSlices(ws, t, next, k);
      SwapLast(init, Hand(next), Hand(ws[t]));
    } else {
      UpdateSlices(ws, t, next, k);
      HandAfterGo(ws[..k], t, next);
      AddBoth(InHand(ws'[..k]), Hand(ws[t]), init, Hand(next), Hand(ws[k]));
    }
  }

  lemma {:induction false} LiveAfterGo(ws: seq<Worker>, t: Tid, next: Worker)
    requires t < |ws|
    ensures Live(ws[t := next]) == Live(ws) + (if HasLeft(ws[t]) then 1 else 0) - (if HasLeft(next) then 1 else 0)
    decreases |ws|
  {
    var k := |ws| - 1;
    if t == k {
      assert ws[t := next][..k] == ws[..k];
    } else {
      LiveAfterGo(ws[..k], t, next);
      assert ws[t := next][..k] == ws[..k][t := next];
    }
  }

  lemma {:induction false} LiveMember(ws: seq<Worker>, t: Tid)
    requires t < |ws| && !HasLeft(ws[t])
    ensures Live(ws) >= 1
    decreases |ws|
  {
    if t < |ws| - 1 {
      LiveMember(ws[..|ws| - 1], t);
    }
  }

  lemma SumsAfterSpawn(ws: seq<Worker>)
    ensures InHand(ws + [CHECK]) == InHand(ws) && Live(ws + [CHECK]) == Live(ws) + 1
  {
    assert (ws + [CHECK])[..|ws|] == ws;
  }

  lemma {:induction false} AllExited(ws: seq<Worker>)
    requires forall t :: 0 <= t < |ws| ==> ws[t] == EXITED
    ensures InHand(ws) == multiset{} && Live(ws) == 0
    decreases |ws|
  {
    if ws != [] {
      AllExited(ws[..|ws| - 1]);
    }
  }

  // ----- the invariant -----

  /** Nothing is lost and nothing is doubled. */
  ghost predicate Conserved(s: State) {
    s.enqueued == multiset(s.tasks) + InHand(s.workers) + OwnerHand(s.owner) + multiset(s.completed)
  }

  /** The counter is the number of live workers, one behind (so possibly wrapped around) while the owner
      has yet to count a new one. */
  ghost predicate Counted(s: State, cpuCount: nat) {
    && s.active == Wrapped(Live(s.workers) - if s.owner == INCREMENT then 1 else 0)
    && Live(s.workers) <= cpuCount < WORD
    && (s.owner == SPAWN ==> Live(s.workers) < cpuCount)
  }

  function Wrapped(x: int): nat
    requires -1 <= x
  {
    if x < 0 then WORD - 1 else x
  }

  /** The list holds the handle of every worker ever spawned, only exited workers have been joined, and
      those that have not been joined have different ids. */
  ghost predicate Tracked(s: State) {
    && |s.threads| == |s.workers| == |s.threadIds|
    && (forall k :: 0 <= k < |s.threads| ==> s.threads[k] == |s.workers| - 1 - k)
    && (forall t <- s.joined :: CanJoin(s, t))
    && (forall t, u :: 0 <= t < u < |s.threadIds| && t !in s.joined && u !in s.joined ==>
        s.threadIds[t] != s.threadIds[u])
  }

  /** How far the owner has come. */
  ghost predicate Progressed(s: State) {
    match s.owner
    case CLEANUP_POP(_) => s.stopped != []
    case CLEANUP_JOIN(ids, k) =>
      k <= |s.threads| && forall j :: 0 <= j < k ==> !HasId(s.threads[j], ids, s.threadIds, s.joined)
    case JOIN_THREADS(k) => s.tasks == [] && k <= |s.threads| && forall j :: 0 <= j < k ==> s.threads[j] in s.joined
    case JOINED => s.tasks == [] && forall t :: 0 <= t < |s.workers| ==> s.workers[t] == EXITED && t in s.joined
    case _ => true
  }

  ghost predicate Inv(s: State, cpuCount: nat) {
    Conserved(s) && Counted(s, cpuCount) && Tracked(s) && Progressed(s)
  }

  /** A task taken from the queue, and a task finished, seen from the total. */
  lemma TaskTaken<T>(queue: multiset<T>, hand: multiset<T>, other: multiset<T>, done: multiset<T>, x: multiset<T>)
    ensures (queue + x) + hand + other + done == queue + (hand + x) + other + done
    ensures (queue + x) + hand + other + done == queue + hand + (other + x) + done
  {
  }

  lemma TaskDone<T>(queue: multiset<T>, hand: multiset<T>, other: multiset<T>, done: multiset<T>, x: multiset<T>)
    ensures queue + (hand + x) + other + done == queue + hand + other + (done + x)
    ensures queue + hand + (other + x) + done == queue + hand + other + (done + x)
  {
  }

  lemma ConservedByWorker(s: State, t: Tid)
    requires Conserved(s) && Enabled(s, WorkerStep(t))
    ensures Conserved(ApplyWorker(s, t))
  {
    if s.workers[t] == POP && s.tasks != [] {
      ConservedByPop(s, t);
    } else if s.workers[t].RUN? {
      ConservedByRun(s, t);
    } else {
      var w' := WorkerMovesNothing(s, t);
      EmptyHandStaysEmpty(s.workers, t, w');
    }
  }

  lemma WorkerMovesNothing(s: State, t: Tid) returns (w': Worker)
    requires Enabled(s, WorkerStep(t)) && !s.workers[t].RUN? && (s.workers[t] == POP ==> s.tasks == [])
    ensures var s' := ApplyWorker(s, t);
            && s'.tasks == s.tasks && s'.enqueued == s.enqueued && s'.completed == s.completed && s'.owner == s.owner
            && s'.workers == s.workers[t := w']
    ensures Hand(s.workers[t]) == Hand(w') == multiset{}
  {
    w' := ApplyWorker(s, t).workers[t];
  }

  lemma EmptyHandStaysEmpty(ws: seq<Worker>, t: Tid, next: Worker)
    requires t < |ws| && Hand(ws[t]) == Hand(next) == multiset{}
    ensures InHand(ws[t := next]) == InHand(ws)
  {
    HandAfterGo(ws, t, next);
    assert InHand(ws[t := next]) + multiset{} == InHand(ws[t := next]);
    assert InHand(ws) + multiset{} == InHand(ws);
  }

  lemma ConservedByPop(s: State, t: Tid)
    requires Conserved(s) && Enabled(s, WorkerStep(t)) && s.workers[t] == POP && s.tasks != []
    ensures Conserved(ApplyWorker(s, t))
  {
    var x := multiset{s.tasks[0]};
    HandAfterGo(s.workers, t, RUN(s.tasks[0]));
    assert InHand(s.workers[t := RUN(s.tasks[0])]) == InHand(s.workers) + x;
    FrontOf(s.tasks);
    TaskTaken(multiset(s.tasks[1..]), InHand(s.workers), OwnerHand(s.owner), multiset(s.completed), x);
  }

  lemma ConservedByRun(s: State, t: Tid)
    requires Conserved(s) && Enabled(s, WorkerStep(t)) && s.workers[t].RUN?
    ensures Conserved(ApplyWorker(s, t))
  {
    var x := multiset{s.workers[t].task};
    var hand' := InHand(s.workers[t := CHECK]);
    HandAfterGo(s.workers, t, CHECK);
    assert InHand(s.workers) == hand' + x;
    TaskDone(multiset(s.tasks), hand', OwnerHand(s.owner), multiset(s.completed), x);
    assert multiset(s.completed + [s.workers[t].task]) == multiset(s.completed) + x;
  }

  lemma FrontOf(tasks: seq<Task>)
    requires tasks != []
    ensures multiset(tasks) == multiset(tasks[1..]) + multiset{tasks[0]}
  {
    assert tasks == [tasks[0]] + tasks[1..];
  }

  lemma CountedByWorker(s: State, t: Tid, cpuCount: nat)
    requires Counted(s, cpuCount) && Enabled(s, WorkerStep(t))
    ensures Counted(ApplyWorker(s, t), cpuCount)
  {
    LiveAfterGo(s.workers, t, ApplyWorker(s, t).workers[t]);
    if !HasLeft(s.workers[t]) {
      LiveMember(s.workers, t);
    }
  }

  lemma TrackedByWorker(s: State, t: Tid)
    requires Tracked(s) && Progressed(s) && Enabled(s, WorkerStep(t))
    ensures Tracked(ApplyWorker(s, t)) && Progressed(ApplyWorker(s, t))
  {
    var s' := ApplyWorker(s, t);
    assert forall u :: CanJoin(s, u) ==> CanJoin(s', u);
  }

  lemma OneMoreTask<T>(queue: multiset<T>, hand: multiset<T>, done: multiset<T>, x: multiset<T>)
    ensures (queue + hand + done) + x == (queue + x) + hand + done
    ensures queue + hand + multiset{} + done == queue + hand + done
            && (queue + x) + hand + multiset{} + done == (queue + x) + hand + done
  {
  }

  lemma ConservedByOwner(s: State, step: Step, cpuCount: nat)
    requires Conserved(s) && Enabled(s, step) && !step.WorkerStep?
    ensures Conserved(Apply(s, step, cpuCount))
  {
    match step
    case Enqueue(task) =>
      var queue, x := multiset(s.tasks), multiset{task};
      assert multiset(s.tasks + [task]) == queue + x;
      assert OwnerHand(s.owner) == multiset{};
      OneMoreTask(queue, InHand(s.workers), multiset(s.completed), x);
    case OwnerStep(newId) =>
      ConservedByGoingOn(s, newId, cpuCount);
    case _ =>
  }

  /** The steps of the owner that move no task. */
  predicate MovesNoTask(s: State) {
    s.owner != SPAWN && !s.owner.JOIN_RUN? && (s.owner == JOIN_POP ==> s.tasks == [])
  }

  lemma MovesNothing(s: State, newId: ThreadId, cpuCount: nat)
    requires Enabled(s, OwnerStep(newId)) && MovesNoTask(s)
    ensures var s' := ApplyOwner(s, newId, cpuCount);
            && s'.tasks == s.tasks && s'.workers == s.workers && s'.enqueued == s.enqueued
            && s'.completed == s.completed
            && OwnerHand(s'.owner) == OwnerHand(s.owner)
  {
  }

  lemma ConservedByGoingOn(s: State, newId: ThreadId, cpuCount: nat)
    requires Conserved(s) && Enabled(s, OwnerStep(newId))
    ensures Conserved(ApplyOwner(s, newId, cpuCount))
  {
    if MovesNoTask(s) {
      MovesNothing(s, newId, cpuCount);
    } else if s.owner == SPAWN {
      SumsAfterSpawn(s.workers);
    } else if s.owner == JOIN_POP {
      ConservedByJoinPop(s, newId, cpuCount);
    } else {
      ConservedByJoinRun(s, newId, cpuCount);
    }
  }

  lemma ConservedByJoinPop(s: State, newId: ThreadId, cpuCount: nat)
    requires Conserved(s) && s.owner == JOIN_POP && s.tasks != []
    ensures Conserved(ApplyOwner(s, newId, cpuCount))
  {
    FrontOf(s.tasks);
    TaskTaken(multiset(s.tasks[1..]), InHand(s.workers), multiset{}, multiset(s.completed), multiset{s.tasks[0]});
    assert multiset{} + multiset{s.tasks[0]} == multiset{s.tasks[0]};
  }

  lemma ConservedByJoinRun(s: State, newId: ThreadId, cpuCount: nat)
    requires Conserved(s) && s.owner.JOIN_RUN?
    ensures Conserved(ApplyOwner(s, newId, cpuCount))
  {
    var x := multiset{s.owner.task};
    TaskDone(multiset(s.tasks), InHand(s.workers), multiset{}, multiset(s.completed), x);
    assert multiset(s.completed + [s.owner.task]) == multiset(s.completed) + x;
    assert multiset{} + x == x;
  }

  lemma CountedByOwner(s: State, step: Step, cpuCount: nat)
    requires Counted(s, cpuCount) && Enabled(s, step) && !step.WorkerStep?
    ensures Counted(Apply(s, step, cpuCount), cpuCount)
  {
    SumsAfterSpawn(s.workers);
  }

  /** Joining drops the id, so the handles joined in a cleanup are not the ones it then removes. */
  lemma {:induction false} RemovesNothing(threads: seq<Tid>, ids: set<ThreadId>, threadIds: seq<ThreadId>,
                                          joined: set<Tid>)
    requires forall t <- threads :: !HasId(t, ids, threadIds, joined)
    ensures RemoveIf(threads, ids, threadIds, joined) == threads
    decreases |threads|
  {
    if threads != [] {
      RemovesNothing(threads[1..], ids, threadIds, joined);
    }
  }

  lemma TrackedByOwner(s: State, step: Step, cpuCount: nat)
    requires Tracked(s) && Progressed(s) && Enabled(s, step) && !step.WorkerStep?
    ensures Tracked(Apply(s, step, cpuCount)) && Progressed(Apply(s, step, cpuCount))
  {
    if step.OwnerStep? {
      if s.owner.CLEANUP_JOIN? || s.owner.JOIN_THREADS? {
        TrackedByJoining(s, step.newId, cpuCount);
      } else if s.owner == SPAWN {
        TrackedBySpawn(s, step.newId, cpuCount);
      }
    }
  }

  lemma TrackedBySpawn(s: State, newId: ThreadId, cpuCount: nat)
    requires Tracked(s) && s.owner == SPAWN && IsFree(s, newId)
    ensures Tracked(ApplyOwner(s, newId, cpuCount))
  {
    var s' := ApplyOwner(s, newId, cpuCount);
    assert forall u :: CanJoin(s, u) ==> CanJoin(s', u);
  }

  lemma TrackedByJoining(s: State, newId: ThreadId, cpuCount: nat)
    requires Tracked(s) && Progressed(s) && Enabled(s, OwnerStep(newId))
             && (s.owner.CLEANUP_JOIN? || s.owner.JOIN_THREADS?)
    ensures Tracked(ApplyOwner(s, newId, cpuCount)) && Progressed(ApplyOwner(s, newId, cpuCount))
  {
    var k := s.owner.at;
    if k >= |s.threads| {
      if s.owner.CLEANUP_JOIN? {
        NothingToRemove(s);
      } else {
        forall t | 0 <= t < |s.workers|
          ensures s.workers[t] == EXITED && t in s.joined
        {
          assert s.threads[|s.workers| - 1 - t] in s.joined;
        }
      }
    }
  }

  lemma NothingToRemove(s: State)
    requires Tracked(s) && Progressed(s) && s.owner.CLEANUP_JOIN? && s.owner.at >= |s.threads|
    ensures RemoveIf(s.threads, s.owner.ids, s.threadIds, s.joined) == s.threads
  {
    forall t | t in s.threads
      ensures !HasId(t, s.owner.ids, s.threadIds, s.joined)
    {
      var j :| 0 <= j < |s.threads| && s.threads[j] == t;
    }
    RemovesNothing(s.threads, s.owner.ids, s.threadIds, s.joined);
  }

  lemma StepKeepsInv(s: State, step: Step, cpuCount: nat)
    requires Inv(s, cpuCount) && Enabled(s, step)
    ensures Inv(Apply(s, step, cpuCount), cpuCount)
  {
    if step.WorkerStep? {
      ConservedByWorker(s, step.t);
      CountedByWorker(s, step.t, cpuCount);
      TrackedByWorker(s, step.t);
    } else {
      ConservedByOwner(s, step, cpuCount);
      CountedByOwner(s, step, cpuCount);
      TrackedByOwner(s, step, cpuCount);
    }
  }

  // ----- runs -----

  predicate CanRun(s: State, steps: seq<Step>, cpuCount: nat)
    decreases |steps|
  {
    steps == [] || (Enabled(s, steps[0]) && CanRun(Apply(s, steps[0], cpuCount), steps[1..], cpuCount))
  }

  function Run(s: State, steps: seq<Step>, cpuCount: nat): State
    requires CanRun(s, steps, cpuCount)
    decreases |steps|
  {
    if steps == [] then s else Run(Apply(s, steps[0], cpuCount), steps[1..], cpuCount)
  }

  lemma {:induction false} RunKeepsInv(s: State, steps: seq<Step>, cpuCount: nat)
    requires Inv(s, cpuCount) && CanRun(s, steps, cpuCount)
    ensures Inv(Run(s, steps, cpuCount), cpuCount)
    decreases |steps|
  {
    if steps != [] {
      StepKeepsInv(s, steps[0], cpuCount);
      RunKeepsInv(Apply(s, steps[0], cpuCount), steps[1..], cpuCount);
    }
  }

  /** In every interleaving: no task is lost or run twice, at most `cpuCount` workers are live, and when
      `join` returns every task has run exactly once and no worker is left. */
  lemma EveryRun(steps: seq<Step>, cpuCount: nat)
    requires CanRun(START, steps, cpuCount) && cpuCount < WORD
    ensures var s := Run(START, steps, cpuCount);
            && s.enqueued == multiset(s.tasks) + InHand(s.workers) + OwnerHand(s.owner) + multiset(s.completed)
            && Live(s.workers) <= cpuCount
            && (s.owner == JOINED ==> multiset(s.completed) == s.enqueued && Live(s.workers) == 0)
  {
    assert Inv(START, cpuCount);
    RunKeepsInv(START, steps, cpuCount);
    var s := Run(START, steps, cpuCount);
    if s.owner == JOINED {
      JoinedHasCompleted(s, cpuCount);
    }
  }

  /** Although a cleanup means to drop the handles it has joined, the list never gets shorter. */
  lemma HandlesAreKept(steps: seq<Step>, cpuCount: nat)
    requires CanRun(START, steps, cpuCount) && cpuCount < WORD
    ensures |Run(START, steps, cpuCount).threads| == |Run(START, steps, cpuCount).workers|
  {
    assert Inv(START, cpuCount);
    RunKeepsInv(START, steps, cpuCount);
  }

  // ----- every call returns -----

  /** Some id is free: larger than all that are taken. */
  lemma {:induction false} SomeIdIsFree(ids: seq<ThreadId>) returns (id: ThreadId)
    ensures forall x <- ids :: x < id
    decreases |ids|
  {
    if ids == [] {
      id := 0;
    } else {
      id := SomeIdIsFree(ids[..|ids| - 1]);
      id := if ids[|ids| - 1] >= id then ids[|ids| - 1] + 1 else id;
      assert ids == ids[..|ids| - 1] + [ids[|ids| - 1]];
    }
  }

  /** No deadlock: inside of a call, the owner or some worker can go on. */
  lemma SomeStepIsEnabled(s: State, cpuCount: nat) returns (step: Step)
    requires Inv(s, cpuCount) && s.owner !in {READY, JOINED}
    ensures Enabled(s, step) && GoesOn(step)
  {
    var newId := SomeIdIsFree(s.threadIds);
    step := OwnerStep(newId);
    assert forall t :: 0 <= t < |s.threadIds| ==> s.threadIds[t] in s.threadIds;
    if !Enabled(s, step) {
      step := WorkerStep(s.threads[s.owner.at]);
    }
  }

  function WorkerRank(w: Worker, idle: bool): nat {
    match w
    case RUN(_) => 29
    case CHECK => if idle then 25 else 28
    case POP => if idle then 26 else 27
    case DECREMENT => 24
    case REPORT => 23
    case RETURNING => 1
    case EXITED => 0
  }

  function WorkerRanks(ws: seq<Worker>, idle: bool): nat {
    if ws == [] then 0 else WorkerRanks(ws[..|ws| - 1], idle) + WorkerRank(ws[|ws| - 1], idle)
  }

  function OwnerRank(s: State): int {
    var n := |s.threads|;
    match s.owner
    case READY => 0
    case JOINED => 0
    case CHECK_ACTIVE => n + 60
    case SPAWN => n + 50
    case INCREMENT => n + 6
    case CLEANUP_CHECK => n + 5
    case CLEANUP_EMPTY(_) => n + 4
    case CLEANUP_POP(_) => n + 3
    case CLEANUP_JOIN(_, k) => n - k + 1
    case JOIN_RUN(_) => n + 9
    case JOIN_EMPTY => if s.tasks == [] then n + 5 else n + 8
    case JOIN_POP => if s.tasks == [] then n + 6 else n + 7
    case JOIN_THREADS(k) => n - k + 1
  }

  /** What is left to do before the pool is at rest again. */
  function Measure(s: State): int {
    30 * |s.tasks| + 4 * |s.stopped| + WorkerRanks(s.workers, s.tasks == []) + OwnerRank(s)
  }

  lemma {:induction false} RanksAfterGo(ws: seq<Worker>, t: Tid, next: Worker, idle: bool)
    requires t < |ws|
    ensures WorkerRanks(ws[t := next], idle) + WorkerRank(ws[t], idle) == WorkerRanks(ws, idle) + WorkerRank(next, idle)
    decreases |ws|
  {
    var k := |ws| - 1;
    if t == k {
      assert ws[t := next][..k] == ws[..k];
    } else {
      RanksAfterGo(ws[..k], t, next, idle);
      assert ws[t := next][..k] == ws[..k][t := next];
    }
  }

  lemma {:induction false} RanksWhenIdle(ws: seq<Worker>)
    ensures WorkerRanks(ws, true) <= WorkerRanks(ws, false)
    decreases |ws|
  {
    if ws != [] {
      RanksWhenIdle(ws[..|ws| - 1]);
    }
  }

  /** Every step inside of a call brings the pool closer to rest, whoever takes it. */
  lemma StepDecreases(s: State, step: Step, cpuCount: nat)
    requires Inv(s, cpuCount) && Enabled(s, step) && GoesOn(step)
    ensures Measure(Apply(s, step, cpuCount)) < Measure(s)
  {
    RanksWhenIdle(s.workers);
    if step.WorkerStep? {
      WorkerStepDecreases(s, step.t);
    } else {
      OwnerStepDecreases(s, step.newId, cpuCount);
    }
  }

  lemma WorkerStepDecreases(s: State, t: Tid)
    requires Enabled(s, WorkerStep(t))
    ensures Measure(ApplyWorker(s, t)) < Measure(s)
  {
    var s' := ApplyWorker(s, t);
    RanksAfterGo(s.workers, t, s'.workers[t], s.tasks == []);
    RanksWhenIdle(s'.workers);
    WorkerRankDecreases(s, t);
    assert s'.workers == s.workers[t := s'.workers[t]];
  }

  /** One worker's own share of the measure. */
  lemma WorkerRankDecreases(s: State, t: Tid)
    requires Enabled(s, WorkerStep(t))
    ensures var s' := ApplyWorker(s, t);
            && OwnerRank(s') <= OwnerRank(s) + 30 * (|s.tasks| - |s'.tasks|) && |s'.tasks| <= |s.tasks|
            && 30 * |s'.tasks| + 4 * |s'.stopped| + WorkerRank(s'.workers[t], s.tasks == []) + OwnerRank(s')
               < 30 * |s.tasks| + 4 * |s.stopped| + WorkerRank(s.workers[t], s.tasks == []) + OwnerRank(s)
  {
  }

  lemma OwnerStepDecreases(s: State, newId: ThreadId, cpuCount: nat)
    requires Inv(s, cpuCount) && Enabled(s, OwnerStep(newId))
    ensures Measure(ApplyOwner(s, newId, cpuCount)) < Measure(s)
  {
    var s' := ApplyOwner(s, newId, cpuCount);
    if s.owner == SPAWN {
      SpawnDecreases(s, newId, cpuCount);
    } else if s.owner == JOIN_POP && s.tasks != [] {
      JoinPopDecreases(s, newId, cpuCount);
    } else {
      OwnerRankDecreases(s, newId, cpuCount);
      assert s'.workers == s.workers && s'.tasks == s.tasks;
    }
  }

  lemma SpawnDecreases(s: State, newId: ThreadId, cpuCount: nat)
    requires s.owner == SPAWN && Enabled(s, OwnerStep(newId))
    ensures Measure(ApplyOwner(s, newId, cpuCount)) < Measure(s)
  {
    RanksAfterSpawn(s.workers, s.tasks == []);
    assert |ApplyOwner(s, newId, cpuCount).threads| == |s.threads| + 1;
  }

  lemma JoinPopDecreases(s: State, newId: ThreadId, cpuCount: nat)
    requires s.owner == JOIN_POP && s.tasks != []
    ensures Measure(ApplyOwner(s, newId, cpuCount)) < Measure(s)
  {
    RanksWhenIdle(s.workers);
    assert |ApplyOwner(s, newId, cpuCount).tasks| == |s.tasks| - 1;
  }

  /** The steps of the owner that change neither the workers nor the queue. */
  lemma OwnerRankDecreases(s: State, newId: ThreadId, cpuCount: nat)
    requires Tracked(s) && Progressed(s) && Enabled(s, OwnerStep(newId))
    requires s.owner != SPAWN && (s.owner == JOIN_POP ==> s.tasks == [])
    ensures var s' := ApplyOwner(s, newId, cpuCount);
            4 * |s'.stopped| + OwnerRank(s') < 4 * |s.stopped| + OwnerRank(s)
  {
    match s.owner
    case CLEANUP_JOIN(ids, k) =>
      if k >= |s.threads| {
        NothingToRemove(s);
      }
    case _ =>
  }

  lemma RanksAfterSpawn(ws: seq<Worker>, idle: bool)
    ensures WorkerRanks(ws + [CHECK], idle) == WorkerRanks(ws, idle) + WorkerRank(CHECK, idle)
  {
    assert (ws + [CHECK])[..|ws|] == ws;
  }

  /** A run without new calls is never longer than the measure at its start: with no deadlock, every
      `enque` and every `join` returns under any schedule. */
  lemma {:induction false} CallsReturn(s: State, steps: seq<Step>, cpuCount: nat)
    requires Inv(s, cpuCount) && CanRun(s, steps, cpuCount)
    requires forall step <- steps :: GoesOn(step)
    ensures |steps| <= Measure(s)
    decreases |steps|
  {
    if steps == [] {
      assert OwnerRank(s) >= 0;
    } else {
      StepDecreases(s, steps[0], cpuCount);
      StepKeepsInv(s, steps[0], cpuCount);
      CallsReturn(Apply(s, steps[0], cpuCount), steps[1..], cpuCount);
    }
  }

  /** A `join` that can go no further has returned, with every task done exactly once. */
  lemma {:induction false} JoinReturns(s: State, steps: seq<Step>, cpuCount: nat)
    requires Inv(s, cpuCount) && s.owner == JOIN_EMPTY && CanRun(s, steps, cpuCount)
    requires forall step <- steps :: GoesOn(step)
    requires var end := Run(s, steps, cpuCount); forall step: Step :: GoesOn(step) ==> !Enabled(end, step)
    ensures Run(s, steps, cpuCount).owner == JOINED
    ensures multiset(Run(s, steps, cpuCount).completed) == s.enqueued
  {
    RunKeepsInv(s, steps, cpuCount);
    JoinStaysInside(s, steps, cpuCount);
    var end := Run(s, steps, cpuCount);
    if end.owner != JOINED {
      var step := SomeStepIsEnabled(end, cpuCount);
    }
    JoinedHasCompleted(end, cpuCount);
  }

  lemma JoinedHasCompleted(s: State, cpuCount: nat)
    requires Inv(s, cpuCount) && s.owner == JOINED
    ensures multiset(s.completed) == s.enqueued && Live(s.workers) == 0
  {
    AllExited(s.workers);
    assert multiset(s.tasks) == multiset{};
    assert multiset{} + multiset{} + multiset{} + multiset(s.completed) == multiset(s.completed);
  }

  predicate Joining(o: Owner) {
    o.JOIN_EMPTY? || o.JOIN_POP? || o.JOIN_RUN? || o.JOIN_THREADS? || o.JOINED?
  }

  lemma {:induction false} JoinStaysInside(s: State, steps: seq<Step>, cpuCount: nat)
    requires Joining(s.owner) && CanRun(s, steps, cpuCount)
    requires forall step <- steps :: GoesOn(step)
    ensures Joining(Run(s, steps, cpuCount).owner) && Run(s, steps, cpuCount).enqueued == s.enqueued
    decreases |steps|
  {
    if steps != [] {
      assert steps[0] in steps;
      JoinStaysInside(Apply(s, steps[0], cpuCount), steps[1..], cpuCount);
    }
  }
}
