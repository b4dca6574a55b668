/** Compiling all scenes of a show on the thread pool, which runs every task exactly once, in an order
    nobody controls; each task registers its scene under a lock. */
module SceneCompilation {
  import opened Collections
  import Threadpool

  type Description(==,!new)
  type Scene(==,!new)

  datatype SceneTemplate = SceneTemplate(id: Option<int>, description: Description)

  /** The scenes registered so far and where each scene id is found. */
  datatype SceneTable = SceneTable(scenes: seq<Scene>, sceneIndexMap: map<int, nat>, worked: bool)

  const EMPTY := SceneTable([], map[], true)

  /** The locked part of one task: a scene without an id of its own takes its index. */
  function RunTask(r: SceneTable, t: SceneTemplate, compiled: Option<Scene>): SceneTable {
    match compiled
    case None => r.(worked := false)
    case Some(scene) =>
      var lastIndex := |r.scenes|;
      var sid := if t.id.Some? then t.id.value else lastIndex;
      r.(scenes := r.scenes + [scene], sceneIndexMap := r.sceneIndexMap[sid := lastIndex])
  }

  /** The id a scene is registered under: its own, or else its place among the compiled scenes. */
  function KeyOf(t: SceneTemplate, at: nat): int {
    if t.id.Some? then t.id.value else at
  }

  /** The templates that compile, in the order in which they were finished. */
  function Kept(finished: seq<SceneTemplate>, compile: SceneTemplate -> Option<Scene>): seq<SceneTemplate> {
    if finished == [] then []
    else
      var init := Kept(finished[..|finished| - 1], compile);
      var last := finished[|finished| - 1];
      if compile(last).Some? then init + [last] else init
  }

  /** The scenes are those of the kept templates, and an id finds the last of them with that key. */
  ghost predicate Indexed(r: SceneTable, kept: seq<SceneTemplate>, compile: SceneTemplate -> Option<Scene>) {
    && |r.scenes| == |kept|
    && (forall k :: 0 <= k < |kept| ==> compile(kept[k]) == Some(r.scenes[k]))
    && (forall id :: id in r.sceneIndexMap <==> exists k :: 0 <= k < |kept| && KeyOf(kept[k], k) == id)
    && (forall id <- r.sceneIndexMap :: IsLastWithKey(kept, id, r.sceneIndexMap[id]))
  }

  predicate IsLastWithKey(kept: seq<SceneTemplate>, id: int, at: nat) {
    && at < |kept| && KeyOf(kept[at], at) == id
    && forall k :: at < k < |kept| ==> KeyOf(kept[k], k) != id
  }

  lemma TaskKeepsIndexed(r: SceneTable, kept: seq<SceneTemplate>, t: SceneTemplate,
                         compile: SceneTemplate -> Option<Scene>)
    requires Indexed(r, kept, compile)
    ensures Indexed(RunTask(r, t, compile(t)), if compile(t).Some? then kept + [t] else kept, compile)
  {
    if compile(t).Some? {
      var r', kept', n := RunTask(r, t, compile(t)), kept + [t], |kept|;
      assert KeyOf(kept'[n], n) in r'.sceneIndexMap;
      forall id | id in r'.sceneIndexMap
        ensures exists k :: 0 <= k < |kept'| && KeyOf(kept'[k], k) == id
      {
        if id in r.sceneIndexMap {
          var k :| 0 <= k < |kept| && KeyOf(kept[k], k) == id;
          assert KeyOf(kept'[k], k) == id;
        } else {
          assert KeyOf(kept'[n], n) == id;
        }
      }
      forall k | 0 <= k < |kept'|
        ensures KeyOf(kept'[k], k) in r'.sceneIndexMap
      {
        if k < n {
          assert KeyOf(kept[k], k) in r.sceneIndexMap;
        }
      }
    }
  }

  predicate DistinctKeys(kept: seq<SceneTemplate>) {
    forall i, j :: 0 <= i < j < |kept| ==> KeyOf(kept[i], i) != KeyOf(kept[j], j)
  }

  /** Every compiled scene is found under its key exactly when no two have the same. */
  lemma AllFoundIffDistinctKeys(r: SceneTable, kept: seq<SceneTemplate>, compile: SceneTemplate -> Option<Scene>)
    requires Indexed(r, kept, compile)
    ensures (forall k :: 0 <= k < |kept| ==>
               KeyOf(kept[k], k) in r.sceneIndexMap && r.sceneIndexMap[KeyOf(kept[k], k)] == k) <==>
            DistinctKeys(kept)
  {
    forall k | 0 <= k < |kept|
      ensures KeyOf(kept[k], k) in r.sceneIndexMap
              && IsLastWithKey(kept, KeyOf(kept[k], k), r.sceneIndexMap[KeyOf(kept[k], k)])
    {
    }
  }

  // ----- which templates can collide -----

  predicate InRange(id: int, count: nat) {
    0 <= id < count
  }

  predicate DifferentIds(ts: seq<SceneTemplate>) {
    forall i, j :: 0 <= i < j < |ts| && ts[i].id.Some? ==> ts[i].id != ts[j].id
  }

  /** What can be told from the templates: their ids are different, and when a scene needs an index for an
      id, no other scene has an index for an id. */
  predicate NeverCollide(ts: seq<SceneTemplate>) {
    && DifferentIds(ts)
    && ((forall i :: 0 <= i < |ts| ==> ts[i].id.Some?)
        || forall i :: 0 <= i < |ts| && ts[i].id.Some? ==> !InRange(ts[i].id.value, |ts|))
  }

  lemma OrderKeepsKeysApart(ts: seq<SceneTemplate>, order: seq<SceneTemplate>)
    requires NeverCollide(ts) && multiset(order) == multiset(ts)
    ensures DistinctKeys(order)
  {
    assert |order| == |multiset(order)| == |multiset(ts)| == |ts|;
    forall i, j | 0 <= i < j < |order|
      ensures KeyOf(order[i], i) != KeyOf(order[j], j)
    {
      var k, l := DifferentPlaces(ts, order, i, j);
      if order[i].id.Some? && order[j].id.Some? {
        assert if k < l then ts[k].id != ts[l].id else ts[l].id != ts[k].id;
      } else {
        assert InRange(i, |ts|) && InRange(j, |ts|);
      }
    }
  }

  function Swapped(ts: seq<SceneTemplate>, i: nat, j: nat): (order: seq<SceneTemplate>)
    requires i < |ts| && j < |ts|
    ensures |order| == |ts| && order[i] == ts[j] && order[j] == ts[i]
    ensures forall k :: 0 <= k < |ts| && k != i && k != j ==> order[k] == ts[k]
    ensures multiset(order) == multiset(ts)
  {
    ts[i := ts[j]][j := ts[i]]
  }

  /** A scene without an id can be finished at the index that is the id of another. */
  lemma IndexMeetsId(ts: seq<SceneTemplate>, nameless: nat, named: nat)
    requires nameless < |ts| && named < |ts| && ts[nameless].id.None? && ts[named].id.Some?
    requires InRange(ts[named].id.value, |ts|)
    ensures var order := Swapped(ts, nameless, ts[named].id.value);
            multiset(order) == multiset(ts) && !DistinctKeys(order)
  {
    var at := ts[named].id.value;
    var order := Swapped(ts, nameless, at);
    var other := if named == at then nameless else named;
    assert order[at].id.None? && order[other].id == Some(at) && other != at;
    assert KeyOf(order[at], at) == KeyOf(order[other], other);
    assert at < other || other < at;
  }

  /** No order of finishing lets keys meet exactly when the templates never collide. */
  lemma NeverCollideIff(ts: seq<SceneTemplate>)
    ensures (forall order :: multiset(order) == multiset(ts) ==> DistinctKeys(order)) <==> NeverCollide(ts)
  {
    if NeverCollide(ts) {
      forall order | multiset(order) == multiset(ts)
        ensures DistinctKeys(order)
      {
        OrderKeepsKeysApart(ts, order);
      }
    } else {
      var order := CollidingOrder(ts);
    }
  }

  lemma CollidingOrder(ts: seq<SceneTemplate>) returns (order: seq<SceneTemplate>)
    requires !NeverCollide(ts)
    ensures multiset(order) == multiset(ts) && !DistinctKeys(order)
  {
    if i, j :| 0 <= i < j < |ts| && ts[i].id.Some? && ts[i].id == ts[j].id {
      order := ts;
      assert KeyOf(ts[i], i) == KeyOf(ts[j], j);
    } else {
      var nameless :| 0 <= nameless < |ts| && ts[nameless].id.None?;
      var named :| 0 <= named < |ts| && ts[named].id.Some? && InRange(ts[named].id.value, |ts|);
      IndexMeetsId(ts, nameless, named);
      order := Swapped(ts, nameless, ts[named].id.value);
    }
  }

  // ----- the table a finishing order leaves -----

  /** The locked parts, one task after the other. */
  function TableOf(finished: seq<SceneTemplate>, compile: SceneTemplate -> Option<Scene>): SceneTable {
    if finished == [] then EMPTY
    else
      var last := finished[|finished| - 1];
      RunTask(TableOf(finished[..|finished| - 1], compile), last, compile(last))
  }

  lemma {:induction false} TableIsIndexed(finished: seq<SceneTemplate>, compile: SceneTemplate -> Option<Scene>)
    ensures Indexed(TableOf(finished, compile), Kept(finished, compile), compile)
    ensures TableOf(finished, compile).worked <==> forall t <- finished :: compile(t).Some?
    decreases |finished|
  {
    if finished != [] {
      var n := |finished| - 1;
      assert finished == finished[..n] + [finished[n]];
      TableIsIndexed(finished[..n], compile);
      TaskKeepsIndexed(TableOf(finished[..n], compile), Kept(finished[..n], compile), finished[n], compile);
    }
  }

  /** No scene has been pushed out of the index by another. */
  predicate NothingLost(r: SceneTable) {
    |r.scenes| == |r.sceneIndexMap|
  }

  lemma NothingLostIffDistinctKeys(r: SceneTable, kept: seq<SceneTemplate>, compile: SceneTemplate -> Option<Scene>)
    requires Indexed(r, kept, compile)
    ensures NothingLost(r) <==> DistinctKeys(kept)
  {
    CountKeys(kept);
    forall id
      ensures id in r.sceneIndexMap.Keys <==> id in Keys(kept)
    {
      if id in Keys(kept) {
        var k :| 0 <= k < |kept| && KeyOf(kept[k], k) == id;
      }
    }
    assert r.sceneIndexMap.Keys == Keys(kept);
  }

  function Keys(kept: seq<SceneTemplate>): set<int> {
    set k | 0 <= k < |kept| :: KeyOf(kept[k], k)
  }

  lemma {:induction false} CountKeys(kept: seq<SceneTemplate>)
    ensures |Keys(kept)| <= |kept| && (|Keys(kept)| == |kept| <==> DistinctKeys(kept))
    decreases |kept|
  {
    if kept != [] {
      var n := |kept| - 1;
      var init := kept[..n];
      CountKeys(init);
      LastKey(kept);
      if KeyOf(kept[n], n) in Keys(init) {
        var k :| 0 <= k < n && KeyOf(init[k], k) == KeyOf(kept[n], n);
        assert KeyOf(kept[k], k) == KeyOf(kept[n], n);
      }
    }
  }

  lemma LastKey(kept: seq<SceneTemplate>)
    requires kept != []
    ensures var n := |kept| - 1;
            && Keys(kept) == Keys(kept[..n]) + {KeyOf(kept[n], n)}
            && (DistinctKeys(kept) <==> DistinctKeys(kept[..n]) && KeyOf(kept[n], n) !in Keys(kept[..n]))
  {
    var n := |kept| - 1;
    assert forall k :: 0 <= k < n ==> KeyOf(kept[k], k) == KeyOf(kept[..n][k], k);
  }

  // ----- finishing orders of all templates, and of those that compile -----

  function Failed(finished: seq<SceneTemplate>, compile: SceneTemplate -> Option<Scene>): seq<SceneTemplate> {
    if finished == [] then []
    else
      var init := Failed(finished[..|finished| - 1], compile);
      var last := finished[|finished| - 1];
      if compile(last).Some? then init else init + [last]
  }

  lemma {:induction false} CountKept(finished: seq<SceneTemplate>, compile: SceneTemplate -> Option<Scene>,
                                     t: SceneTemplate)
    ensures multiset(Kept(finished, compile))[t] == if compile(t).Some? then multiset(finished)[t] else 0
    ensures multiset(Failed(finished, compile))[t] == if compile(t).Some? then 0 else multiset(finished)[t]
    decreases |finished|
  {
    if finished != [] {
      var n := |finished| - 1;
      assert finished == finished[..n] + [finished[n]];
      CountKept(finished[..n], compile, t);
    }
  }

  lemma KeptPermutation(xs: seq<SceneTemplate>, ys: seq<SceneTemplate>, compile: SceneTemplate -> Option<Scene>)
    requires multiset(xs) == multiset(ys)
    ensures multiset(Kept(xs, compile)) == multiset(Kept(ys, compile))
  {
    forall t
      ensures multiset(Kept(xs, compile))[t] == multiset(Kept(ys, compile))[t]
    {
      CountKept(xs, compile, t);
      CountKept(ys, compile, t);
    }
  }

  /** Any order of the templates that compile comes from an order of all: the others may be finished last. */
  lemma OrderOfAll(templates: seq<SceneTemplate>, order: seq<SceneTemplate>, compile: SceneTemplate -> Option<Scene>)
    returns (finished: seq<SceneTemplate>)
    requires multiset(order) == multiset(Kept(templates, compile))
    ensures multiset(finished) == multiset(templates) && Kept(finished, compile) == order
  {
    var failed := Failed(templates, compile);
    finished := order + failed;
    forall t
      ensures multiset(finished)[t] == multiset(templates)[t]
      ensures (t in order ==> compile(t).Some?) && (t in failed ==> compile(t).None?)
    {
      CountKept(templates, compile, t);
      assert t in order <==> t in multiset(order);
      assert t in failed <==> t in multiset(failed);
    }
    KeepAll(order, compile);
    KeepNoMore(order, failed, compile);
  }

  lemma {:induction false} KeepAll(order: seq<SceneTemplate>, compile: SceneTemplate -> Option<Scene>)
    requires forall t <- order :: compile(t).Some?
    ensures Kept(order, compile) == order
    decreases |order|
  {
    if order != [] {
      assert order[|order| - 1] in order;
      KeepAll(order[..|order| - 1], compile);
    }
  }

  lemma {:induction false} KeepNoMore(order: seq<SceneTemplate>, failed: seq<SceneTemplate>,
                                      compile: SceneTemplate -> Option<Scene>)
    requires forall t <- failed :: compile(t).None?
    ensures Kept(order + failed, compile) == Kept(order, compile)
    decreases |failed|
  {
    if failed == [] {
      assert order + failed == order;
    } else {
      var n := |failed| - 1;
      assert failed[n] in failed && (order + failed)[..|order| + n] == order + failed[..n];
      KeepNoMore(order, failed[..n], compile);
    }
  }

  /** No order of finishing loses a scene: that can be told from the templates that compile. All orders are
      meant here; the module SceneSchedules says which ones so many processors allow. */
  lemma NothingIsEverLostIff(templates: seq<SceneTemplate>, compile: SceneTemplate -> Option<Scene>)
    ensures (forall finished :: multiset(finished) == multiset(templates) ==> NothingLost(TableOf(finished, compile)))
            <==> NeverCollide(Kept(templates, compile))
  {
    var kept := Kept(templates, compile);
    if NeverCollide(kept) {
      forall finished | multiset(finished) == multiset(templates)
        ensures NothingLost(TableOf(finished, compile))
      {
        KeptPermutation(finished, templates, compile);
        OrderKeepsKeysApart(kept, Kept(finished, compile));
        TableIsIndexed(finished, compile);
        NothingLostIffDistinctKeys(TableOf(finished, compile), Kept(finished, compile), compile);
      }
    } else {
      var order := CollidingOrder(kept);
      var finished := OrderOfAll(templates, order, compile);
      TableIsIndexed(finished, compile);
      NothingLostIffDistinctKeys(TableOf(finished, compile), order, compile);
    }
  }

  /** Two scenes, one without an id and one with id 0: finished in this order, the second takes the place of
      the first, which no id finds any more; the other way round both are found. */
  lemma NamelessSceneIsLost(d: Description, e: Description, compile: SceneTemplate -> Option<Scene>)
    requires compile(SceneTemplate(None, d)).Some? && compile(SceneTemplate(Some(0), e)).Some?
    ensures var t, u := SceneTemplate(None, d), SceneTemplate(Some(0), e);
            && TableOf([t, u], compile).sceneIndexMap == map[0 := 1] && !NothingLost(TableOf([t, u], compile))
            && TableOf([u, t], compile).sceneIndexMap == map[0 := 0, 1 := 1] && NothingLost(TableOf([u, t], compile))
  {
    var t, u := SceneTemplate(None, d), SceneTemplate(Some(0), e);
    assert [t, u][..1] == [t] && [u, t][..1] == [u] && [t][..0] == [] && [u][..0] == [];
    assert TableOf([t], compile) == RunTask(EMPTY, t, compile(t));
    assert TableOf([u], compile) == RunTask(EMPTY, u, compile(u));
  }

  /** Templates that never collide do so neither when some of them fail to compile. */
  lemma KeptNeverCollide(templates: seq<SceneTemplate>, compile: SceneTemplate -> Option<Scene>)
    requires NeverCollide(templates)
    ensures NeverCollide(Kept(templates, compile))
  {
    var kept := Kept(templates, compile);
    KeptFrom(templates, compile);
    KeptAreDifferent(templates, compile);
    forall i | 0 <= i < |kept|
      ensures exists k :: 0 <= k < |templates| && templates[k] == kept[i]
    {
      assert kept[i] in kept && kept[i] in templates;
    }
  }

  lemma {:induction false} KeptAreDifferent(finished: seq<SceneTemplate>, compile: SceneTemplate -> Option<Scene>)
    requires DifferentIds(finished)
    ensures DifferentIds(Kept(finished, compile)) && |Kept(finished, compile)| <= |finished|
    decreases |finished|
  {
    if finished != [] {
      var n := |finished| - 1;
      var init := Kept(finished[..n], compile);
      KeptAreDifferent(finished[..n], compile);
      KeptFrom(finished[..n], compile);
      forall i | 0 <= i < |init| && init[i].id.Some?
        ensures init[i].id != finished[n].id
      {
        assert init[i] in init && init[i] in finished[..n];
        var k :| 0 <= k < n && finished[k] == init[i];
      }
    }
  }

  // ----- scenes with ids -----

  /** Each compiled template that has an id is found under it. */
  predicate OwnScenesFound(r: SceneTable, templates: seq<SceneTemplate>, compile: SceneTemplate -> Option<Scene>) {
    forall t <- templates :: t.id.Some? && compile(t).Some? ==>
      && t.id.value in r.sceneIndexMap && r.sceneIndexMap[t.id.value] < |r.scenes|
      && compile(t) == Some(r.scenes[r.sceneIndexMap[t.id.value]])
  }

  lemma {:induction false} KeptFrom(finished: seq<SceneTemplate>, compile: SceneTemplate -> Option<Scene>)
    ensures forall t :: t in Kept(finished, compile) <==> t in finished && compile(t).Some?
    decreases |finished|
  {
    if finished != [] {
      var n := |finished| - 1;
      assert finished == finished[..n] + [finished[n]];
      KeptFrom(finished[..n], compile);
    }
  }

  /** When keys do not meet, each id finds the scene compiled from the template with that id. */
  lemma DistinctKeysFind(r: SceneTable, templates: seq<SceneTemplate>, finished: seq<SceneTemplate>,
                         compile: SceneTemplate -> Option<Scene>)
    requires multiset(finished) == multiset(templates)
    requires Indexed(r, Kept(finished, compile), compile) && DistinctKeys(Kept(finished, compile))
    ensures OwnScenesFound(r, templates, compile)
  {
    var kept := Kept(finished, compile);
    PermutationHasSameElements(finished, templates);
    KeptFrom(finished, compile);
    AllFoundIffDistinctKeys(r, kept, compile);
    forall t | t in templates && t.id.Some? && compile(t).Some?
      ensures t.id.value in r.sceneIndexMap && r.sceneIndexMap[t.id.value] < |r.scenes|
      ensures compile(t) == Some(r.scenes[r.sceneIndexMap[t.id.value]])
    {
      assert t in kept;
      var k :| 0 <= k < |kept| && kept[k] == t;
      assert KeyOf(kept[k], k) == t.id.value;
    }
  }

  /** With nothing but ids in the show, no other id is known. */
  predicate OnlyOwnIds(r: SceneTable, templates: seq<SceneTemplate>, compile: SceneTemplate -> Option<Scene>) {
    forall id <- r.sceneIndexMap :: exists t <- templates :: t.id == Some(id) && compile(t).Some?
  }

  lemma NoOtherIds(r: SceneTable, templates: seq<SceneTemplate>, finished: seq<SceneTemplate>,
                   compile: SceneTemplate -> Option<Scene>)
    requires multiset(finished) == multiset(templates) && Indexed(r, Kept(finished, compile), compile)
    requires forall t <- templates :: t.id.Some?
    ensures OnlyOwnIds(r, templates, compile)
  {
    var kept := Kept(finished, compile);
    PermutationHasSameElements(finished, templates);
    KeptFrom(finished, compile);
    forall id | id in r.sceneIndexMap
      ensures exists t <- templates :: t.id == Some(id) && compile(t).Some?
    {
      var k :| 0 <= k < |kept| && KeyOf(kept[k], k) == id;
      assert kept[k] in kept;
    }
  }

  // ----- on the pool -----

  /** The tasks of a run, in the order in which they are enqueued. */
  function Enqueued(steps: seq<Threadpool.Step>): seq<Threadpool.Task> {
    if steps == [] then []
    else (if steps[0].Enqueue? then [steps[0].task] else []) + Enqueued(steps[1..])
  }

  lemma StepEnqueues(s: Threadpool.State, step: Threadpool.Step, cpuCount: nat)
    requires Threadpool.Enabled(s, step)
    ensures Threadpool.Apply(s, step, cpuCount).enqueued ==
            s.enqueued + if step.Enqueue? then multiset{step.task} else multiset{}
  {
  }

  lemma EnqueuedFront(steps: seq<Threadpool.Step>)
    requires steps != []
    ensures multiset(Enqueued(steps)) ==
            (if steps[0].Enqueue? then multiset{steps[0].task} else multiset{}) + multiset(Enqueued(steps[1..]))
  {
  }

  lemma {:induction false} RunEnqueues(s: Threadpool.State, steps: seq<Threadpool.Step>, cpuCount: nat)
    requires Threadpool.CanRun(s, steps, cpuCount)
    ensures Threadpool.Run(s, steps, cpuCount).enqueued == s.enqueued + multiset(Enqueued(steps))
    decreases |steps|
  {
    if steps != [] {
      RunEnqueues(Threadpool.Apply(s, steps[0], cpuCount), steps[1..], cpuCount);
      StepEnqueues(s, steps[0], cpuCount);
      EnqueuedFront(steps);
    }
  }

  /** A run of the pool that enqueues one task for each template and then joins. */
  predicate CompilesAll(steps: seq<Threadpool.Step>, cpuCount: nat, count: nat) {
    && cpuCount < Threadpool.WORD && Threadpool.CanRun(Threadpool.START, steps, cpuCount)
    && Threadpool.Run(Threadpool.START, steps, cpuCount).owner == Threadpool.JOINED
    && Enqueued(steps) == Numbers(count)
  }

  function Numbers(n: nat): (ns: seq<nat>)
    ensures |ns| == n && forall k :: 0 <= k < n ==> ns[k] == k
  {
    seq(n, k => k)
  }

  predicate AreNumbers(ns: seq<nat>, count: nat) {
    forall i :: 0 <= i < |ns| ==> ns[i] < count
  }

  /** The templates in the order in which the pool has completed their tasks. */
  function Finished(templates: seq<SceneTemplate>, completed: seq<nat>): (finished: seq<SceneTemplate>)
    requires AreNumbers(completed, |templates|)
    ensures |finished| == |completed| && forall i :: 0 <= i < |completed| ==> finished[i] == templates[completed[i]]
  {
    seq(|completed|, i requires 0 <= i < |completed| => templates[completed[i]])
  }

  /** When `join` has returned, the completed tasks are the numbers of all templates, each once. */
  lemma PoolCompletes(steps: seq<Threadpool.Step>, cpuCount: nat, count: nat)
    requires CompilesAll(steps, cpuCount, count)
    ensures var completed := Threadpool.Run(Threadpool.START, steps, cpuCount).completed;
            multiset(completed) == multiset(Numbers(count)) && AreNumbers(completed, count)
  {
    var completed := Threadpool.Run(Threadpool.START, steps, cpuCount).completed;
    Threadpool.EveryRun(steps, cpuCount);
    RunEnqueues(Threadpool.START, steps, cpuCount);
    assert multiset{} + multiset(Numbers(count)) == multiset(Numbers(count));
    PermutationHasSameElements(completed, Numbers(count));
    assert forall i :: 0 <= i < |completed| ==> completed[i] in completed;
  }

  lemma FinishedIsPermutation(templates: seq<SceneTemplate>, completed: seq<nat>)
    requires multiset(completed) == multiset(Numbers(|templates|)) && AreNumbers(completed, |templates|)
    ensures multiset(Finished(templates, completed)) == multiset(templates)
  {
    if templates == [] {
      assert |multiset(completed)| == 0;
    } else {
      var f := (k: nat) => if k < |templates| then templates[k] else templates[0];
      MapSeqPermutation(f, completed, Numbers(|templates|));
      MapSeqAt(f, completed);
      MapSeqAt(f, Numbers(|templates|));
      assert MapSeq(f, completed) == Finished(templates, completed);
      assert MapSeq(f, Numbers(|templates|)) == templates;
    }
  }

  /** The tasks of all templates, as the pool runs them. Whatever the schedule, the table is that of some
      order of finishing, and the flag tells whether all templates compiled. If the templates that compile
      never collide, no scene is lost and each id finds the scene compiled from the template with that id. */
  method PopulateSceneVector(templates: seq<SceneTemplate>, compile: SceneTemplate -> Option<Scene>,
                             steps: seq<Threadpool.Step>, cpuCount: nat) returns (r: SceneTable)
    requires CompilesAll(steps, cpuCount, |templates|)
    ensures r.worked <==> templates != [] && forall t <- templates :: compile(t).Some?
    ensures exists finished :: multiset(finished) == multiset(templates)
                               && r == TableOf(finished, compile).(worked := r.worked)
                               && Indexed(r, Kept(finished, compile), compile)
    ensures NeverCollide(Kept(templates, compile)) ==> NothingLost(r) && OwnScenesFound(r, templates, compile)
    ensures (forall t <- templates :: t.id.Some?) ==> OnlyOwnIds(r, templates, compile)
  {
    var order := Threadpool.Run(Threadpool.START, steps, cpuCount).completed;
    PoolCompletes(steps, cpuCount, |templates|);
    FinishedIsPermutation(templates, order);
    ghost var finished := Finished(templates, order);
    r := RunTasks(Finished(templates, order), compile);
    PermutationHasSameElements(finished, templates);
    TableIsIndexed(finished, compile);
    if templates == [] {
      assert |multiset(finished)| == 0;
      r := r.(worked := false);
    }
    AllIsFound(r, templates, finished, compile);
  }

  lemma AllIsFound(r: SceneTable, templates: seq<SceneTemplate>, finished: seq<SceneTemplate>,
                   compile: SceneTemplate -> Option<Scene>)
    requires multiset(finished) == multiset(templates) && Indexed(r, Kept(finished, compile), compile)
    ensures NeverCollide(Kept(templates, compile)) ==> NothingLost(r) && OwnScenesFound(r, templates, compile)
    ensures (forall t <- templates :: t.id.Some?) ==> OnlyOwnIds(r, templates, compile)
  {
    if NeverCollide(Kept(templates, compile)) {
      KeptPermutation(finished, templates, compile);
      OrderKeepsKeysApart(Kept(templates, compile), Kept(finished, compile));
      NothingLostIffDistinctKeys(r, Kept(finished, compile), compile);
      DistinctKeysFind(r, templates, finished, compile);
    }
    if forall t <- templates :: t.id.Some? {
      NoOtherIds(r, templates, finished, compile);
    }
  }

  /** The locked parts, one task after the other. */
  method RunTasks(finished: seq<SceneTemplate>, compile: SceneTemplate -> Option<Scene>) returns (r: SceneTable)
    ensures r == TableOf(finished, compile)
  {
    r := EMPTY;
    for i := 0 to |finished|
      invariant r == TableOf(finished[..i], compile)
    {
      assert finished[..i + 1][..i] == finished[..i];
      r := RunTask(r, finished[i], compile(finished[i]));
    }
    assert finished[..|finished|] == finished;
  }
}
