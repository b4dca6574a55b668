/** Which numbers of processors keep the scenes of a show from pushing each other out of the index. */
module SceneSchedules {
  import opened Collections
  import opened FinishingOrders
  import opened SceneCompilation
  import opened Threadpool

  lemma FeasibleAreNumbers(order: seq<Task>, n: nat, cpuCount: nat)
    requires Feasible(order, n, cpuCount)
    ensures |order| == n && AreNumbers(order, n)
  {
    assert |order| == |multiset(order)| == |multiset(Numbers(n))|;
    forall i | 0 <= i < |order|
      ensures order[i] < n
    {
      assert order[i] in multiset(order);
      NumbersOnce(n, order[i]);
    }
  }

  /** The scene table after the tasks have been finished in an order. */
  ghost function TableInOrder(templates: seq<SceneTemplate>, compile: SceneTemplate -> Option<Scene>,
                              order: seq<Task>, cpuCount: nat): SceneTable
    requires Feasible(order, |templates|, cpuCount)
  {
    FeasibleAreNumbers(order, |templates|, cpuCount);
    TableOf(SceneCompilation.Finished(templates, order), compile)
  }

  /** No run of the pool lets a scene push another one out of the index. */
  ghost predicate NoRunLoses(templates: seq<SceneTemplate>, compile: SceneTemplate -> Option<Scene>, cpuCount: nat) {
    forall steps :: CompilesAll(steps, cpuCount, |templates|) ==>
      var order := Run(START, steps, cpuCount).completed;
      Feasible(order, |templates|, cpuCount) && NothingLost(TableInOrder(templates, compile, order, cpuCount))
  }

  lemma NoRunLosesIff(templates: seq<SceneTemplate>, compile: SceneTemplate -> Option<Scene>, cpuCount: nat)
    requires cpuCount < WORD
    ensures NoRunLoses(templates, compile, cpuCount) <==>
            forall order :: Feasible(order, |templates|, cpuCount) ==>
              NothingLost(TableInOrder(templates, compile, order, cpuCount))
  {
    forall order | Feasible(order, |templates|, cpuCount)
      ensures exists steps :: FinishesIn(steps, order, |templates|, cpuCount)
    {
      FinishesInIff(order, |templates|, cpuCount);
    }
    forall steps | CompilesAll(steps, cpuCount, |templates|)
      ensures Feasible(Run(START, steps, cpuCount).completed, |templates|, cpuCount)
    {
      OnlyFeasible(steps, cpuCount, |templates|);
    }
    if NoRunLoses(templates, compile, cpuCount) {
      forall order | Feasible(order, |templates|, cpuCount)
        ensures NothingLost(TableInOrder(templates, compile, order, cpuCount))
      {
        var steps :| FinishesIn(steps, order, |templates|, cpuCount);
      }
    }
  }

  lemma SameWithout<T>(a: multiset<T>, b: multiset<T>, x: T)
    requires a + multiset{x} == b + multiset{x}
    ensures a == b
  {
    assert a == a + multiset{x} - multiset{x};
    assert b == b + multiset{x} - multiset{x};
  }

  /** The last template is finished at place `p`, the others as before. */
  lemma PutLast(finished: seq<SceneTemplate>, templates: seq<SceneTemplate>, others: seq<Task>, p: nat)
    requires templates != [] && p < |finished| && finished[p] == templates[|templates| - 1]
    requires AreNumbers(others, |templates| - 1)
    requires SceneCompilation.Finished(templates[..|templates| - 1], others) == finished[..p] + finished[p + 1..]
    ensures |others| == |finished| - 1
    ensures var order := others[..p] + [|templates| - 1] + others[p..];
            AreNumbers(order, |templates|) && SceneCompilation.Finished(templates, order) == finished
  {
    var rest, order := finished[..p] + finished[p + 1..], others[..p] + [|templates| - 1] + others[p..];
    forall i | 0 <= i < |finished|
      ensures order[i] < |templates| && templates[order[i]] == finished[i]
    {
      if i != p {
        var k := if i < p then i else i - 1;
        assert order[i] == others[k] && templates[others[k]] == rest[k];
      }
    }
  }

  lemma CountWithLast(others: seq<Task>, p: nat, n: nat)
    requires p <= |others| && multiset(others) == multiset(Numbers(n))
    ensures multiset(others[..p] + [n] + others[p..]) == multiset(Numbers(n + 1))
  {
    assert others == others[..p] + others[p..];
    OneMoreNumber(n);
  }

  lemma WithoutLast(finished: seq<SceneTemplate>, templates: seq<SceneTemplate>) returns (p: nat)
    requires multiset(finished) == multiset(templates) && templates != []
    ensures p < |finished| && finished[p] == templates[|templates| - 1]
    ensures multiset(finished[..p] + finished[p + 1..]) == multiset(templates[..|templates| - 1])
  {
    var x, front := templates[|templates| - 1], templates[..|templates| - 1];
    assert templates == front + [x];
    assert x in multiset(finished);
    p :| 0 <= p < |finished| && finished[p] == x;
    RemoveOne(finished, p);
    assert multiset(finished) == multiset(finished[..p] + finished[p + 1..]) + multiset{x};
    SameWithout(multiset(finished[..p] + finished[p + 1..]), multiset(front), x);
  }

  /** The numbers of the templates, in an order that finishes them so. */
  ghost predicate AreNumbersOf(order: seq<Task>, finished: seq<SceneTemplate>, templates: seq<SceneTemplate>) {
    && multiset(order) == multiset(Numbers(|templates|)) && AreNumbers(order, |templates|)
    && SceneCompilation.Finished(templates, order) == finished
  }

  lemma NumbersWithLast(finished: seq<SceneTemplate>, templates: seq<SceneTemplate>, others: seq<Task>, p: nat)
    requires templates != [] && p < |finished| && finished[p] == templates[|templates| - 1]
    requires AreNumbersOf(others, finished[..p] + finished[p + 1..], templates[..|templates| - 1])
    ensures p <= |others| && AreNumbersOf(others[..p] + [|templates| - 1] + others[p..], finished, templates)
  {
    PutLast(finished, templates, others, p);
    CountWithLast(others, p, |templates| - 1);
  }

  /** Any order of the templates is an order of their numbers. */
  lemma {:induction false} NumbersInOrder(finished: seq<SceneTemplate>, templates: seq<SceneTemplate>)
    returns (order: seq<Task>)
    requires multiset(finished) == multiset(templates)
    ensures AreNumbersOf(order, finished, templates)
    decreases |templates|
  {
    if templates == [] {
      assert |finished| == |multiset(finished)|;
      order := [];
    } else {
      var p := WithoutLast(finished, templates);
      var others := NumbersInOrder(finished[..p] + finished[p + 1..], templates[..|templates| - 1]);
      NumbersWithLast(finished, templates, others, p);
      order := others[..p] + [|templates| - 1] + others[p..];
    }
  }

  lemma PermutationLosesNothing(templates: seq<SceneTemplate>, compile: SceneTemplate -> Option<Scene>,
                                finished: seq<SceneTemplate>)
    requires multiset(finished) == multiset(templates) && NeverCollide(Kept(templates, compile))
    ensures NothingLost(TableOf(finished, compile))
  {
    NothingIsEverLostIff(templates, compile);
  }

  lemma OrderLosesNothing(templates: seq<SceneTemplate>, compile: SceneTemplate -> Option<Scene>, order: seq<Task>,
                          cpuCount: nat)
    requires Feasible(order, |templates|, cpuCount) && NeverCollide(Kept(templates, compile))
    ensures NothingLost(TableInOrder(templates, compile, order, cpuCount))
  {
    FeasibleAreNumbers(order, |templates|, cpuCount);
    FinishedIsPermutation(templates, order);
    PermutationLosesNothing(templates, compile, SceneCompilation.Finished(templates, order));
  }

  lemma SomeOrderLoses(templates: seq<SceneTemplate>, compile: SceneTemplate -> Option<Scene>, cpuCount: nat)
    returns (order: seq<Task>)
    requires !NeverCollide(Kept(templates, compile)) && |templates| - 1 <= cpuCount
    ensures Feasible(order, |templates|, cpuCount) && !NothingLost(TableInOrder(templates, compile, order, cpuCount))
  {
    NothingIsEverLostIff(templates, compile);
    var finished :| multiset(finished) == multiset(templates) && !NothingLost(TableOf(finished, compile));
    order := NumbersInOrder(finished, templates);
    forall m | 0 <= m < |order|
      ensures order[m] <= m + cpuCount
    {
      assert order[m] < |templates|;
    }
  }

  /** With a processor for all scenes but one, the pool finishes them in any order, so no run loses a scene
      exactly when the templates that compile never collide. */
  lemma ManyProcessorsLoseIff(templates: seq<SceneTemplate>, compile: SceneTemplate -> Option<Scene>, cpuCount: nat)
    requires |templates| - 1 <= cpuCount < WORD
    ensures NoRunLoses(templates, compile, cpuCount) <==> NeverCollide(Kept(templates, compile))
  {
    NoRunLosesIff(templates, compile, cpuCount);
    if NeverCollide(Kept(templates, compile)) {
      forall order | Feasible(order, |templates|, cpuCount)
        ensures NothingLost(TableInOrder(templates, compile, order, cpuCount))
      {
        OrderLosesNothing(templates, compile, order, cpuCount);
      }
    } else {
      var order := SomeOrderLoses(templates, compile, cpuCount);
    }
  }

  /** The last task cannot be finished before the last place. */
  lemma LastIsLast(order: seq<Task>, n: nat)
    requires Feasible(order, n + 1, 0)
    ensures |order| == n + 1 && order[n] == n
  {
    FeasibleAreNumbers(order, n + 1, 0);
    NumbersOnce(n + 1, n);
    assert n in multiset(order);
    var p :| 0 <= p < |order| && order[p] == n;
  }

  lemma OthersAreFeasible(order: seq<Task>, n: nat)
    requires Feasible(order, n + 1, 0) && |order| == n + 1 && order[n] == n
    ensures Feasible(order[..n], n, 0)
  {
    assert order == order[..n] + [n];
    OneMoreNumber(n);
    SameWithout(multiset(order[..n]), multiset(Numbers(n)), n);
  }

  lemma {:induction false} OnlyInLine(order: seq<Task>, n: nat)
    requires Feasible(order, n, 0)
    ensures order == Numbers(n)
    decreases n
  {
    FeasibleAreNumbers(order, n, 0);
    if n > 0 {
      LastIsLast(order, n - 1);
      OthersAreFeasible(order, n - 1);
      OnlyInLine(order[..n - 1], n - 1);
      OneMoreNumber(n - 1);
      assert order == order[..n - 1] + [n - 1];
    }
  }

  /** Without processors the scenes are finished in the order of their templates, so it is that order alone
      that decides. */
  lemma NoProcessorsLoseIff(templates: seq<SceneTemplate>, compile: SceneTemplate -> Option<Scene>)
    ensures NoRunLoses(templates, compile, 0) <==> DistinctKeys(Kept(templates, compile))
  {
    var inLine := Numbers(|templates|);
    NoRunLosesIff(templates, compile, 0);
    forall order | Feasible(order, |templates|, 0)
      ensures order == inLine
    {
      OnlyInLine(order, |templates|);
    }
    assert Feasible(inLine, |templates|, 0);
    FeasibleAreNumbers(inLine, |templates|, 0);
    assert SceneCompilation.Finished(templates, inLine) == templates;
    TableIsIndexed(templates, compile);
    NothingLostIffDistinctKeys(TableOf(templates, compile), Kept(templates, compile), compile);
  }
}
