/** The worklist scheduler of the scene factory: orders the filters of a scene so that every filter
    comes after the filters it reads from. */
module Scheduling {

  datatype Link = Link(outputChannelId: string, inputChannelId: string)

  datatype FilterTemplate = FilterTemplate(id: string, filterType: nat, links: seq<Link>)

  /** The part of a channel id in front of the first colon, or all of it when there is none. */
  function FilterIdOf(channelId: string): (id: string)
    ensures ':' !in id
    ensures id <= channelId && (id == channelId || channelId[|id|] == ':')
  {
    if channelId == [] || channelId[0] == ':' then [] else [channelId[0]] + FilterIdOf(channelId[1..])
  }

  function Ids(fs: seq<FilterTemplate>): set<string> {
    set f <- fs :: f.id
  }

  /** Every filter this one reads from has an id among the resolved ones. */
  predicate AllDepsClear(f: FilterTemplate, resolved: set<string>) {
    forall link <- f.links :: FilterIdOf(link.outputChannelId) in resolved
  }

  /** A dependency-respecting order: every dependency id occurs at a smaller index. */
  predicate Ordered(fs: seq<FilterTemplate>) {
    forall i :: 0 <= i < |fs| ==> AllDepsClear(fs[i], Ids(fs[..i]))
  }

  ghost predicate IsOrderOf(order: seq<FilterTemplate>, templates: seq<FilterTemplate>) {
    multiset(order) == multiset(templates) && Ordered(order)
  }

  predicate Increasing(b: seq<nat>, total: nat) {
    && (forall i, j :: 0 <= i < j < |b| ==> b[i] < b[j])
    && (if b == [] then total == 0 else b[0] > 0 && b[|b| - 1] == total)
  }

  datatype Schedule =
    | Scheduled(filters: seq<FilterTemplate>, boundaries: seq<nat>, index: map<string, nat>)
    | CyclicOrBroken(scheduled: seq<FilterTemplate>, missing: seq<FilterTemplate>)

  /** The filter index of a scene finds, for every id, the last filter that has it. */
  predicate IndexFits(index: map<string, nat>, fs: seq<FilterTemplate>) {
    && index.Keys == Ids(fs)
    && forall id <- index ::
         && index[id] < |fs| && fs[index[id]].id == id
         && forall j :: index[id] < j < |fs| ==> fs[j].id != id
  }

  lemma IdsAppend(fs: seq<FilterTemplate>, f: FilterTemplate)
    ensures Ids(fs + [f]) == Ids(fs) + {f.id}
  {
    assert forall x :: x in fs + [f] <==> x in fs || x == f;
    assert f in fs + [f];
  }

  lemma OrderedAppend(fs: seq<FilterTemplate>, f: FilterTemplate)
    requires Ordered(fs) && AllDepsClear(f, Ids(fs))
    ensures Ordered(fs + [f])
  {
    forall i | 0 <= i < |fs| + 1
      ensures AllDepsClear((fs + [f])[i], Ids((fs + [f])[..i]))
    {
      assert (fs + [f])[..i] == fs[..i];
      if i == |fs| {
        assert fs[..i] == fs;
      }
    }
  }

  /** Every filter that is in hand has a dependency outside the resolved ids. */
  predicate AllBlocked(missing: seq<FilterTemplate>, resolved: set<string>) {
    forall f <- missing :: !AllDepsClear(f, resolved)
  }

  lemma MoreResolved(f: FilterTemplate, some: set<string>, more: set<string>)
    requires AllDepsClear(f, some) && some <= more
    ensures AllDepsClear(f, more)
  {
  }

  /** Following any order of all filters, either everything met so far is scheduled already, or some
      missing filter has all it needs. */
  lemma {:induction false} PrefixScheduled(order: seq<FilterTemplate>, done: seq<FilterTemplate>,
                                           missing: seq<FilterTemplate>, k: nat)
    requires Ordered(order) && multiset(order) == multiset(done) + multiset(missing)
    requires k <= |order|
    ensures (forall f <- order[..k] :: f in done) || exists f <- missing :: AllDepsClear(f, Ids(done))
    decreases k
  {
    if k > 0 {
      PrefixScheduled(order, done, missing, k - 1);
      var f := order[k - 1];
      assert f in multiset(order) && order[..k] == order[..k - 1] + [f];
      if forall g <- order[..k - 1] :: g in done {
        assert Ids(order[..k - 1]) <= Ids(done);
        MoreResolved(f, Ids(order[..k - 1]), Ids(done));
      }
    }
  }

  /** As long as an order of all filters exists, some missing filter can be placed next. */
  lemma SomeMissingIsClear(order: seq<FilterTemplate>, done: seq<FilterTemplate>, missing: seq<FilterTemplate>)
    requires Ordered(order) && multiset(order) == multiset(done) + multiset(missing) && missing != []
    ensures exists f <- missing :: AllDepsClear(f, Ids(done))
  {
    PrefixScheduled(order, done, missing, |order|);
    assert order[..|order|] == order;
    if forall f <- order :: f in done {
      assert missing[0] in multiset(order);
      var i :| 0 <= i < |order| && order[i] == missing[0];
      assert Ids(order[..i]) <= Ids(done);
      MoreResolved(order[i], Ids(order[..i]), Ids(done));
    }
  }

  /** When all missing filters are blocked, no order exists. */
  lemma BlockedMeansNoOrder(templates: seq<FilterTemplate>, done: seq<FilterTemplate>, missing: seq<FilterTemplate>)
    requires multiset(templates) == multiset(done) + multiset(missing)
    requires missing != [] && AllBlocked(missing, Ids(done))
    ensures !exists order :: IsOrderOf(order, templates)
  {
    forall order | IsOrderOf(order, templates)
      ensures false
    {
      SomeMissingIsClear(order, done, missing);
    }
  }

  /** What the scheduler works on: the worklist, the filters placed so far, their index and their ids. */
  datatype Work = Work(missing: seq<FilterTemplate>, fv: seq<FilterTemplate>,
                       index: map<string, nat>, resolved: set<string>) {
    ghost predicate Valid() {
      Ordered(fv) && IndexFits(index, fv) && resolved == Ids(fv)
    }

    ghost function All(): multiset<FilterTemplate> {
      multiset(fv) + multiset(missing)
    }

    function Place(): Work
      requires missing != []
    {
      var f := missing[0];
      Work(missing[1..], fv + [f], index[f.id := |fv|], resolved + {f.id})
    }

    function Rotate(): Work
      requires missing != []
    {
      this.(missing := missing[1..] + [missing[0]])
    }
  }

  lemma IndexAppend(index: map<string, nat>, fs: seq<FilterTemplate>, f: FilterTemplate)
    requires IndexFits(index, fs)
    ensures IndexFits(index[f.id := |fs|], fs + [f])
  {
    IdsAppend(fs, f);
    var index' := index[f.id := |fs|];
    forall id | id in index'
      ensures index'[id] <= |fs| && (fs + [f])[index'[id]].id == id
      ensures forall j :: index'[id] < j <= |fs| ==> (fs + [f])[j].id != id
    {
    }
  }

  lemma PlaceKeeps(w: Work)
    requires w.Valid() && w.missing != [] && AllDepsClear(w.missing[0], w.resolved)
    ensures w.Place().Valid() && w.Place().All() == w.All()
  {
    var f := w.missing[0];
    IdsAppend(w.fv, f);
    IndexAppend(w.index, w.fv, f);
    OrderedAppend(w.fv, f);
    FrontPlaced(w.fv, w.missing);
  }

  lemma FrontPlaced(fv: seq<FilterTemplate>, missing: seq<FilterTemplate>)
    requires missing != []
    ensures multiset(fv + [missing[0]]) + multiset(missing[1..]) == multiset(fv) + multiset(missing)
  {
    assert missing == [missing[0]] + missing[1..];
  }

  lemma RotateKeeps(w: Work, i: nat)
    requires w.Valid() && i < |w.missing|
    ensures w.Rotate().Valid() && w.Rotate().All() == w.All()
    ensures AllBlocked(w.missing[|w.missing| - i..], w.resolved) && !AllDepsClear(w.missing[0], w.resolved) ==>
              AllBlocked(w.Rotate().missing[|w.missing| - i - 1..], w.resolved)
  {
    assert w.missing == [w.missing[0]] + w.missing[1..];
    assert w.Rotate().missing[|w.missing| - i - 1..] == w.missing[|w.missing| - i..] + [w.missing[0]];
  }

  // ----- what a round does -----

  /** The filters that were taken, or those that were not. */
  function Those(visited: seq<FilterTemplate>, taken: seq<bool>, which: bool): seq<FilterTemplate>
    requires |visited| == |taken|
  {
    if visited == [] then []
    else
      var k := |visited| - 1;
      Those(visited[..k], taken[..k], which) + if taken[k] == which then [visited[k]] else []
  }

  /** Each filter was taken exactly if all it needs had been resolved before its turn. */
  ghost predicate TakesClear(visited: seq<FilterTemplate>, taken: seq<bool>, resolved: set<string>)
    requires |visited| == |taken|
  {
    forall k :: 0 <= k < |visited| ==>
      (taken[k] <==> AllDepsClear(visited[k], resolved + Ids(Those(visited[..k], taken[..k], true))))
  }

  /** The filters visited in one go from the front of the worklist: those taken are placed, the others go
      to its end, both in their order. */
  ghost predicate Visits(before: Work, after: Work, taken: seq<bool>) {
    && |taken| <= |before.missing|
    && var visited := before.missing[..|taken|];
    && TakesClear(visited, taken, before.resolved)
    && after.fv == before.fv + Those(visited, taken, true)
    && after.missing == before.missing[|taken|..] + Those(visited, taken, false)
  }

  /** Before each visit, more filters were left than had been visited. */
  ghost predicate GoesOn(line: seq<FilterTemplate>, taken: seq<bool>) {
    |taken| <= |line| && forall k :: 0 <= k < |taken| ==> k < |line| - |Those(line[..k], taken[..k], true)|
  }

  /** A round ends as soon as no more filters are left than were visited. */
  ghost predicate IsRound(before: Work, after: Work, taken: seq<bool>) {
    Visits(before, after, taken) && GoesOn(before.missing, taken) && |taken| >= |after.missing|
  }

  ghost predicate RoundLeads(before: Work, after: Work) {
    exists taken :: IsRound(before, after, taken)
  }

  /** The rounds so far. */
  datatype Rounds = NoRound | Then(earlier: Rounds, after: Work)

  function AfterRounds(templates: seq<FilterTemplate>, rounds: Rounds): Work {
    if rounds.NoRound? then Work(templates, [], map[], {}) else rounds.after
  }

  /** Every round goes on where the one before has ended. */
  ghost predicate AreRounds(templates: seq<FilterTemplate>, rounds: Rounds) {
    rounds.Then? ==>
      && AreRounds(templates, rounds.earlier)
      && RoundLeads(AfterRounds(templates, rounds.earlier), rounds.after)
  }

  /** How many filters are placed after each round. */
  function BoundariesOf(rounds: Rounds): seq<nat> {
    if rounds.NoRound? then [] else BoundariesOf(rounds.earlier) + [|rounds.after.fv|]
  }

  lemma GoesOnOnce(line: seq<FilterTemplate>, taken: seq<bool>, take: bool)
    requires GoesOn(line, taken) && |taken| < |line| - |Those(line[..|taken|], taken, true)|
    ensures GoesOn(line, taken + [take])
  {
    var t := taken + [take];
    forall k | 0 <= k < |t|
      ensures k < |line| - |Those(line[..k], t[..k], true)|
    {
      assert t[..k] == taken[..k];
      if k == |taken| {
        assert taken[..k] == taken;
      }
    }
  }

  lemma TakeOne(visited: seq<FilterTemplate>, taken: seq<bool>, f: FilterTemplate, take: bool, resolved: set<string>)
    requires |visited| == |taken| && TakesClear(visited, taken, resolved)
    requires take <==> AllDepsClear(f, resolved + Ids(Those(visited, taken, true)))
    ensures TakesClear(visited + [f], taken + [take], resolved)
    ensures Those(visited + [f], taken + [take], take) == Those(visited, taken, take) + [f]
    ensures Those(visited + [f], taken + [take], !take) == Those(visited, taken, !take)
  {
    var v, t := visited + [f], taken + [take];
    assert v[..|visited|] == visited && t[..|visited|] == taken;
    forall k | 0 <= k < |v|
      ensures t[k] <==> AllDepsClear(v[k], resolved + Ids(Those(v[..k], t[..k], true)))
    {
      if k < |visited| {
        assert v[..k] == visited[..k] && t[..k] == taken[..k];
      }
    }
  }

  lemma {:induction false} ThoseCount(visited: seq<FilterTemplate>, taken: seq<bool>)
    requires |visited| == |taken|
    ensures |Those(visited, taken, true)| + |Those(visited, taken, false)| == |visited|
    decreases |visited|
  {
    if visited != [] {
      ThoseCount(visited[..|visited| - 1], taken[..|visited| - 1]);
    }
  }

  lemma IdsConcat(fs: seq<FilterTemplate>, gs: seq<FilterTemplate>)
    ensures Ids(fs + gs) == Ids(fs) + Ids(gs)
  {
    assert forall x :: x in fs + gs <==> x in fs || x in gs;
  }

  /** Who comes to the front next. */
  lemma NextInLine(line: seq<FilterTemplate>, v: nat, left: seq<FilterTemplate>, missing: seq<FilterTemplate>)
    requires |left| <= v <= |line| && missing == line[v..] + left && v < |missing|
    ensures v < |line| && missing[0] == line[v] && line[..v + 1] == line[..v] + [missing[0]]
    ensures missing[1..] == line[v + 1..] + left
    ensures missing[1..] + [missing[0]] == line[v + 1..] + (left + [missing[0]])
  {
  }

  lemma VisitsAre(before: Work, after: Work, visited: seq<FilterTemplate>, taken: seq<bool>)
    requires |visited| == |taken| <= |before.missing| && visited == before.missing[..|taken|]
    requires TakesClear(visited, taken, before.resolved)
    requires after.fv == before.fv + Those(visited, taken, true)
    requires after.missing == before.missing[|taken|..] + Those(visited, taken, false)
    ensures Visits(before, after, taken)
  {
  }

  lemma VisitTaken(before: Work, w: Work, taken: seq<bool>)
    requires Visits(before, w, taken)
    requires before.resolved + Ids(Those(before.missing[..|taken|], taken, true)) == w.resolved
    requires |Those(before.missing[..|taken|], taken, false)| <= |taken| < |w.missing|
    requires AllDepsClear(w.missing[0], w.resolved)
    ensures Visits(before, w.Place(), taken + [true])
  {
    var visited, f := before.missing[..|taken|], w.missing[0];
    NextInLine(before.missing, |taken|, Those(visited, taken, false), w.missing);
    TakeOne(visited, taken, f, true, before.resolved);
    Associate(before.fv, Those(visited, taken, true), [f]);
    VisitsAre(before, w.Place(), visited + [f], taken + [true]);
  }

  lemma VisitPassed(before: Work, w: Work, taken: seq<bool>)
    requires Visits(before, w, taken)
    requires before.resolved + Ids(Those(before.missing[..|taken|], taken, true)) == w.resolved
    requires |Those(before.missing[..|taken|], taken, false)| <= |taken| < |w.missing|
    requires !AllDepsClear(w.missing[0], w.resolved)
    ensures Visits(before, w.Rotate(), taken + [false])
  {
    var visited, f := before.missing[..|taken|], w.missing[0];
    NextInLine(before.missing, |taken|, Those(visited, taken, false), w.missing);
    TakeOne(visited, taken, f, false, before.resolved);
    VisitsAre(before, w.Rotate(), visited + [f], taken + [false]);
  }

  /** One visit. */
  lemma VisitOne(before: Work, w: Work, taken: seq<bool>)
    requires before.resolved == Ids(before.fv) && w.resolved == Ids(w.fv)
    requires Visits(before, w, taken) && GoesOn(before.missing, taken) && |taken| < |w.missing|
    ensures var clear := AllDepsClear(w.missing[0], w.resolved);
            && Visits(before, if clear then w.Place() else w.Rotate(), taken + [clear])
            && GoesOn(before.missing, taken + [clear])
  {
    var visited := before.missing[..|taken|];
    ThoseCount(visited, taken);
    IdsConcat(before.fv, Those(visited, taken, true));
    var clear := AllDepsClear(w.missing[0], w.resolved);
    GoesOnOnce(before.missing, taken, clear);
    if clear {
      VisitTaken(before, w, taken);
    } else {
      VisitPassed(before, w, taken);
    }
  }

  lemma Associate(a: seq<FilterTemplate>, b: seq<FilterTemplate>, c: seq<FilterTemplate>)
    ensures a + (b + c) == (a + b) + c
  {
  }

  /** Schedules the filters of a scene. The bound of the inner loop is the current length of the
      worklist, so a round that places filters ends early; a round that places none sees them all. */
  method ScheduleFilters(templates: seq<FilterTemplate>) returns (s: Schedule, ghost rounds: Rounds)
    ensures s.Scheduled? <==> exists order :: IsOrderOf(order, templates)
    ensures s.Scheduled? ==>
              && IsOrderOf(s.filters, templates)
              && Increasing(s.boundaries, |templates|)
              && IndexFits(s.index, s.filters)
    ensures s.CyclicOrBroken? ==>
              && multiset(s.scheduled) + multiset(s.missing) == multiset(templates)
              && Ordered(s.scheduled) && s.missing != [] && AllBlocked(s.missing, Ids(s.scheduled))
    ensures AreRounds(templates, rounds)
    ensures var last := AfterRounds(templates, rounds);
            if s.Scheduled? then s.filters == last.fv && last.missing == [] && s.boundaries == BoundariesOf(rounds)
            else s.scheduled == last.fv && s.missing == last.missing
  {
    var w, b;
    w, b, rounds := RunRounds(templates);
    if w.missing != [] {
      BlockedMeansNoOrder(templates, w.fv, w.missing);
      s := CyclicOrBroken(w.fv, w.missing);
    } else {
      assert IsOrderOf(w.fv, templates);
      assert |w.fv| == |multiset(w.fv)| == |multiset(templates)|;
      s := Scheduled(w.fv, b, w.index);
    }
  }

  lemma OneMoreRound(templates: seq<FilterTemplate>, rounds: Rounds, before: Work, after: Work)
    requires AreRounds(templates, rounds) && AfterRounds(templates, rounds) == before && RoundLeads(before, after)
    ensures AreRounds(templates, Then(rounds, after))
  {
  }

  lemma IncreasingAppend(b: seq<nat>, total: nat, more: nat)
    requires Increasing(b, total) && total < more
    ensures Increasing(b + [more], more)
  {
    forall i | 0 <= i < |b|
      ensures b[i] <= total
    {
      assert b[i] <= b[|b| - 1];
    }
  }

  /** Round after round, until all filters are placed or a round has placed none. */
  method RunRounds(templates: seq<FilterTemplate>) returns (w: Work, b: seq<nat>, ghost rounds: Rounds)
    ensures w.Valid() && w.All() == multiset(templates)
    ensures w.missing != [] ==> AllBlocked(w.missing, Ids(w.fv))
    ensures AreRounds(templates, rounds) && AfterRounds(templates, rounds) == w
    ensures w.missing == [] ==> Increasing(b, |w.fv|) && b == BoundariesOf(rounds)
  {
    w, b := Work(templates, [], map[], {}), [];
    rounds := NoRound;
    while w.missing != []
      invariant w.Valid() && w.All() == multiset(templates)
      invariant AreRounds(templates, rounds) && AfterRounds(templates, rounds) == w
      invariant Increasing(b, |w.fv|) && b == BoundariesOf(rounds)
      decreases |w.missing|
    {
      var placed;
      ghost var before := w;
      w, placed := ScheduleRound(w);
      OneMoreRound(templates, rounds, before, w);
      rounds := Then(rounds, w);
      if !placed {
        return;
      }
      IncreasingAppend(b, |before.fv|, |w.fv|);
      b := b + [|w.fv|];
    }
  }

  /** One round: rotates the worklist, placing each filter that is clear when it comes to the front. */
  method ScheduleRound(before: Work) returns (w: Work, placed: bool)
    requires before.Valid() && before.missing != []
    ensures w.Valid() && w.All() == before.All()
    ensures before.fv <= w.fv && |w.fv| + |w.missing| == |before.fv| + |before.missing|
    ensures placed <==> |w.missing| < |before.missing|
    ensures !placed ==> AllBlocked(w.missing, Ids(w.fv))
    ensures RoundLeads(before, w)
  {
    w, placed := before, false;
    ghost var taken := [];
    var i := 0;
    while i < |w.missing|
      invariant w.Valid() && w.All() == before.All()
      invariant before.fv <= w.fv && |w.fv| + |w.missing| == |before.fv| + |before.missing|
      invariant placed <==> |w.missing| < |before.missing|
      invariant !placed ==> i <= |w.missing| && AllBlocked(w.missing[|w.missing| - i..], w.resolved)
      invariant |taken| == i && Visits(before, w, taken) && GoesOn(before.missing, taken)
      decreases |w.missing| - i
    {
      VisitOne(before, w, taken);
      taken := taken + [AllDepsClear(w.missing[0], w.resolved)];
      if AllDepsClear(w.missing[0], w.resolved) {
        PlaceKeeps(w);
        w, placed := w.Place(), true;
      } else {
        RotateKeeps(w, i);
        w := w.Rotate();
      }
      i := i + 1;
    }
    assert !placed ==> w.missing[|w.missing| - i..] == w.missing;
    assert IsRound(before, w, taken);
  }
}
