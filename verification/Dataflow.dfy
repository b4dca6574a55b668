/** Linking the filters of a scene and evaluating them once per cycle. A filter is any deterministic
    update of its own state and its own output cells from its input cells. */
module Dataflow {
  import opened Collections
  import opened Scheduling

  type Value(==,!new)
  type FilterState(==,!new)

  datatype ChannelType = EIGHT_BIT | SIXTEEN_BIT | FLOAT | COLOR

  const CHANNEL_TYPES := {EIGHT_BIT, SIXTEEN_BIT, FLOAT, COLOR}

  /** A typed channel name: an entry of one of the four channel maps. */
  datatype Cell = Cell(channelType: ChannelType, name: string)

  /** Input channel names and the output cells they point to. */
  type ChannelMapping = map<Cell, Cell>

  /** What the filters do: the output channels they offer (named without the filter id), and how an
      update computes the new state and the new value of each output cell. */
  datatype Behaviour = Behaviour(
    outputs: FilterTemplate -> set<Cell>,
    next: (FilterTemplate, FilterState, map<Cell, Value>) -> FilterState,
    output: (FilterTemplate, FilterState, map<Cell, Value>, Cell) -> Value)

  datatype Linked = Linked(template: FilterTemplate, inputs: ChannelMapping)

  /** Output channels are registered under the filter id, a colon and their name. */
  function OwnCells(b: Behaviour, f: FilterTemplate): set<Cell> {
    set c <- b.outputs(f) :: Cell(c.channelType, f.id + ":" + c.name)
  }

  function AllCells(b: Behaviour, fs: seq<FilterTemplate>): set<Cell> {
    set f <- fs, c <- OwnCells(b, f) :: c
  }

  /** Filter ids of a scene are free of colons and pairwise different. */
  predicate WellNamed(fs: seq<FilterTemplate>) {
    && (forall f <- fs :: ':' !in f.id)
    && (forall i, j :: 0 <= i < j < |fs| ==> fs[i].id != fs[j].id)
  }

  // ----- linking -----

  function TypesOffering(cm: set<Cell>, channelId: string): set<ChannelType> {
    set t <- CHANNEL_TYPES | Cell(t, channelId) in cm
  }

  function AddLink(cm: set<Cell>, m: ChannelMapping, link: Link): ChannelMapping {
    m + map t <- TypesOffering(cm, link.outputChannelId) ::
          Cell(t, link.inputChannelId) := Cell(t, link.outputChannelId)
  }

  /** The input mapping of a filter; `None` when a requested output channel is unknown. */
  function InputMapping(cm: set<Cell>, links: seq<Link>): Option<ChannelMapping> {
    if links == [] then Some(map[])
    else
      var last := links[|links| - 1];
      var m := InputMapping(cm, links[..|links| - 1]);
      if m.None? || TypesOffering(cm, last.outputChannelId) == {} then None
      else Some(AddLink(cm, m.value, last))
  }

  lemma {:induction false} InputMappingFailsEarly(cm: set<Cell>, links: seq<Link>, i: nat)
    requires i <= |links| && InputMapping(cm, links[..i]).None?
    ensures InputMapping(cm, links).None?
    decreases |links|
  {
    if i < |links| {
      assert links[..|links| - 1][..i] == links[..i];
      InputMappingFailsEarly(cm, links[..|links| - 1], i);
    } else {
      assert links[..i] == links;
    }
  }

  /** Some link has this input channel and an output channel of the type among the known ones. */
  ghost predicate Offers(cm: set<Cell>, links: seq<Link>, k: int, c: Cell) {
    0 <= k < |links| && links[k].inputChannelId == c.name && Cell(c.channelType, links[k].outputChannelId) in cm
  }

  ghost predicate LastOffer(cm: set<Cell>, links: seq<Link>, k: int, c: Cell) {
    Offers(cm, links, k, c) && forall j: int :: k < j ==> !Offers(cm, links, j, c)
  }

  /** Every channel that is offered is found under the name of its input channel, and nothing else is; of
      several offers the last one wins. */
  ghost predicate Connects(cm: set<Cell>, links: seq<Link>, m: ChannelMapping) {
    && (forall c :: c in m <==> exists k: int :: Offers(cm, links, k, c))
    && (forall c, k: int :: LastOffer(cm, links, k, c) ==>
          c in m && m[c] == Cell(c.channelType, links[k].outputChannelId))
  }

  ghost predicate IsUnknown(cm: set<Cell>, link: Link) {
    forall t :: Cell(t, link.outputChannelId) !in cm
  }

  lemma AnyType(t: ChannelType)
    ensures t in CHANNEL_TYPES
  {
    match t {
      case EIGHT_BIT => case SIXTEEN_BIT => case FLOAT => case COLOR =>
    }
  }

  lemma OffersSome(cm: set<Cell>, link: Link)
    ensures TypesOffering(cm, link.outputChannelId) == {} <==> IsUnknown(cm, link)
  {
    forall t | Cell(t, link.outputChannelId) in cm
      ensures t in TypesOffering(cm, link.outputChannelId)
    {
      AnyType(t);
    }
  }

  lemma AddedLink(cm: set<Cell>, m: ChannelMapping, link: Link, c: Cell)
    ensures var m' := AddLink(cm, m, link);
            if c.name == link.inputChannelId && Cell(c.channelType, link.outputChannelId) in cm
            then c in m' && m'[c] == Cell(c.channelType, link.outputChannelId)
            else (c in m' <==> c in m) && (c in m ==> m'[c] == m[c])
  {
    if Cell(c.channelType, link.outputChannelId) in cm {
      AnyType(c.channelType);
      assert c.channelType in TypesOffering(cm, link.outputChannelId);
    }
  }

  lemma OffersBefore(cm: set<Cell>, links: seq<Link>, k: int, c: Cell)
    requires links != [] && k != |links| - 1
    ensures Offers(cm, links, k, c) <==> Offers(cm, links[..|links| - 1], k, c)
  {
  }

  lemma AddedIsOffered(cm: set<Cell>, m: ChannelMapping, links: seq<Link>, c: Cell)
    requires links != [] && Connects(cm, links[..|links| - 1], m)
    ensures c in AddLink(cm, m, links[|links| - 1]) <==> exists k: int :: Offers(cm, links, k, c)
  {
    var n, init := |links| - 1, links[..|links| - 1];
    AddedLink(cm, m, links[n], c);
    if c in m {
      var k: int :| Offers(cm, init, k, c);
      OffersBefore(cm, links, k, c);
    }
    if k: int :| Offers(cm, links, k, c) && k != n {
      OffersBefore(cm, links, k, c);
    }
    assert Offers(cm, links, n, c) ==> c in AddLink(cm, m, links[n]);
  }

  lemma AddedValue(cm: set<Cell>, m: ChannelMapping, links: seq<Link>, c: Cell, k: int)
    requires links != [] && Connects(cm, links[..|links| - 1], m) && LastOffer(cm, links, k, c)
    ensures var m' := AddLink(cm, m, links[|links| - 1]);
            c in m' && m'[c] == Cell(c.channelType, links[k].outputChannelId)
  {
    var n, init := |links| - 1, links[..|links| - 1];
    AddedLink(cm, m, links[n], c);
    if k < n {
      assert !Offers(cm, links, n, c);
      forall j: int | k <= j
        ensures Offers(cm, init, j, c) <==> j == k
      {
        if j != n {
          OffersBefore(cm, links, j, c);
        }
      }
      assert LastOffer(cm, init, k, c) && init[k] == links[k];
    }
  }

  lemma AddLinkConnects(cm: set<Cell>, m: ChannelMapping, links: seq<Link>)
    requires links != [] && Connects(cm, links[..|links| - 1], m)
    ensures Connects(cm, links, AddLink(cm, m, links[|links| - 1]))
  {
    var m' := AddLink(cm, m, links[|links| - 1]);
    forall c
      ensures c in m' <==> exists k: int :: Offers(cm, links, k, c)
    {
      AddedIsOffered(cm, m, links, c);
    }
    forall c, k: int | LastOffer(cm, links, k, c)
      ensures c in m' && m'[c] == Cell(c.channelType, links[k].outputChannelId)
    {
      AddedValue(cm, m, links, c, k);
    }
  }

  /** The input mapping in terms of the links and the known channels alone. */
  lemma {:induction false} InputMappingConnects(cm: set<Cell>, links: seq<Link>)
    ensures InputMapping(cm, links).None? <==> exists link <- links :: IsUnknown(cm, link)
    ensures InputMapping(cm, links).Some? ==> Connects(cm, links, InputMapping(cm, links).value)
    decreases |links|
  {
    if links != [] {
      var init, last := links[..|links| - 1], links[|links| - 1];
      InputMappingConnects(cm, init);
      OffersSome(cm, last);
      assert links == init + [last];
      if InputMapping(cm, links).Some? {
        AddLinkConnects(cm, InputMapping(cm, init).value, links);
      }
    }
  }

  method ConstructChannelInputMapping(cm: set<Cell>, links: seq<Link>) returns (r: Option<ChannelMapping>)
    ensures r.None? <==> exists link <- links :: IsUnknown(cm, link)
    ensures r.Some? ==> Connects(cm, links, r.value)
    ensures r == InputMapping(cm, links)
  {
    InputMappingConnects(cm, links);
    var m: ChannelMapping := map[];
    for i := 0 to |links|
      invariant InputMapping(cm, links[..i]) == Some(m)
    {
      assert links[..i + 1][..i] == links[..i];
      if TypesOffering(cm, links[i].outputChannelId) == {} {
        InputMappingFailsEarly(cm, links, i + 1);
        return None;
      }
      m := AddLink(cm, m, links[i]);
    }
    assert links[..|links|] == links;
    return Some(m);
  }

  /** Filter `i` can be linked to the outputs of the filters up to and including itself. */
  predicate Linkable(b: Behaviour, fv: seq<FilterTemplate>, i: nat)
    requires i < |fv|
  {
    InputMapping(AllCells(b, fv[..i + 1]), fv[i].links).Some?
  }

  function LinkOf(b: Behaviour, fv: seq<FilterTemplate>, i: nat): Linked
    requires i < |fv| && Linkable(b, fv, i)
  {
    Linked(fv[i], InputMapping(AllCells(b, fv[..i + 1]), fv[i].links).value)
  }

  /** The linked filters of a list of filters. */
  ghost predicate IsLinkOf(b: Behaviour, fv: seq<FilterTemplate>, fs: seq<Linked>) {
    |fs| == |fv| && LinkedUpTo(b, fv, fs)
  }

  ghost predicate LinkedUpTo(b: Behaviour, fv: seq<FilterTemplate>, fs: seq<Linked>) {
    |fs| <= |fv| && forall i :: 0 <= i < |fs| ==> Linkable(b, fv, i) && fs[i] == LinkOf(b, fv, i)
  }

  lemma LinkOneMore(b: Behaviour, fv: seq<FilterTemplate>, linked: seq<Linked>, m: ChannelMapping)
    requires |linked| < |fv| && LinkedUpTo(b, fv, linked)
    requires InputMapping(AllCells(b, fv[..|linked| + 1]), fv[|linked|].links) == Some(m)
    ensures LinkedUpTo(b, fv, linked + [Linked(fv[|linked|], m)])
  {
    var k, more := |linked|, linked + [Linked(fv[|linked|], m)];
    LinkOfMapping(b, fv, k, m);
    forall i | 0 <= i < |more|
      ensures Linkable(b, fv, i) && more[i] == LinkOf(b, fv, i)
    {
      assert if i < k then more[i] == linked[i] else i == k;
    }
  }

  lemma LinkOfMapping(b: Behaviour, fv: seq<FilterTemplate>, i: nat, m: ChannelMapping)
    requires i < |fv| && InputMapping(AllCells(b, fv[..i + 1]), fv[i].links) == Some(m)
    ensures Linkable(b, fv, i) && LinkOf(b, fv, i) == Linked(fv[i], m)
  {
  }

  method ConnectFilters(b: Behaviour, fv: seq<FilterTemplate>) returns (r: Option<seq<Linked>>)
    ensures r.Some? <==> forall i :: 0 <= i < |fv| ==> Linkable(b, fv, i)
    ensures r.Some? ==> IsLinkOf(b, fv, r.value)
  {
    var cm: set<Cell> := {};
    var linked: seq<Linked> := [];
    for i := 0 to |fv|
      invariant cm == AllCells(b, fv[..i])
      invariant |linked| == i && LinkedUpTo(b, fv, linked)
    {
      cm := RegisterOutputs(b, fv, i, cm);
      var m := ConstructChannelInputMapping(cm, fv[i].links);
      if m.None? {
        assert !Linkable(b, fv, i);
        return None;
      }
      LinkOneMore(b, fv, linked, m.value);
      linked := linked + [Linked(fv[i], m.value)];
    }
    return Some(linked);
  }

  function RegisterOutputs(b: Behaviour, fv: seq<FilterTemplate>, i: nat, cm: set<Cell>): (cm': set<Cell>)
    requires i < |fv| && cm == AllCells(b, fv[..i])
    ensures cm' == AllCells(b, fv[..i + 1])
  {
    assert fv[..i + 1] == fv[..i] + [fv[i]];
    assert forall c :: c in AllCells(b, fv[..i + 1]) <==> c in AllCells(b, fv[..i]) || c in OwnCells(b, fv[i]);
    cm + OwnCells(b, fv[i])
  }

  /** The id can be read back from the name of a cell. */
  lemma {:induction false} FilterIdOfCell(id: string, name: string)
    requires ':' !in id
    ensures FilterIdOf(id + ":" + name) == id
    decreases |id|
  {
    var s := id + ":" + name;
    if id != [] {
      assert s[1..] == id[1..] + ":" + name;
      assert s[0] == id[0] && id[0] in id;
      FilterIdOfCell(id[1..], name);
    }
  }

  lemma OwnerOf(b: Behaviour, f: FilterTemplate, c: Cell)
    requires ':' !in f.id && c in OwnCells(b, f)
    ensures FilterIdOf(c.name) == f.id
  {
    var o :| o in b.outputs(f) && c == Cell(o.channelType, f.id + ":" + o.name);
    FilterIdOfCell(f.id, o.name);
  }

  /** A channel of a dependency is registered when the filter is linked, and then it is the same
      channel the whole scene knows. */
  lemma DependencyIsRegistered(b: Behaviour, fv: seq<FilterTemplate>, i: nat, link: Link, t: ChannelType)
    requires WellNamed(fv) && Ordered(fv) && i < |fv| && link in fv[i].links
    ensures Cell(t, link.outputChannelId) in AllCells(b, fv[..i + 1]) <==>
            Cell(t, link.outputChannelId) in AllCells(b, fv)
    ensures forall j :: 0 <= j < |fv| && Cell(t, link.outputChannelId) in OwnCells(b, fv[j]) ==> j < i
  {
    var c := Cell(t, link.outputChannelId);
    assert AllDepsClear(fv[i], Ids(fv[..i]));
    var dep :| dep in fv[..i] && dep.id == FilterIdOf(link.outputChannelId);
    var d :| 0 <= d < i && fv[d] == dep;
    forall j | 0 <= j < |fv| && c in OwnCells(b, fv[j])
      ensures j == d
    {
      OwnerOf(b, fv[j], c);
    }
    if c in AllCells(b, fv) {
      var f :| f in fv && c in OwnCells(b, f);
      var j :| 0 <= j < |fv| && fv[j] == f;
      assert fv[j] in fv[..i + 1];
    }
  }

  lemma {:induction false} InputMappingAgrees(cm: set<Cell>, all: set<Cell>, links: seq<Link>)
    requires forall link <- links, t :: Cell(t, link.outputChannelId) in cm <==> Cell(t, link.outputChannelId) in all
    ensures InputMapping(cm, links) == InputMapping(all, links)
    decreases |links|
  {
    if links != [] {
      var last := links[|links| - 1];
      InputMappingAgrees(cm, all, links[..|links| - 1]);
      assert last in links;
      assert TypesOffering(cm, last.outputChannelId) == TypesOffering(all, last.outputChannelId);
    }
  }

  /** In a scheduled scene a filter is linked as if all outputs were known already. */
  lemma LinkedAgainstAll(b: Behaviour, fv: seq<FilterTemplate>, i: nat)
    requires WellNamed(fv) && Ordered(fv) && i < |fv|
    ensures InputMapping(AllCells(b, fv[..i + 1]), fv[i].links) == InputMapping(AllCells(b, fv), fv[i].links)
  {
    forall link, t | link in fv[i].links
      ensures Cell(t, link.outputChannelId) in AllCells(b, fv[..i + 1]) <==>
              Cell(t, link.outputChannelId) in AllCells(b, fv)
    {
      DependencyIsRegistered(b, fv, i, link, t);
    }
    InputMappingAgrees(AllCells(b, fv[..i + 1]), AllCells(b, fv), fv[i].links);
  }

  lemma {:induction false} InputsAreLinked(cm: set<Cell>, links: seq<Link>)
    requires InputMapping(cm, links).Some?
    ensures forall c <- InputMapping(cm, links).value.Values ::
              c in cm && exists link <- links :: c.name == link.outputChannelId
    decreases |links|
  {
    if links != [] {
      InputsAreLinked(cm, links[..|links| - 1]);
    }
  }

  /** A filter owns exactly its outputs, each under its own name behind the id of the filter. */
  lemma OwnsItsOutputs(b: Behaviour, f: FilterTemplate, t: ChannelType, name: string)
    ensures Cell(t, f.id + ":" + name) in OwnCells(b, f) <==> Cell(t, name) in b.outputs(f)
  {
    if Cell(t, f.id + ":" + name) in OwnCells(b, f) {
      var o :| o in b.outputs(f) && Cell(o.channelType, f.id + ":" + o.name) == Cell(t, f.id + ":" + name);
      assert (f.id + ":" + o.name)[|f.id| + 1..] == o.name && (f.id + ":" + name)[|f.id| + 1..] == name;
    }
  }

  // ----- evaluation -----

  datatype Memory = Memory(cells: map<Cell, Value>, states: map<string, FilterState>)

  /** All that the filters touch exists: their own cells, the cells they read, their states. */
  ghost predicate Holds(b: Behaviour, fs: seq<Linked>, m: Memory) {
    forall l <- fs :: HoldsOne(b, l, m)
  }

  ghost predicate HoldsOne(b: Behaviour, l: Linked, m: Memory) {
    OwnCells(b, l.template) <= m.cells.Keys && l.inputs.Values <= m.cells.Keys && l.template.id in m.states
  }

  function Inputs(l: Linked, cells: map<Cell, Value>): map<Cell, Value>
    requires l.inputs.Values <= cells.Keys
  {
    map c <- l.inputs :: cells[l.inputs[c]]
  }

  /** One filter update. */
  function Update(b: Behaviour, l: Linked, m: Memory): (m': Memory)
    requires HoldsOne(b, l, m)
    ensures m'.cells.Keys == m.cells.Keys && m'.states.Keys == m.states.Keys
  {
    var t, state, inputs := l.template, m.states[l.template.id], Inputs(l, m.cells);
    var cells := map c <- m.cells :: if c in OwnCells(b, t) then b.output(t, state, inputs, c) else m.cells[c];
    Memory(cells, m.states[t.id := b.next(t, state, inputs)])
  }

  /** One pass over the filters. */
  function Cycle(b: Behaviour, fs: seq<Linked>, m: Memory): (m': Memory)
    requires Holds(b, fs, m)
    ensures m'.cells.Keys == m.cells.Keys && m'.states.Keys == m.states.Keys
  {
    if fs == [] then m
    else Update(b, fs[|fs| - 1], Cycle(b, fs[..|fs| - 1], m))
  }

  /** The filters of a scene in a usable order: every input belongs to an earlier filter. */
  ghost predicate Feeds(b: Behaviour, fs: seq<Linked>) {
    && WellNamed(Templates(fs))
    && forall i, c :: 0 <= i < |fs| && c in fs[i].inputs.Values ==> exists j :: 0 <= j < i && Owns(b, fs, j, c)
  }

  ghost predicate Owns(b: Behaviour, fs: seq<Linked>, j: nat, c: Cell)
    requires j < |fs|
  {
    c in OwnCells(b, fs[j].template)
  }

  function Templates(fs: seq<Linked>): (ts: seq<FilterTemplate>)
    ensures |ts| == |fs| && forall i :: 0 <= i < |fs| ==> ts[i] == fs[i].template
  {
    seq(|fs|, i requires 0 <= i < |fs| => fs[i].template)
  }

  /** The dataflow equations of one filter: its outputs and its new state are its update applied to
      the final values of its inputs. */
  ghost predicate Solves(b: Behaviour, l: Linked, before: Memory, after: Memory)
    requires HoldsOne(b, l, before) && HoldsOne(b, l, after)
  {
    var t, state, inputs := l.template, before.states[l.template.id], Inputs(l, after.cells);
    && after.states[t.id] == b.next(t, state, inputs)
    && forall c <- OwnCells(b, t) :: after.cells[c] == b.output(t, state, inputs, c)
  }

  /** What no filter owns keeps its value. */
  ghost predicate Frame(b: Behaviour, fs: seq<Linked>, before: Memory, after: Memory) {
    && after.cells.Keys == before.cells.Keys && after.states.Keys == before.states.Keys
    && (forall c <- before.cells :: (forall l <- fs :: c !in OwnCells(b, l.template)) ==>
          after.cells[c] == before.cells[c])
    && (forall id <- before.states :: (forall l <- fs :: id != l.template.id) ==> after.states[id] == before.states[id])
  }

  lemma CellHasOneOwner(b: Behaviour, fs: seq<Linked>, i: nat, j: nat, c: Cell)
    requires WellNamed(Templates(fs)) && i < |fs| && j < |fs| && Owns(b, fs, i, c) && Owns(b, fs, j, c)
    ensures i == j
  {
    var ts := Templates(fs);
    assert ts[i] in ts && ts[j] in ts;
    OwnerOf(b, ts[i], c);
    OwnerOf(b, ts[j], c);
  }

  lemma FeedsPrefix(b: Behaviour, fs: seq<Linked>, k: nat)
    requires Feeds(b, fs) && k <= |fs|
    ensures Feeds(b, fs[..k])
  {
    var pre := fs[..k];
    assert Templates(pre) == Templates(fs)[..k];
    forall i, c | 0 <= i < k && c in pre[i].inputs.Values
      ensures exists j :: 0 <= j < i && Owns(b, pre, j, c)
    {
      var j :| 0 <= j < i && Owns(b, fs, j, c);
      assert Owns(b, pre, j, c);
    }
  }

  /** The last filter does not write the cells of the others. */
  lemma LastWritesOwnCells(b: Behaviour, fs: seq<Linked>, j: nat, m: Memory, c: Cell)
    requires WellNamed(Templates(fs)) && j < |fs| - 1 && Holds(b, fs, m) && Owns(b, fs, j, c)
    ensures c in m.cells && Update(b, fs[|fs| - 1], m).cells[c] == m.cells[c]
  {
    var k := |fs| - 1;
    assert fs[j] in fs && HoldsOne(b, fs[j], m);
    if Owns(b, fs, k, c) {
      CellHasOneOwner(b, fs, j, k, c);
    }
  }

  /** The inputs of a filter are not written by the last one. */
  lemma LastKeepsInputs(b: Behaviour, fs: seq<Linked>, i: nat, m: Memory)
    requires Feeds(b, fs) && i < |fs| && Holds(b, fs, m)
    ensures fs[i] in fs && Inputs(fs[i], Update(b, fs[|fs| - 1], m).cells) == Inputs(fs[i], m.cells)
  {
    forall c | c in fs[i].inputs.Values
      ensures c in m.cells && Update(b, fs[|fs| - 1], m).cells[c] == m.cells[c]
    {
      var j :| 0 <= j < i && Owns(b, fs, j, c);
      LastWritesOwnCells(b, fs, j, m, c);
    }
  }

  /** A later update leaves a solved filter solved. */
  lemma UpdateKeepsSolved(b: Behaviour, fs: seq<Linked>, i: nat, before: Memory, m: Memory)
    requires Feeds(b, fs) && i < |fs| - 1 && Holds(b, fs, before) && Holds(b, fs, m)
    requires Solves(b, fs[i], before, m)
    ensures Solves(b, fs[i], before, Update(b, fs[|fs| - 1], m))
  {
    LastKeepsInputs(b, fs, i, m);
    forall c | c in OwnCells(b, fs[i].template)
      ensures c in m.cells && Update(b, fs[|fs| - 1], m).cells[c] == m.cells[c]
    {
      assert Owns(b, fs, i, c);
      LastWritesOwnCells(b, fs, i, m, c);
    }
    assert Templates(fs)[i].id != Templates(fs)[|fs| - 1].id;
  }

  /** The filter just updated is solved. */
  lemma UpdateSolves(b: Behaviour, fs: seq<Linked>, before: Memory, m: Memory)
    requires Feeds(b, fs) && fs != [] && Holds(b, fs, before) && Holds(b, fs, m)
    requires Frame(b, fs[..|fs| - 1], before, m)
    ensures Solves(b, fs[|fs| - 1], before, Update(b, fs[|fs| - 1], m))
  {
    var k, ts := |fs| - 1, Templates(fs);
    LastKeepsInputs(b, fs, k, m);
    forall e | e in fs[..k]
      ensures ts[k].id != e.template.id
    {
      var i :| 0 <= i < k && fs[i] == e;
      assert ts[i].id != ts[k].id;
    }
  }

  lemma UpdateKeepsFrame(b: Behaviour, fs: seq<Linked>, before: Memory, m: Memory)
    requires fs != [] && Holds(b, fs, before) && Holds(b, fs, m) && Frame(b, fs[..|fs| - 1], before, m)
    ensures Frame(b, fs, before, Update(b, fs[|fs| - 1], m))
  {
    assert fs == fs[..|fs| - 1] + [fs[|fs| - 1]];
    assert fs[|fs| - 1] in fs;
    assert forall l <- fs[..|fs| - 1] :: l in fs;
  }

  /** One pass over a scheduled scene solves the dataflow equations of all its filters. */
  lemma {:induction false} CycleSolves(b: Behaviour, fs: seq<Linked>, m: Memory)
    requires Feeds(b, fs) && Holds(b, fs, m)
    ensures Frame(b, fs, m, Cycle(b, fs, m))
    ensures forall l <- fs :: Solves(b, l, m, Cycle(b, fs, m))
    decreases |fs|
  {
    if fs != [] {
      var k := |fs| - 1;
      var pre, last := fs[..k], fs[k];
      FeedsPrefix(b, fs, k);
      CycleSolves(b, pre, m);
      var mid := Cycle(b, pre, m);
      UpdateKeepsFrame(b, fs, m, mid);
      UpdateSolves(b, fs, m, mid);
      forall l | l in pre
        ensures Solves(b, l, m, Update(b, last, mid))
      {
        var i :| 0 <= i < k && fs[i] == l;
        UpdateKeepsSolved(b, fs, i, m, mid);
      }
      assert fs == pre + [last];
    }
  }

  ghost predicate AgreeOn(b: Behaviour, l: Linked, x: Memory, y: Memory)
    requires HoldsOne(b, l, x) && HoldsOne(b, l, y)
  {
    && x.states[l.template.id] == y.states[l.template.id]
    && forall c <- OwnCells(b, l.template) :: x.cells[c] == y.cells[c]
  }

  /** Two solutions of the equations agree on everything the first `k` filters own. */
  lemma {:induction false} SolutionsAgree(b: Behaviour, fs: seq<Linked>, m: Memory, x: Memory, y: Memory, k: nat)
    requires Feeds(b, fs) && Holds(b, fs, m) && Holds(b, fs, x) && Holds(b, fs, y)
    requires forall l <- fs :: Solves(b, l, m, x) && Solves(b, l, m, y)
    requires k <= |fs|
    ensures forall l <- fs[..k] :: l in fs && AgreeOn(b, l, x, y)
    decreases k
  {
    if k > 0 {
      SolutionsAgree(b, fs, m, x, y, k - 1);
      var l := fs[k - 1];
      assert l in fs && fs[..k] == fs[..k - 1] + [l];
      forall c | c in l.inputs.Values
        ensures x.cells[c] == y.cells[c]
      {
        var j :| 0 <= j < k - 1 && Owns(b, fs, j, c);
        assert fs[j] in fs[..k - 1];
      }
      assert Inputs(l, x.cells) == Inputs(l, y.cells);
      assert Solves(b, l, m, x) && Solves(b, l, m, y);
    }
  }

  /** The dataflow equations have only one solution. */
  lemma SolutionIsUnique(b: Behaviour, fs: seq<Linked>, m: Memory, x: Memory, y: Memory)
    requires Feeds(b, fs) && Holds(b, fs, m) && Holds(b, fs, x) && Holds(b, fs, y)
    requires Frame(b, fs, m, x) && Frame(b, fs, m, y)
    requires forall l <- fs :: Solves(b, l, m, x) && Solves(b, l, m, y)
    ensures x == y
  {
    SolutionsAgree(b, fs, m, x, y, |fs|);
    assert fs[..|fs|] == fs;
    forall c | c in m.cells
      ensures x.cells[c] == y.cells[c]
    {
      if l :| l in fs && c in OwnCells(b, l.template) {
        assert AgreeOn(b, l, x, y);
      }
    }
    forall id | id in m.states
      ensures x.states[id] == y.states[id]
    {
      if l :| l in fs && id == l.template.id {
        assert AgreeOn(b, l, x, y);
      }
    }
  }

  lemma SameFrame(b: Behaviour, fs: seq<Linked>, gs: seq<Linked>, m: Memory, x: Memory)
    requires SameElements(fs, gs) && Frame(b, gs, m, x)
    ensures Frame(b, fs, m, x)
  {
  }

  /** So any two usable orders of the same filters compute the same. */
  lemma OrderDoesNotMatter(b: Behaviour, fs: seq<Linked>, gs: seq<Linked>, m: Memory)
    requires Feeds(b, fs) && Feeds(b, gs) && SameElements(fs, gs) && Holds(b, fs, m)
    ensures Holds(b, gs, m) && Cycle(b, fs, m) == Cycle(b, gs, m)
  {
    CycleSolves(b, fs, m);
    CycleSolves(b, gs, m);
    SameFrame(b, fs, gs, m, Cycle(b, gs, m));
    SolutionIsUnique(b, fs, m, Cycle(b, fs, m), Cycle(b, gs, m));
  }

  function Cycles(b: Behaviour, fs: seq<Linked>, m: Memory, n: nat): (m': Memory)
    requires Holds(b, fs, m)
    ensures Holds(b, fs, m')
  {
    if n == 0 then m else Cycle(b, fs, Cycles(b, fs, m, n - 1))
  }

  lemma {:induction false} OrderNeverMatters(b: Behaviour, fs: seq<Linked>, gs: seq<Linked>, m: Memory, n: nat)
    requires Feeds(b, fs) && Feeds(b, gs) && SameElements(fs, gs) && Holds(b, fs, m)
    ensures Holds(b, gs, m) && Cycles(b, fs, m, n) == Cycles(b, gs, m, n)
    decreases n
  {
    OrderDoesNotMatter(b, fs, gs, m);
    if n > 0 {
      OrderNeverMatters(b, fs, gs, m, n - 1);
      var before := Cycles(b, fs, m, n - 1);
      OrderDoesNotMatter(b, fs, gs, before);
      assert Cycles(b, fs, m, n) == Cycle(b, fs, before);
      assert Cycles(b, gs, m, n) == Cycle(b, gs, before);
    }
  }

  // ----- from the scene description to the running scene -----

  /** A linked filter finds, under the name of an input channel, what the channel at the other end of its
      last link holds. */
  lemma LinkedReads(b: Behaviour, fv: seq<FilterTemplate>, i: nat, cells: map<Cell, Value>, c: Cell, k: nat)
    requires i < |fv| && Linkable(b, fv, i) && LinkOf(b, fv, i).inputs.Values <= cells.Keys
    requires LastOffer(AllCells(b, fv[..i + 1]), fv[i].links, k, c)
    ensures var from := Cell(c.channelType, fv[i].links[k].outputChannelId);
            && from in cells && c in Inputs(LinkOf(b, fv, i), cells)
            && Inputs(LinkOf(b, fv, i), cells)[c] == cells[from]
  {
    InputMappingConnects(AllCells(b, fv[..i + 1]), fv[i].links);
    var m := LinkOf(b, fv, i).inputs;
    assert m[c] in m.Values;
  }

  /** Linking a scheduled scene gives filters that are fed by earlier ones. */
  lemma ScheduledFeeds(b: Behaviour, fv: seq<FilterTemplate>, fs: seq<Linked>)
    requires WellNamed(fv) && Ordered(fv) && IsLinkOf(b, fv, fs)
    ensures Feeds(b, fs)
  {
    assert Templates(fs) == fv;
    forall i, c | 0 <= i < |fs| && c in fs[i].inputs.Values
      ensures exists j :: 0 <= j < i && Owns(b, fs, j, c)
    {
      InputsAreLinked(AllCells(b, fv[..i + 1]), fv[i].links);
      var link :| link in fv[i].links && c.name == link.outputChannelId;
      assert c == Cell(c.channelType, link.outputChannelId);
      DependencyIsRegistered(b, fv, i, link, c.channelType);
      var f :| f in fv[..i + 1] && c in OwnCells(b, f);
      var j :| 0 <= j < i + 1 && fv[j] == f;
      assert Owns(b, fs, j, c);
    }
  }

  /** Every filter of a linked schedule occurs, linked in the same way, in any other schedule. */
  lemma LinkedElsewhere(b: Behaviour, fv: seq<FilterTemplate>, gv: seq<FilterTemplate>, i: nat) returns (j: nat)
    requires WellNamed(fv) && WellNamed(gv) && Ordered(fv) && Ordered(gv) && SameElements(fv, gv)
    requires i < |fv| && Linkable(b, fv, i)
    ensures j < |gv| && Linkable(b, gv, j) && LinkOf(b, fv, i) == LinkOf(b, gv, j)
  {
    assert fv[i] in gv;
    j :| 0 <= j < |gv| && gv[j] == fv[i];
    assert AllCells(b, fv) == AllCells(b, gv);
    LinkedAgainstAll(b, fv, i);
    LinkedAgainstAll(b, gv, j);
  }

  /** Two schedules of the same scene link to the same filters, so the scene computes the same cells
      and states in every cycle, whichever schedule was found. */
  lemma ScheduleDoesNotMatter(b: Behaviour, fv: seq<FilterTemplate>, gv: seq<FilterTemplate>,
                              fs: seq<Linked>, gs: seq<Linked>, m: Memory, n: nat)
    requires WellNamed(fv) && WellNamed(gv) && Ordered(fv) && Ordered(gv) && multiset(fv) == multiset(gv)
    requires IsLinkOf(b, fv, fs) && IsLinkOf(b, gv, gs) && Holds(b, fs, m)
    ensures Holds(b, gs, m) && Cycles(b, fs, m, n) == Cycles(b, gs, m, n)
  {
    PermutationHasSameElements(fv, gv);
    forall l | l in fs
      ensures l in gs
    {
      var i :| 0 <= i < |fs| && fs[i] == l;
      var j := LinkedElsewhere(b, fv, gv, i);
      assert gs[j] == LinkOf(b, gv, j);
    }
    forall l | l in gs
      ensures l in fs
    {
      var i :| 0 <= i < |gs| && gs[i] == l;
      var j := LinkedElsewhere(b, gv, fv, i);
      assert fs[j] == LinkOf(b, fv, j);
    }
    ScheduledFeeds(b, fv, fs);
    ScheduledFeeds(b, gv, gs);
    OrderNeverMatters(b, fs, gs, m, n);
  }

  /** Whether a scene can be linked does not depend on the schedule either. */
  lemma LinkabilityDoesNotMatter(b: Behaviour, fv: seq<FilterTemplate>, gv: seq<FilterTemplate>)
    requires WellNamed(fv) && WellNamed(gv) && Ordered(fv) && Ordered(gv) && multiset(fv) == multiset(gv)
    requires forall i :: 0 <= i < |fv| ==> Linkable(b, fv, i)
    ensures forall j :: 0 <= j < |gv| ==> Linkable(b, gv, j)
  {
    PermutationHasSameElements(fv, gv);
    forall j | 0 <= j < |gv|
      ensures Linkable(b, gv, j)
    {
      assert gv[j] in fv;
      var i :| 0 <= i < |fv| && fv[i] == gv[j];
      assert Linkable(b, fv, i);
      assert AllCells(b, fv) == AllCells(b, gv);
      LinkedAgainstAll(b, fv, i);
      LinkedAgainstAll(b, gv, j);
    }
  }

  datatype Compiled =
    | Ready(filters: seq<Linked>, boundaries: seq<nat>, index: map<string, nat>)
    | SchedulingFailed
    | UnknownChannel

  /** Some order of the filters respects the dependencies, and in it every link finds its channel. */
  ghost predicate CanCompile(b: Behaviour, templates: seq<FilterTemplate>) {
    exists order :: IsOrderOf(order, templates) && forall i :: 0 <= i < |order| ==> Linkable(b, order, i)
  }

  /** Compiles the filters of a scene: schedules them, then links them. Different ids without colons make
      sure that the schedule found is as good as any. */
  method ComputeFilter(b: Behaviour, templates: seq<FilterTemplate>) returns (r: Compiled)
    ensures r.Ready? ==> CanCompile(b, templates)
    ensures WellNamed(templates) && CanCompile(b, templates) ==> r.Ready?
    ensures r.SchedulingFailed? <==> !exists order :: IsOrderOf(order, templates)
    ensures r.Ready? ==>
              && IsOrderOf(Templates(r.filters), templates) && IsLinkOf(b, Templates(r.filters), r.filters)
              && Increasing(r.boundaries, |templates|) && IndexFits(r.index, Templates(r.filters))
    ensures r.Ready? && WellNamed(templates) ==> Feeds(b, r.filters)
  {
    var s, rounds := ScheduleFilters(templates);
    if s.CyclicOrBroken? {
      return SchedulingFailed;
    }
    ghost var fv := s.filters;
    if WellNamed(templates) {
      NamesOfPermutation(templates, fv);
    }
    var linked := ConnectFilters(b, s.filters);
    if linked.None? {
      forall order | WellNamed(templates) && IsOrderOf(order, templates)
                     && forall i :: 0 <= i < |order| ==> Linkable(b, order, i)
        ensures false
      {
        NamesOfPermutation(templates, order);
        LinkabilityDoesNotMatter(b, order, fv);
      }
      return UnknownChannel;
    }
    if WellNamed(templates) {
      ScheduledFeeds(b, fv, linked.value);
    }
    assert Templates(linked.value) == fv;
    return Ready(linked.value, s.boundaries, s.index);
  }

  lemma NamesOfPermutation(fv: seq<FilterTemplate>, gv: seq<FilterTemplate>)
    requires WellNamed(fv) && multiset(fv) == multiset(gv)
    ensures WellNamed(gv)
  {
    PermutationHasSameElements(fv, gv);
    forall i, j | 0 <= i < j < |gv|
      ensures gv[i].id != gv[j].id
    {
      var k, l := DifferentPlaces(fv, gv, i, j);
    }
  }

  /** A compiled scene and its memory. */
  class Scene {
    const behaviour: Behaviour
    const filters: seq<Linked>
    var memory: Memory

    ghost predicate Valid()
      reads this
    {
      Feeds(behaviour, filters) && Holds(behaviour, filters, memory)
    }

    constructor (b: Behaviour, filters: seq<Linked>, memory: Memory)
      requires Feeds(b, filters) && Holds(b, filters, memory)
      ensures Valid() && this.behaviour == b && this.filters == filters && this.memory == memory
    {
      this.behaviour, this.filters, this.memory := b, filters, memory;
    }

    /** Updates all filters once. */
    method InvokeFilters()
      requires Valid()
      modifies this
      ensures Valid()
      ensures memory == Cycle(behaviour, filters, old(memory))
      ensures forall l <- filters :: Solves(behaviour, l, old(memory), memory)
    {
      ghost var before := memory;
      for i := 0 to |filters|
        invariant Holds(behaviour, filters, memory) && Holds(behaviour, filters[..i], before)
        invariant memory == Cycle(behaviour, filters[..i], before)
      {
        assert filters[..i + 1][..i] == filters[..i];
        memory := Update(behaviour, filters[i], memory);
      }
      assert filters[..|filters|] == filters;
      CycleSolves(behaviour, filters, before);
    }
  }
}
