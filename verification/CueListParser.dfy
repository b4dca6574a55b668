/** The cue list parser at work: it pushes time stamps and frames into the cue being read, and gives up
    at the first part that cannot be read. */
module CueListParser {
  import opened Collections
  import opened CueParser

  // ----- what a text stands for, row by row -----

  function ParseStamps(n: Numbers, s: string, parts: seq<Part>, channels: seq<ChannelType>): Option<seq<Stamp>>
    requires IsText(s) && forall p <- parts :: p.start <= |s| && p.end <= |s|
  {
    if parts == [] then Some([])
    else
      var k := |parts| - 1;
      var init := ParseStamps(n, s, parts[..k], channels);
      var last := ParseStamp(n, s, parts[k], channels);
      if init.None? || last.None? then None else Some(init.value + [last.value])
  }

  function Times(stamps: seq<Stamp>): seq<real> {
    if stamps == [] then []
    else
      var last := stamps[|stamps| - 1];
      Times(stamps[..|stamps| - 1]) + if last.Skipped? then [] else [last.time]
  }

  function Rows(stamps: seq<Stamp>): (rows: seq<seq<KeyFrame>>)
    ensures |rows| == |Times(stamps)|
  {
    if stamps == [] then []
    else
      var last := stamps[|stamps| - 1];
      Rows(stamps[..|stamps| - 1]) + if last.Skipped? then [] else [last.row]
  }

  datatype Handling = Handling(end: EndHandling, restart: RestartHandling)

  function ParseConf(h: Handling, text: string, number: nat): Option<Handling> {
    if number > 1 then Some(h)
    else if text == "hold" then Some(h.(end := HOLD))
    else if text == "start_again" then Some(h.(end := START_AGAIN))
    else if text == "next_cue" then Some(h.(end := NEXT_CUE))
    else if text == "do_nothing" then Some(h.(restart := DO_NOTHING))
    else if text == "restart" then Some(h.(restart := START_FROM_BEGIN))
    else None
  }

  function ParseConfs(s: string, parts: seq<Part>): Option<Handling>
    requires IsText(s) && forall p <- parts :: p.start <= |s|
  {
    if parts == [] then Some(Handling(NEXT_CUE, DO_NOTHING))
    else
      var k := |parts| - 1;
      var init := ParseConfs(s, parts[..k]);
      if init.None? then None
      else ParseConf(init.value, Substr(s, parts[k].start, Distance(parts[k].start, parts[k].end)), k)
  }

  datatype Parsed = Parsed(stamps: seq<Stamp>, handling: Handling)

  /** The time stamps of a cue come before the first '#'. */
  function StampsOf(s: string, p: Part): (parts: seq<Part>)
    requires IsText(s) && p.start <= |s| && p.end <= |s|
    ensures forall q <- parts :: q.start <= |s| && q.end <= |s|
  {
    Parts(s, p.start, Min(Find(s, '#', p.start), p.end), '|')
  }

  /** What follows the first '#' are configurations. */
  function ConfsOf(s: string, p: Part): (parts: seq<Part>)
    requires IsText(s) && p.start <= |s| && p.end <= |s|
    ensures forall q <- parts :: q.start <= |s|
  {
    var endConf := Find(s, '#', p.start);
    if endConf < p.end then Parts(s, endConf + 1, p.end, '#') else []
  }

  function ParseCue(n: Numbers, s: string, p: Part, channels: seq<ChannelType>): Option<Parsed>
    requires IsText(s) && p.start <= |s| && p.end <= |s|
  {
    var stamps := ParseStamps(n, s, StampsOf(s, p), channels);
    var handling := ParseConfs(s, ConfsOf(s, p));
    if stamps.None? || handling.None? then None else Some(Parsed(stamps.value, handling.value))
  }

  function ParseCues(n: Numbers, s: string, parts: seq<Part>, channels: seq<ChannelType>): Option<seq<Parsed>>
    requires IsText(s) && forall p <- parts :: p.start <= |s| && p.end <= |s|
  {
    if parts == [] then Some([])
    else
      var k := |parts| - 1;
      var init := ParseCues(n, s, parts[..k], channels);
      var last := ParseCue(n, s, parts[k], channels);
      if init.None? || last.None? then None else Some(init.value + [last.value])
  }

  // ----- a failure anywhere is a failure of the whole -----

  lemma {:induction false} RowFailsEarly(n: Numbers, s: string, parts: seq<Part>, channels: seq<ChannelType>, k: nat)
    requires IsText(s) && (forall p <- parts :: p.start <= |s|) && k < |parts| && |parts| == |channels|
    requires ParseFrame(n, s, parts[k], channels[k]).None?
    ensures ParseRow(n, s, parts, channels).None?
    decreases |parts|
  {
    if k < |parts| - 1 {
      RowFailsEarly(n, s, parts[..|parts| - 1], channels[..|parts| - 1], k);
    }
  }

  lemma {:induction false} StampsFailEarly(n: Numbers, s: string, parts: seq<Part>, channels: seq<ChannelType>, k: nat)
    requires IsText(s) && (forall p <- parts :: p.start <= |s| && p.end <= |s|) && k < |parts|
    requires ParseStamp(n, s, parts[k], channels).None?
    ensures ParseStamps(n, s, parts, channels).None?
    decreases |parts|
  {
    if k < |parts| - 1 {
      StampsFailEarly(n, s, parts[..|parts| - 1], channels, k);
    }
  }

  lemma {:induction false} ConfsFailEarly(s: string, parts: seq<Part>, k: nat)
    requires IsText(s) && (forall p <- parts :: p.start <= |s|) && k <= |parts|
    requires ParseConfs(s, parts[..k]).None?
    ensures ParseConfs(s, parts).None?
    decreases |parts|
  {
    if k < |parts| {
      assert parts[..|parts| - 1][..k] == parts[..k];
      ConfsFailEarly(s, parts[..|parts| - 1], k);
    } else {
      assert parts[..k] == parts;
    }
  }

  lemma {:induction false} CuesFailEarly(n: Numbers, s: string, parts: seq<Part>, channels: seq<ChannelType>, k: nat)
    requires IsText(s) && (forall p <- parts :: p.start <= |s| && p.end <= |s|) && k < |parts|
    requires ParseCue(n, s, parts[k], channels).None?
    ensures ParseCues(n, s, parts, channels).None?
    decreases |parts|
  {
    if k < |parts| - 1 {
      CuesFailEarly(n, s, parts[..|parts| - 1], channels, k);
    }
  }

  // ----- one more part -----

  lemma RowGrows(n: Numbers, s: string, parts: seq<Part>, channels: seq<ChannelType>, i: nat, row: seq<KeyFrame>,
                 f: KeyFrame)
    requires IsText(s) && (forall p <- parts :: p.start <= |s|) && i < |parts| && i < |channels|
    requires ParseRow(n, s, parts[..i], channels[..i]) == Some(row)
    requires ParseFrame(n, s, parts[i], channels[i]) == Some(f)
    ensures ParseRow(n, s, parts[..i + 1], channels[..i + 1]) == Some(row + [f])
  {
    TakeTake(parts, i);
    TakeTake(channels, i);
  }

  lemma TakeTake<T>(xs: seq<T>, i: nat)
    requires i < |xs|
    ensures xs[..i + 1][..i] == xs[..i] && xs[..i + 1][i] == xs[i]
  {
  }

  lemma StampsGrow(n: Numbers, s: string, parts: seq<Part>, channels: seq<ChannelType>, i: nat, stamps: seq<Stamp>,
                   stamp: Stamp)
    requires IsText(s) && (forall p <- parts :: p.start <= |s| && p.end <= |s|) && i < |parts|
    requires ParseStamps(n, s, parts[..i], channels) == Some(stamps)
    requires ParseStamp(n, s, parts[i], channels) == Some(stamp)
    ensures ParseStamps(n, s, parts[..i + 1], channels) == Some(stamps + [stamp])
  {
    assert parts[..i + 1][..i] == parts[..i];
  }

  lemma CuesGrow(n: Numbers, s: string, parts: seq<Part>, channels: seq<ChannelType>, i: nat, parsed: seq<Parsed>,
                 p: Parsed)
    requires IsText(s) && (forall p <- parts :: p.start <= |s| && p.end <= |s|) && i < |parts|
    requires ParseCues(n, s, parts[..i], channels) == Some(parsed)
    requires ParseCue(n, s, parts[i], channels) == Some(p)
    ensures ParseCues(n, s, parts[..i + 1], channels) == Some(parsed + [p])
  {
    assert parts[..i + 1][..i] == parts[..i];
  }

  // ----- the tables being filled -----

  /** The tables of `c` are those of `c0` followed by a row. */
  ghost predicate Extended(c: Cue, c0: Cue, row: seq<KeyFrame>, channels: seq<ChannelType>) {
    && |row| == |channels|
    && c.timestamps == c0.timestamps && c.endHandling == c0.endHandling && c.restartHandling == c0.restartHandling
    && forall t :: c.Table(t) == c0.Table(t) + OfType(row, channels, t)
  }

  lemma PushExtends(c: Cue, c0: Cue, row: seq<KeyFrame>, channels: seq<ChannelType>, f: KeyFrame, t: ChannelType)
    requires Extended(c, c0, row, channels)
    ensures Extended(c.Push(t, f), c0, row + [f], channels + [t])
  {
    assert (row + [f])[..|row|] == row && (channels + [t])[..|row|] == channels;
  }

  lemma OneMoreChannel(channels: seq<ChannelType>, i: nat)
    requires i < |channels|
    ensures channels[..i + 1] == channels[..i] + [channels[i]]
  {
  }

  lemma RowCompletes(c: Cue, c0: Cue, time: real, row: seq<KeyFrame>, stamps: seq<Stamp>, channels: seq<ChannelType>)
    requires c0.timestamps == Times(stamps) && Holds(c0, Rows(stamps), channels)
    requires Extended(c, c0.(timestamps := c0.timestamps + [time]), row, channels)
    ensures c.timestamps == Times(stamps + [Stamp(time, row)]) && Holds(c, Rows(stamps + [Stamp(time, row)]), channels)
  {
    var stamps' := stamps + [Stamp(time, row)];
    assert stamps'[..|stamps|] == stamps;
    var rows, rows' := Rows(stamps), Rows(stamps');
    assert rows' == rows + [row];
    assert rows'[..|rows|] == rows;
    forall t
      ensures c.Table(t) == FlatTable(rows', channels, t)
    {
      assert c0.Table(t) == FlatTable(rows, channels, t);
    }
  }

  // ----- the parser: the cue being read is handed from step to step -----

  method HandleChannelFrame(n: Numbers, s: string, p: Part, channels: seq<ChannelType>, nrChannel: nat, c: Cue)
    returns (ok: bool, c': Cue)
    requires IsText(s) && p.start <= |s|
    ensures ok <==> nrChannel < |channels| && ParseFrame(n, s, p, channels[nrChannel]).Some?
    ensures c' == if ok then c.Push(channels[nrChannel], ParseFrame(n, s, p, channels[nrChannel]).value) else c
  {
    if nrChannel >= |channels| {
      return false, c;
    }
    var f := ParseFrame(n, s, p, channels[nrChannel]);
    if f.None? {
      return false, c;
    }
    return true, c.Push(channels[nrChannel], f.value);
  }

  /** The channel values of one time stamp; there must be one for each channel. */
  method HandleRow(n: Numbers, s: string, parts: seq<Part>, channels: seq<ChannelType>, c0: Cue)
    returns (ok: bool, c: Cue)
    requires IsText(s) && forall p <- parts :: p.start <= |s|
    ensures ok <==> ParseRow(n, s, parts, channels).Some?
    ensures ok ==> Extended(c, c0, ParseRow(n, s, parts, channels).value, channels)
  {
    ghost var row: seq<KeyFrame> := [];
    c := c0;
    for i := 0 to |parts|
      invariant |row| == i <= |channels|
      invariant ParseRow(n, s, parts[..i], channels[..i]) == Some(row)
      invariant Extended(c, c0, row, channels[..i])
    {
      ghost var before := c;
      ok, c := HandleChannelFrame(n, s, parts[i], channels, i, c);
      if !ok {
        if |parts| == |channels| {
          RowFailsEarly(n, s, parts, channels, i);
        }
        return false, c;
      }
      ghost var f := ParseFrame(n, s, parts[i], channels[i]).value;
      RowGrows(n, s, parts, channels, i, row, f);
      OneMoreChannel(channels, i);
      PushExtends(before, c0, row, channels[..i], f, channels[i]);
      row := row + [f];
    }
    if |parts| < |channels| {
      return false, c;
    }
    assert parts[..|parts|] == parts && channels[..|parts|] == channels;
    return true, c;
  }

  /** The cue holds the time stamps read so far. */
  ghost predicate HoldsStamps(c: Cue, stamps: seq<Stamp>, channels: seq<ChannelType>) {
    c.timestamps == Times(stamps) && Holds(c, Rows(stamps), channels)
  }

  /** One time stamp with its values; an empty part is skipped with a warning. */
  method HandleTimestamp(n: Numbers, s: string, p: Part, channels: seq<ChannelType>, c0: Cue, ghost stamps: seq<Stamp>)
    returns (ok: bool, c: Cue)
    requires IsText(s) && p.start <= |s| && p.end <= |s| && HoldsStamps(c0, stamps, channels)
    ensures ok <==> ParseStamp(n, s, p, channels).Some?
    ensures ok ==> HandlingOf(c) == HandlingOf(c0)
    ensures ok ==> HoldsStamps(c, stamps + [ParseStamp(n, s, p, channels).value], channels)
  {
    if p.start >= p.end {
      SkippedChangesNothing(stamps);
      return true, c0;
    }
    var seconds := n.stod(StampText(s, p));
    if seconds.None? {
      return false, c0;
    }
    var time := seconds.value * 1000.0;
    c := c0.(timestamps := c0.timestamps + [time]);
    ok, c := HandleRow(n, s, ValuesOf(s, p), channels, c);
    if ok {
      RowCompletes(c, c0, time, ParseRow(n, s, ValuesOf(s, p), channels).value, stamps, channels);
    }
  }

  method HandleTimestamps(n: Numbers, s: string, parts: seq<Part>, channels: seq<ChannelType>)
    returns (ok: bool, c: Cue)
    requires IsText(s) && forall p <- parts :: p.start <= |s| && p.end <= |s|
    ensures ok <==> ParseStamps(n, s, parts, channels).Some?
    ensures ok ==> HandlingOf(c) == HandlingOf(NEW_CUE)
    ensures ok ==> HoldsStamps(c, ParseStamps(n, s, parts, channels).value, channels)
  {
    EmptyHolds(channels);
    ghost var stamps: seq<Stamp> := [];
    c := NEW_CUE;
    for i := 0 to |parts|
      invariant HandlingOf(c) == HandlingOf(NEW_CUE) && HoldsStamps(c, stamps, channels)
      invariant ParseStamps(n, s, parts[..i], channels) == Some(stamps)
    {
      ok, c := HandleTimestamp(n, s, parts[i], channels, c, stamps);
      if !ok {
        StampsFailEarly(n, s, parts, channels, i);
        return false, c;
      }
      ghost var stamp := ParseStamp(n, s, parts[i], channels).value;
      StampsGrow(n, s, parts, channels, i, stamps, stamp);
      stamps := stamps + [stamp];
    }
    assert parts[..|parts|] == parts;
    return true, c;
  }

  method HandleCueConf(text: string, number: nat, c0: Cue) returns (ok: bool, c: Cue)
    ensures ok <==> ParseConf(HandlingOf(c0), text, number).Some?
    ensures SameTables(c, c0)
    ensures ok ==> HandlingOf(c) == ParseConf(HandlingOf(c0), text, number).value
  {
    ok, c := true, c0;
    if number > 1 {
    } else if text == "hold" {
      c := c.(endHandling := HOLD);
    } else if text == "start_again" {
      c := c.(endHandling := START_AGAIN);
    } else if text == "next_cue" {
      c := c.(endHandling := NEXT_CUE);
    } else if text == "do_nothing" {
      c := c.(restartHandling := DO_NOTHING);
    } else if text == "restart" {
      c := c.(restartHandling := START_FROM_BEGIN);
    } else {
      ok := false;
    }
  }

  method HandleCueConfs(s: string, parts: seq<Part>, c0: Cue) returns (ok: bool, c: Cue)
    requires IsText(s) && forall p <- parts :: p.start <= |s|
    requires HandlingOf(c0) == HandlingOf(NEW_CUE)
    ensures ok <==> ParseConfs(s, parts).Some?
    ensures ok ==> SameTables(c, c0) && HandlingOf(c) == ParseConfs(s, parts).value
  {
    c := c0;
    for i := 0 to |parts|
      invariant SameTables(c, c0) && ParseConfs(s, parts[..i]) == Some(HandlingOf(c))
    {
      assert parts[..i + 1][..i] == parts[..i];
      ok, c := HandleCueConf(Substr(s, parts[i].start, Distance(parts[i].start, parts[i].end)), i, c);
      if !ok {
        ConfsFailEarly(s, parts, i + 1);
        return false, c;
      }
    }
    assert parts[..|parts|] == parts;
    return true, c;
  }

  lemma CueIsRead(n: Numbers, s: string, p: Part, channels: seq<ChannelType>, d: Cue, c: Cue)
    requires IsText(s) && p.start <= |s| && p.end <= |s|
    requires ParseStamps(n, s, StampsOf(s, p), channels).Some? && ParseConfs(s, ConfsOf(s, p)).Some?
    requires HoldsStamps(d, ParseStamps(n, s, StampsOf(s, p), channels).value, channels)
    requires SameTables(c, d) && HandlingOf(c) == ParseConfs(s, ConfsOf(s, p)).value
    ensures ParseCue(n, s, p, channels).Some? && StandsFor(c, ParseCue(n, s, p, channels).value, channels)
  {
    SameTablesHold(d, c, Rows(ParseStamps(n, s, StampsOf(s, p), channels).value), channels);
  }

  lemma SameTablesHold(d: Cue, c: Cue, rows: seq<seq<KeyFrame>>, channels: seq<ChannelType>)
    requires SameTables(c, d) && Holds(d, rows, channels)
    ensures Holds(c, rows, channels)
  {
  }

  method HandleCue(n: Numbers, s: string, p: Part, channels: seq<ChannelType>) returns (ok: bool, c: Cue)
    requires IsText(s) && p.start <= |s| && p.end <= |s|
    ensures ok <==> ParseCue(n, s, p, channels).Some?
    ensures ok ==> StandsFor(c, ParseCue(n, s, p, channels).value, channels)
  {
    ok, c := HandleTimestamps(n, s, StampsOf(s, p), channels);
    if !ok {
      return false, c;
    }
    ghost var read := c;
    ok, c := HandleCueConfs(s, ConfsOf(s, p), c);
    if ok {
      CueIsRead(n, s, p, channels, read, c);
    }
  }

  /** Reads the whole cue list: it succeeds exactly for the texts that stand for a list of cues, and then
      it has filled the tables with what they say. */
  method ParseCueList(n: Numbers, s: string, channels: seq<ChannelType>) returns (ok: bool, cues: seq<Cue>)
    requires IsText(s)
    ensures ok <==> ParseCues(n, s, Parts(s, 0, |s|, '$'), channels).Some?
    ensures ok ==> |cues| >= 1 && AllStandFor(cues, ParseCues(n, s, Parts(s, 0, |s|, '$'), channels).value, channels)
  {
    var parts := Parts(s, 0, |s|, '$');
    ghost var parsed: seq<Parsed> := [];
    cues := [];
    for i := 0 to |parts|
      invariant |cues| == i && ParseCues(n, s, parts[..i], channels) == Some(parsed)
      invariant AllStandFor(cues, parsed, channels)
    {
      var c;
      ok, c := HandleCue(n, s, parts[i], channels);
      if !ok {
        CuesFailEarly(n, s, parts, channels, i);
        return false, cues;
      }
      ghost var p := ParseCue(n, s, parts[i], channels).value;
      CuesGrow(n, s, parts, channels, i, parsed, p);
      cues := cues + [c];
      parsed := parsed + [p];
    }
    assert parts[..|parts|] == parts;
    return true, cues;
  }

  function HandlingOf(c: Cue): Handling {
    Handling(c.endHandling, c.restartHandling)
  }

  predicate SameTables(c: Cue, d: Cue) {
    c.timestamps == d.timestamps && forall t :: c.Table(t) == d.Table(t)
  }

  /** The flat cue holds what the text of the cue says. */
  ghost predicate StandsFor(c: Cue, p: Parsed, channels: seq<ChannelType>) {
    c.timestamps == Times(p.stamps) && Holds(c, Rows(p.stamps), channels) && HandlingOf(c) == p.handling
  }

  ghost predicate AllStandFor(cues: seq<Cue>, parsed: seq<Parsed>, channels: seq<ChannelType>) {
    |cues| == |parsed| && forall i :: 0 <= i < |cues| ==> StandsFor(cues[i], parsed[i], channels)
  }

  lemma EmptyHolds(channels: seq<ChannelType>)
    ensures Holds(NEW_CUE, Rows([]), channels)
  {
  }

  lemma SkippedChangesNothing(stamps: seq<Stamp>)
    ensures Times(stamps + [Skipped]) == Times(stamps) && Rows(stamps + [Skipped]) == Rows(stamps)
  {
    assert (stamps + [Skipped])[..|stamps|] == stamps;
  }

  lemma AllComplete(cues: seq<Cue>, parsed: seq<Parsed>, channels: seq<ChannelType>)
    requires AllStandFor(cues, parsed, channels)
    ensures forall c <- cues :: Complete(c, channels)
  {
    forall c | c in cues
      ensures Complete(c, channels)
    {
      var i :| 0 <= i < |cues| && cues[i] == c;
      HoldsComplete(c, Rows(parsed[i].stamps), channels);
    }
  }

  /** In a parsed cue, the flat table gives for channel `i` at time stamp `r` the value the text has there. */
  lemma TableAt(c: Cue, p: Parsed, channels: seq<ChannelType>, r: nat, i: nat)
    requires StandsFor(c, p, channels) && r < |c.timestamps| && i < |channels|
    ensures var t := channels[i];
            var at := r * Count(channels, t) + Count(channels[..i], t);
            && at < |c.Table(t)| && AreRows(Rows(p.stamps), channels)
            && c.Table(t)[at] == Rows(p.stamps)[r][i]
  {
    FrameAt(Rows(p.stamps), channels, r, i);
  }
}
