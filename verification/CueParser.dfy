/** The parser of the cue list: cues are separated by '$', time stamps by '|', channel values by '&';
    the values end up in flat tables, one for each channel type. */
module CueParser {
  import opened Collections

  const NPOS := 0xFFFF_FFFF_FFFF_FFFF
  const WORD := NPOS + 1

  // ----- strings, with 64-bit positions -----

  /** std::string::find: a search that starts behind the end finds nothing. */
  function Find(s: string, c: char, from: nat): (pos: nat)
    ensures pos == NPOS || (from <= pos < |s| && s[pos] == c)
    ensures forall i :: from <= i < |s| && i < pos ==> s[i] != c
    decreases |s| - from
  {
    if from >= |s| then NPOS else if s[from] == c then from else Find(s, c, from + 1)
  }

  /** The position behind a found character; wraps around to the front after an unsuccessful search. */
  function Next(pos: nat): nat {
    if pos == NPOS then 0 else pos + 1
  }

  /** The length of a part, with the wrap-around of an unsigned difference. */
  function Distance(from: nat, to: nat): nat
    requires from <= NPOS
  {
    if to >= from then to - from else to + WORD - from
  }

  /** std::string::substr, for a position inside of the string. */
  function Substr(s: string, pos: nat, count: nat): string
    requires pos <= |s|
  {
    if count > |s| - pos then s[pos..] else s[pos..pos + count]
  }

  predicate IsText(s: string) {
    |s| < NPOS
  }

  function Min(a: nat, b: nat): nat {
    if a <= b then a else b
  }

  datatype Part = Part(start: nat, end: nat)

  /** The parts `do_with_substr` hands to its function, one after the other. */
  function Parts(s: string, start: nat, end: nat, sep: char): (parts: seq<Part>)
    requires IsText(s) && start <= |s| && end <= |s|
    ensures |parts| >= 1 && parts[0].start == start
    ensures forall p <- parts :: p.start <= |s| && p.end <= end
    decreases |s| - start
  {
    var next := Find(s, sep, start);
    if next >= end then [Part(start, end)]
    else [Part(start, next)] + Parts(s, next + 1, end, sep)
  }

  function Joined(s: string, parts: seq<Part>, sep: char): string
    requires forall p <- parts :: p.start <= p.end <= |s|
  {
    if parts == [] then []
    else if |parts| == 1 then s[parts[0].start..parts[0].end]
    else s[parts[0].start..parts[0].end] + [sep] + Joined(s, parts[1..], sep)
  }

  predicate PartsWithin(s: string, parts: seq<Part>, start: nat, end: nat, sep: char) {
    forall p <- parts :: start <= p.start <= p.end <= end <= |s| && sep !in s[p.start..p.end]
  }

  /** The parts are free of separators, and joined again they give the range. */
  predicate Splits(s: string, parts: seq<Part>, start: nat, end: nat, sep: char)
    requires start <= end <= |s|
  {
    PartsWithin(s, parts, start, end, sep) && Joined(s, parts, sep) == s[start..end]
  }

  /** Inside of a well-placed range the parts are what lies between the separators. */
  lemma {:induction false} PartsSplit(s: string, start: nat, end: nat, sep: char)
    requires IsText(s) && start <= end <= |s|
    ensures Splits(s, Parts(s, start, end, sep), start, end, sep)
    decreases |s| - start
  {
    var next := Find(s, sep, start);
    if next < end {
      PartsSplit(s, next + 1, end, sep);
      FirstPart(s, start, next, end, Parts(s, start, end, sep), Parts(s, next + 1, end, sep), sep);
    } else {
      FindSkips(s, sep, start, end);
      OnlyPart(s, start, end, sep);
    }
  }

  lemma FirstPart(s: string, start: nat, next: nat, end: nat, parts: seq<Part>, rest: seq<Part>, sep: char)
    requires IsText(s) && start <= next < end <= |s| && next == Find(s, sep, start) && rest != []
    requires parts == [Part(start, next)] + rest && Splits(s, rest, next + 1, end, sep)
    ensures Splits(s, parts, start, end, sep)
  {
    FindSkips(s, sep, start, next);
    OnePartMore(s, start, next, end, rest, sep);
  }

  lemma FindSkips(s: string, sep: char, from: nat, to: nat)
    requires from <= to <= |s| && to <= Find(s, sep, from)
    ensures sep !in s[from..to]
  {
    forall i | 0 <= i < to - from
      ensures s[from..to][i] != sep
    {
      assert s[from..to][i] == s[from + i];
    }
  }

  lemma OnlyPart(s: string, start: nat, end: nat, sep: char)
    requires start <= end <= |s| && sep !in s[start..end]
    ensures Splits(s, [Part(start, end)], start, end, sep)
  {
  }

  lemma OnePartMore(s: string, start: nat, next: nat, end: nat, rest: seq<Part>, sep: char)
    requires start <= next < end <= |s| && s[next] == sep && sep !in s[start..next] && rest != []
    requires Splits(s, rest, next + 1, end, sep)
    ensures Splits(s, [Part(start, next)] + rest, start, end, sep)
  {
    var all := [Part(start, next)] + rest;
    assert all[1..] == rest;
    assert s[start..end] == s[start..next] + [sep] + s[next + 1..end];
  }

  // ----- cues -----

  datatype ChannelType = EIGHT_BIT | SIXTEEN_BIT | FLOAT | COLOR

  datatype TransitionType = EDGE | LINEAR | SIGMOIDAL | EASE_IN | EASE_OUT

  datatype Value = Number(number: real) | Pixel(hue: real, saturation: real, illumination: real)

  datatype KeyFrame = KeyFrame(value: Value, transition: TransitionType)

  datatype EndHandling = HOLD | START_AGAIN | NEXT_CUE | HOLDING

  datatype RestartHandling = DO_NOTHING | START_FROM_BEGIN

  datatype Cue = Cue(
    timestamps: seq<real>,
    eightBit: seq<KeyFrame>, sixteenBit: seq<KeyFrame>, float: seq<KeyFrame>, color: seq<KeyFrame>,
    endHandling: EndHandling, restartHandling: RestartHandling)
  {
    function Table(t: ChannelType): seq<KeyFrame> {
      match t
      case EIGHT_BIT => eightBit
      case SIXTEEN_BIT => sixteenBit
      case FLOAT => float
      case COLOR => color
    }

    function Push(t: ChannelType, f: KeyFrame): (c: Cue)
      ensures c.timestamps == timestamps && c.endHandling == endHandling && c.restartHandling == restartHandling
      ensures forall u :: c.Table(u) == if u == t then Table(u) + [f] else Table(u)
    {
      match t
      case EIGHT_BIT => this.(eightBit := eightBit + [f])
      case SIXTEEN_BIT => this.(sixteenBit := sixteenBit + [f])
      case FLOAT => this.(float := float + [f])
      case COLOR => this.(color := color + [f])
    }
  }

  const NEW_CUE := Cue([], [], [], [], [], NEXT_CUE, DO_NOTHING)

  /** The number readers of the standard library; `None` stands for the exceptions they throw. */
  datatype Numbers = Numbers(stoi: string -> Option<int>, stod: string -> Option<real>)

  function Clamp(x: int, max: int): real
    requires max >= 0
  {
    (if x > max then max else if x < 0 then 0 else x) as real
  }

  function TransitionOf(text: string): TransitionType {
    if text == "edg" then EDGE
    else if text == "sig" then SIGMOIDAL
    else if text == "e_i" then EASE_IN
    else if text == "e_o" then EASE_OUT
    else LINEAR
  }

  function NumberFrame(x: Option<real>, tr: TransitionType): Option<KeyFrame> {
    if x.None? then None else Some(KeyFrame(Number(x.value), tr))
  }

  function Clamped(x: Option<int>, max: nat): Option<real> {
    if x.None? then None else Some(Clamp(x.value, max))
  }

  function ParsePixel(n: Numbers, s: string, p: Part, tr: TransitionType): Option<KeyFrame>
    requires IsText(s) && p.start <= |s|
  {
    var first := Find(s, ',', p.start);
    var second := Find(s, ',', Next(first));
    var h := n.stod(Substr(s, p.start, Distance(p.start, first)));
    var sat := n.stod(Substr(s, Next(first), Distance(Next(first), second)));
    var i := n.stod(Substr(s, Next(second), Distance(Next(second), p.end)));
    if h.None? || sat.None? || i.None? then None
    else Some(KeyFrame(Pixel(h.value, sat.value, i.value), tr))
  }

  /** One channel value of a time stamp. */
  function ParseFrame(n: Numbers, s: string, p: Part, t: ChannelType): Option<KeyFrame>
    requires IsText(s) && p.start <= |s|
  {
    var sep := Find(s, '@', p.start);
    var tr := TransitionOf(Substr(s, Next(sep), Distance(Next(sep), p.end)));
    var text := Substr(s, p.start, Distance(p.start, sep));
    match t
    case EIGHT_BIT => NumberFrame(Clamped(n.stoi(text), 0xFF), tr)
    case SIXTEEN_BIT => NumberFrame(Clamped(n.stoi(text), 0xFFFF), tr)
    case FLOAT => NumberFrame(n.stod(text), tr)
    case COLOR => ParsePixel(n, s, p, tr)
  }

  /** The values of all channels at one time stamp: as many parts as channels, each one readable. */
  function ParseRow(n: Numbers, s: string, parts: seq<Part>, channels: seq<ChannelType>): (row: Option<seq<KeyFrame>>)
    requires IsText(s) && forall p <- parts :: p.start <= |s|
    ensures row.Some? ==> |row.value| == |channels| == |parts|
  {
    if |parts| != |channels| then None
    else if parts == [] then Some([])
    else
      var k := |parts| - 1;
      var init := ParseRow(n, s, parts[..k], channels[..k]);
      var last := ParseFrame(n, s, parts[k], channels[k]);
      if init.None? || last.None? then None else Some(init.value + [last.value])
  }

  /** What one time stamp of the text stands for; an empty one is skipped. */
  datatype Stamp = Skipped | Stamp(time: real, row: seq<KeyFrame>)

  function ParseStamp(n: Numbers, s: string, p: Part, channels: seq<ChannelType>): Option<Stamp>
    requires IsText(s) && p.start <= |s| && p.end <= |s|
  {
    if p.start >= p.end then Some(Skipped)
    else
      match n.stod(StampText(s, p))
      case None => None
      case Some(seconds) =>
        var row := ParseRow(n, s, ValuesOf(s, p), channels);
        if row.None? then None else Some(Stamp(seconds * 1000.0, row.value))
  }

  /** The time comes before the first ':'. */
  function StampText(s: string, p: Part): string
    requires IsText(s) && p.start <= |s|
  {
    Substr(s, p.start, Distance(p.start, Find(s, ':', p.start)))
  }

  /** What follows it are the values of the channels. */
  function ValuesOf(s: string, p: Part): (parts: seq<Part>)
    requires IsText(s) && p.start <= |s| && p.end <= |s|
    ensures forall q <- parts :: q.start <= |s|
  {
    Parts(s, Next(Find(s, ':', p.start)), p.end, '&')
  }

  // ----- flat tables and rows -----

  function Count(channels: seq<ChannelType>, t: ChannelType): nat {
    if channels == [] then 0
    else Count(channels[..|channels| - 1], t) + if channels[|channels| - 1] == t then 1 else 0
  }

  /** The values of one type in a row. */
  function OfType(row: seq<KeyFrame>, channels: seq<ChannelType>, t: ChannelType): (fs: seq<KeyFrame>)
    requires |row| == |channels|
    ensures |fs| == Count(channels, t)
  {
    if row == [] then []
    else
      var k := |row| - 1;
      var init := OfType(row[..k], channels[..k], t);
      if channels[k] == t then init + [row[k]] else init
  }

  predicate IsRow(row: seq<KeyFrame>, channels: seq<ChannelType>) {
    |row| == |channels|
  }

  predicate AreRows(rows: seq<seq<KeyFrame>>, channels: seq<ChannelType>) {
    forall r :: 0 <= r < |rows| ==> IsRow(rows[r], channels)
  }

  function FlatTable(rows: seq<seq<KeyFrame>>, channels: seq<ChannelType>, t: ChannelType): (fs: seq<KeyFrame>)
    requires AreRows(rows, channels)
    ensures |fs| == |rows| * Count(channels, t)
  {
    if rows == [] then []
    else
      FlatTable(rows[..|rows| - 1], channels, t) + OfType(rows[|rows| - 1], channels, t)
  }

  /** The tables of a cue hold one row for each time stamp. */
  ghost predicate Holds(c: Cue, rows: seq<seq<KeyFrame>>, channels: seq<ChannelType>) {
    && |c.timestamps| == |rows|
    && AreRows(rows, channels)
    && (forall t :: c.Table(t) == FlatTable(rows, channels, t))
  }

  /** A cue with full tables: time stamps times channels frames for each type. */
  predicate Complete(c: Cue, channels: seq<ChannelType>) {
    forall t :: |c.Table(t)| == |c.timestamps| * Count(channels, t)
  }

  lemma HoldsComplete(c: Cue, rows: seq<seq<KeyFrame>>, channels: seq<ChannelType>)
    requires Holds(c, rows, channels)
    ensures Complete(c, channels)
  {
  }

  lemma {:induction false} CountPrefix(channels: seq<ChannelType>, i: nat)
    requires i < |channels|
    ensures Count(channels[..i], channels[i]) < Count(channels, channels[i])
    decreases |channels|
  {
    var k := |channels| - 1;
    if i < k {
      CountPrefix(channels[..k], i);
      assert channels[..k][..i] == channels[..i];
    }
  }

  lemma {:induction false} OfTypeAt(row: seq<KeyFrame>, channels: seq<ChannelType>, i: nat)
    requires |row| == |channels| && i < |channels|
    ensures Count(channels[..i], channels[i]) < Count(channels, channels[i])
    ensures OfType(row, channels, channels[i])[Count(channels[..i], channels[i])] == row[i]
    decreases |channels|
  {
    var k := |channels| - 1;
    CountPrefix(channels, i);
    if i < k {
      OfTypeAt(row[..k], channels[..k], i);
      assert channels[..k][..i] == channels[..i];
    }
  }

  lemma RowStart(count: nat, rows: nat, r: nat, j: nat)
    requires r < rows && j < count
    ensures r * count + j < rows * count
    ensures r < rows - 1 ==> r * count + j < (rows - 1) * count
  {
    assert (r + 1) * count <= rows * count;
  }

  /** The flat index finds the value that was given for that channel at that time stamp. */
  lemma {:induction false} FrameAt(rows: seq<seq<KeyFrame>>, channels: seq<ChannelType>, r: nat, i: nat)
    requires AreRows(rows, channels) && r < |rows| && i < |channels|
    ensures var t := channels[i];
            var at := r * Count(channels, t) + Count(channels[..i], t);
            at < |rows| * Count(channels, t) && FlatTable(rows, channels, t)[at] == rows[r][i]
    decreases |rows|
  {
    var t, k := channels[i], |rows| - 1;
    var init, count := rows[..k], Count(channels, t);
    CountPrefix(channels, i);
    RowStart(count, |rows|, r, Count(channels[..i], t));
    assert |FlatTable(init, channels, t)| == k * count;
    if r < k {
      FrameAt(init, channels, r, i);
    } else {
      OfTypeAt(rows[k], channels, i);
    }
  }
}
