/** Cue list texts as they are written, and the proof that the parser reads them so. */
module CueText {
  import opened Collections
  import opened CueParser
  import opened CueListParser

  // ----- the text -----

  /** The value of a channel; a colour has three numbers. */
  datatype ValueText =
    | Plain(value: string, transition: string)
    | Color(hue: string, saturation: string, illumination: string, transition: string)

  datatype StampText = StampText(time: string, values: seq<ValueText>)

  datatype CueText = CueText(stamps: seq<StampText>, confs: seq<string>)

  function Written(v: ValueText): string {
    match v
    case Plain(value, transition) => value + "@" + transition
    case Color(hue, saturation, illumination, transition) =>
      hue + "," + saturation + "," + (illumination + "@" + transition)
  }

  function Between(texts: seq<string>, sep: char): string {
    if texts == [] then [] else if |texts| == 1 then texts[0] else texts[0] + [sep] + Between(texts[1..], sep)
  }

  function ValuesWritten(values: seq<ValueText>): (texts: seq<string>)
    ensures |texts| == |values|
  {
    MapSeq(Written, values)
  }

  function StampWritten(st: StampText): string {
    st.time + ":" + Between(ValuesWritten(st.values), '&')
  }

  function CueWritten(c: CueText): string {
    Between(MapSeq(StampWritten, c.stamps), '|') + if c.confs == [] then [] else "#" + Between(c.confs, '#')
  }

  function ListWritten(cues: seq<CueText>): string {
    Between(MapSeq(CueWritten, cues), '$')
  }

  // ----- what it says -----

  function CurveOf(transition: string): TransitionType {
    if transition !in {"edg", "sig", "e_i", "e_o"} then LINEAR
    else if transition == "e_i" then EASE_IN
    else if transition == "e_o" then EASE_OUT
    else if transition == "sig" then SIGMOIDAL
    else EDGE
  }

  /** Integers are brought into the range of their channel. */
  function InChannel(x: int, max: nat): real {
    if x < 0 then 0.0 else if x <= max then x as real else max as real
  }

  function PixelSaid(h: Option<real>, s: Option<real>, i: Option<real>, tr: TransitionType): Option<KeyFrame> {
    match (h, s, i)
    case (Some(hue), Some(saturation), Some(illumination)) =>
      Some(KeyFrame(Pixel(hue, saturation, illumination), tr))
    case _ => None
  }

  function ValueSaid(n: Numbers, t: ChannelType, v: ValueText): Option<KeyFrame> {
    match (t, v)
    case (EIGHT_BIT, Plain(value, tr)) =>
      (match n.stoi(value) case Some(x) => Some(KeyFrame(Number(InChannel(x, 255)), CurveOf(tr))) case None => None)
    case (SIXTEEN_BIT, Plain(value, tr)) =>
      (match n.stoi(value) case Some(x) => Some(KeyFrame(Number(InChannel(x, 65535)), CurveOf(tr))) case None => None)
    case (FLOAT, Plain(value, tr)) =>
      (match n.stod(value) case Some(x) => Some(KeyFrame(Number(x), CurveOf(tr))) case None => None)
    case (COLOR, Color(hue, saturation, illumination, tr)) =>
      PixelSaid(n.stod(hue), n.stod(saturation), n.stod(illumination + ['@'] + tr), CurveOf(tr))
    case _ => None
  }

  function RowSaid(n: Numbers, channels: seq<ChannelType>, values: seq<ValueText>): Option<seq<KeyFrame>> {
    if |values| != |channels| then None
    else if values == [] then Some([])
    else
      var k := |values| - 1;
      match (RowSaid(n, channels[..k], values[..k]), ValueSaid(n, channels[k], values[k]))
      case (Some(row), Some(f)) => Some(row + [f])
      case _ => None
  }

  /** Seconds in the text, milliseconds in the cue. */
  function TimedRow(seconds: Option<real>, row: Option<seq<KeyFrame>>): Option<Stamp> {
    match (seconds, row)
    case (Some(time), Some(fs)) => Some(Stamp(1000.0 * time, fs))
    case _ => None
  }

  function StampSaid(n: Numbers, channels: seq<ChannelType>, st: StampText): Option<Stamp> {
    TimedRow(n.stod(st.time), RowSaid(n, channels, st.values))
  }

  function StampsSaid(n: Numbers, channels: seq<ChannelType>, stamps: seq<StampText>): Option<seq<Stamp>> {
    if stamps == [] then Some([])
    else
      var k := |stamps| - 1;
      match (StampsSaid(n, channels, stamps[..k]), StampSaid(n, channels, stamps[k]))
      case (Some(all), Some(st)) => Some(all + [st])
      case _ => None
  }

  /** One word of the configuration. */
  function WordSaid(h: Handling, word: string): Option<Handling> {
    if word == "restart" then Some(Handling(h.end, START_FROM_BEGIN))
    else if word == "do_nothing" then Some(Handling(h.end, DO_NOTHING))
    else if word == "next_cue" then Some(Handling(NEXT_CUE, h.restart))
    else if word == "start_again" then Some(Handling(START_AGAIN, h.restart))
    else if word == "hold" then Some(Handling(HOLD, h.restart))
    else None
  }

  /** The first two words count. */
  function HandlingSaid(confs: seq<string>): Option<Handling> {
    var none := Handling(NEXT_CUE, DO_NOTHING);
    if confs == [] then Some(none)
    else
      match WordSaid(none, confs[0])
      case None => None
      case Some(h) => if |confs| == 1 then Some(h) else WordSaid(h, confs[1])
  }

  function CueSaid(n: Numbers, channels: seq<ChannelType>, c: CueText): Option<Parsed> {
    Both(StampsSaid(n, channels, c.stamps), HandlingSaid(c.confs))
  }

  function Both(stamps: Option<seq<Stamp>>, handling: Option<Handling>): Option<Parsed> {
    match (stamps, handling)
    case (Some(sts), Some(h)) => Some(Parsed(sts, h))
    case _ => None
  }

  function ListSaid(n: Numbers, channels: seq<ChannelType>, cues: seq<CueText>): Option<seq<Parsed>> {
    if cues == [] then Some([])
    else
      var k := |cues| - 1;
      match (ListSaid(n, channels, cues[..k]), CueSaid(n, channels, cues[k]))
      case (Some(all), Some(p)) => Some(all + [p])
      case _ => None
  }

  // ----- finding the pieces -----

  lemma {:induction false} FindsFirst(s: string, c: char, from: nat, to: nat)
    requires from <= to < |s| && s[to] == c && c !in s[from..to]
    ensures Find(s, c, from) == to
    decreases |s| - from
  {
    if from < to {
      assert s[from] == s[from..to][0];
      assert s[from..to][1..] == s[from + 1..to];
      FindsFirst(s, c, from + 1, to);
    }
  }

  lemma FindsNone(s: string, c: char, from: nat, to: nat)
    requires IsText(s) && from <= to <= |s| && c !in s[from..to]
    ensures Find(s, c, from) >= to
  {
  }

  /** The part reads as the text. */
  predicate Reads(s: string, p: Part, text: string) {
    p.start <= p.end <= |s| && s[p.start..p.end] == text
  }

  /** Where a part is made of two pieces around a character. */
  lemma SplitAt(s: string, p: Part, a: string, c: char, b: string)
    requires Reads(s, p, a + [c] + b)
    ensures var at := p.start + |a|;
            at < p.end && s[at] == c && Reads(s, Part(p.start, at), a) && Reads(s, Part(at + 1, p.end), b)
  {
    var text, at := a + [c] + b, p.start + |a|;
    assert |text| == |a| + 1 + |b|;
    assert s[at] == text[|a|];
    assert s[p.start..at] == text[..|a|] == a;
    assert s[at + 1..p.end] == text[|a| + 1..] == b;
  }

  lemma SubstrReads(s: string, p: Part, text: string)
    requires IsText(s) && Reads(s, p, text)
    ensures Substr(s, p.start, Distance(p.start, p.end)) == text
  {
  }

  ghost predicate AllRead(s: string, parts: seq<Part>, texts: seq<string>) {
    |parts| == |texts| && forall k :: 0 <= k < |parts| ==> Reads(s, parts[k], texts[k])
  }

  lemma AllReadMore(s: string, first: Part, rest: seq<Part>, texts: seq<string>)
    requires texts != [] && Reads(s, first, texts[0]) && AllRead(s, rest, texts[1..])
    ensures AllRead(s, [first] + rest, texts)
  {
    forall k | 0 <= k < |texts|
      ensures Reads(s, ([first] + rest)[k], texts[k])
    {
      assert k > 0 ==> texts[k] == texts[1..][k - 1] && Reads(s, rest[k - 1], texts[1..][k - 1]);
    }
  }

  lemma OnePart(s: string, p: Part, text: string, sep: char)
    requires IsText(s) && Reads(s, p, text) && sep !in text
    ensures Parts(s, p.start, p.end, sep) == [p]
  {
    FindsNone(s, sep, p.start, p.end);
  }

  lemma FirstPartReads(s: string, p: Part, text: string, rest: string, sep: char)
    requires IsText(s) && Reads(s, p, text + [sep] + rest) && sep !in text
    ensures var at := p.start + |text|;
            && at < p.end && Reads(s, Part(p.start, at), text) && Reads(s, Part(at + 1, p.end), rest)
            && Parts(s, p.start, p.end, sep) == [Part(p.start, at)] + Parts(s, at + 1, p.end, sep)
  {
    SplitAt(s, p, text, sep, rest);
    FindsFirst(s, sep, p.start, p.start + |text|);
  }

  /** Texts between separators are the parts of a range. */
  lemma {:induction false} PartsRead(s: string, p: Part, texts: seq<string>, sep: char)
    requires IsText(s) && texts != [] && Reads(s, p, Between(texts, sep)) && forall t <- texts :: sep !in t
    ensures AllRead(s, Parts(s, p.start, p.end, sep), texts)
    decreases |texts|
  {
    assert texts[0] in texts;
    if |texts| == 1 {
      OnePart(s, p, texts[0], sep);
    } else {
      var at := p.start + |texts[0]|;
      FirstPartReads(s, p, texts[0], Between(texts[1..], sep), sep);
      PartsRead(s, Part(at + 1, p.end), texts[1..], sep);
      AllReadMore(s, Part(p.start, at), Parts(s, at + 1, p.end, sep), texts);
    }
  }

  // ----- clean texts -----

  const SEPARATORS := {'@', ',', ':', '&', '|', '#', '$'}

  /** No separator but those allowed. */
  predicate OnlyWith(text: string, allowed: set<char>) {
    forall c <- text :: c in SEPARATORS ==> c in allowed
  }

  predicate CleanValue(v: ValueText) {
    match v
    case Plain(value, tr) => OnlyWith(value, {}) && OnlyWith(tr, {})
    case Color(hue, saturation, illumination, tr) =>
      OnlyWith(hue, {}) && OnlyWith(saturation, {}) && OnlyWith(illumination, {}) && OnlyWith(tr, {})
  }

  predicate AllClean(values: seq<ValueText>) {
    forall v <- values :: CleanValue(v)
  }

  predicate CleanStamp(st: StampText) {
    OnlyWith(st.time, {}) && st.values != [] && AllClean(st.values)
  }

  predicate CleanCue(c: CueText) {
    c.stamps != [] && (forall st <- c.stamps :: CleanStamp(st)) && forall word <- c.confs :: OnlyWith(word, {})
  }

  lemma {:induction false} BetweenOnlyWith(texts: seq<string>, sep: char, allowed: set<char>)
    requires forall t <- texts :: OnlyWith(t, allowed)
    ensures OnlyWith(Between(texts, sep), allowed + {sep})
    decreases |texts|
  {
    if |texts| > 1 {
      assert texts[0] in texts;
      BetweenOnlyWith(texts[1..], sep, allowed);
    } else if |texts| == 1 {
      assert texts[0] in texts;
    }
  }

  lemma ValueOnlyWith(v: ValueText)
    requires CleanValue(v)
    ensures OnlyWith(Written(v), {'@', ','})
  {
  }

  lemma StampOnlyWith(st: StampText)
    requires CleanStamp(st)
    ensures OnlyWith(StampWritten(st), {'@', ',', ':', '&'})
  {
    var texts := ValuesWritten(st.values);
    MapSeqAt(Written, st.values);
    forall t | t in texts
      ensures OnlyWith(t, {'@', ','})
    {
      var k :| 0 <= k < |texts| && texts[k] == t;
      ValueOnlyWith(st.values[k]);
    }
    BetweenOnlyWith(texts, '&', {'@', ','});
  }

  lemma CueOnlyWith(c: CueText)
    requires CleanCue(c)
    ensures OnlyWith(Between(MapSeq(StampWritten, c.stamps), '|'), {'@', ',', ':', '&', '|'})
    ensures OnlyWith(CueWritten(c), {'@', ',', ':', '&', '|', '#'})
  {
    var texts := MapSeq(StampWritten, c.stamps);
    MapSeqAt(StampWritten, c.stamps);
    forall t | t in texts
      ensures OnlyWith(t, {'@', ',', ':', '&'})
    {
      var k :| 0 <= k < |texts| && texts[k] == t;
      StampOnlyWith(c.stamps[k]);
    }
    BetweenOnlyWith(texts, '|', {'@', ',', ':', '&'});
    BetweenOnlyWith(c.confs, '#', {});
  }

  // ----- the parser reads what is written -----

  /** Number channels are given numbers, colour channels colours. */
  predicate Suits(t: ChannelType, v: ValueText) {
    t == COLOR <==> v.Color?
  }

  lemma TransitionReads(s: string, p: Part, at: nat, transition: string)
    requires IsText(s) && Reads(s, Part(at + 1, p.end), transition)
    ensures TransitionOf(Substr(s, Next(at), Distance(Next(at), p.end))) == CurveOf(transition)
  {
    SubstrReads(s, Part(at + 1, p.end), transition);
  }

  lemma PlainPieces(s: string, p: Part, value: string, transition: string)
    requires IsText(s) && Reads(s, p, value + ['@'] + transition) && '@' !in value
    ensures var at := Find(s, '@', p.start);
            && Substr(s, p.start, Distance(p.start, at)) == value
            && TransitionOf(Substr(s, Next(at), Distance(Next(at), p.end))) == CurveOf(transition)
  {
    var at := p.start + |value|;
    SplitAt(s, p, value, '@', transition);
    FindsFirst(s, '@', p.start, at);
    TransitionReads(s, p, at, transition);
    SubstrReads(s, Part(p.start, at), value);
  }

  lemma PlainReads(n: Numbers, s: string, p: Part, t: ChannelType, v: ValueText)
    requires IsText(s) && Reads(s, p, Written(v)) && v.Plain? && t != COLOR && CleanValue(v)
    ensures ParseFrame(n, s, p, t) == ValueSaid(n, t, v)
  {
    PlainPieces(s, p, v.value, v.transition);
  }

  /** Where the pieces of a colour are: its three numbers, the last one with the transition, and that. */
  lemma ColorPieces(s: string, p: Part, hue: string, saturation: string, illumination: string, transition: string)
    returns (first: nat, second: nat, at: nat)
    requires Reads(s, p, hue + [','] + (saturation + [','] + (illumination + ['@'] + transition)))
    ensures p.start <= first < second < at < p.end && s[first] == ',' && s[second] == ',' && s[at] == '@'
    ensures Reads(s, Part(p.start, first), hue) && Reads(s, Part(first + 1, second), saturation)
    ensures Reads(s, Part(second + 1, p.end), illumination + ['@'] + transition)
    ensures Reads(s, Part(second + 1, at), illumination) && Reads(s, Part(at + 1, p.end), transition)
  {
    var last := illumination + ['@'] + transition;
    first := p.start + |hue|;
    second := first + 1 + |saturation|;
    at := second + 1 + |illumination|;
    SplitAt(s, p, hue, ',', saturation + [','] + last);
    SplitAt(s, Part(first + 1, p.end), saturation, ',', last);
    SplitAt(s, Part(second + 1, p.end), illumination, '@', transition);
  }

  lemma ColorNumbers(n: Numbers, s: string, p: Part, hue: string, saturation: string, last: string,
                     first: nat, second: nat, tr: TransitionType)
    requires IsText(s) && p.start <= first < second < p.end <= |s| && s[first] == ',' && s[second] == ','
    requires Reads(s, Part(p.start, first), hue) && Reads(s, Part(first + 1, second), saturation)
    requires Reads(s, Part(second + 1, p.end), last) && ',' !in hue && ',' !in saturation
    ensures ParsePixel(n, s, p, tr) == PixelSaid(n.stod(hue), n.stod(saturation), n.stod(last), tr)
  {
    FindsFirst(s, ',', p.start, first);
    FindsFirst(s, ',', first + 1, second);
    SubstrReads(s, Part(p.start, first), hue);
    SubstrReads(s, Part(first + 1, second), saturation);
    SubstrReads(s, Part(second + 1, p.end), last);
  }

  lemma NoAtBefore(s: string, from: nat, first: nat, second: nat, at: nat)
    requires from <= first < second < at <= |s| && s[first] == ',' && s[second] == ','
    requires '@' !in s[from..first] && '@' !in s[first + 1..second] && '@' !in s[second + 1..at]
    ensures '@' !in s[from..at]
  {
    assert s[from..at] == s[from..first] + [','] + s[first + 1..second] + [','] + s[second + 1..at];
  }

  lemma ColorCurve(s: string, p: Part, hue: string, saturation: string, illumination: string, transition: string,
                   first: nat, second: nat, at: nat)
    requires IsText(s) && p.start <= first < second < at < p.end <= |s|
    requires s[first] == ',' && s[second] == ',' && s[at] == '@'
    requires Reads(s, Part(p.start, first), hue) && Reads(s, Part(first + 1, second), saturation)
    requires Reads(s, Part(second + 1, at), illumination) && Reads(s, Part(at + 1, p.end), transition)
    requires '@' !in hue && '@' !in saturation && '@' !in illumination
    ensures Find(s, '@', p.start) == at
    ensures TransitionOf(Substr(s, Next(at), Distance(Next(at), p.end))) == CurveOf(transition)
  {
    NoAtBefore(s, p.start, first, second, at);
    FindsFirst(s, '@', p.start, at);
    TransitionReads(s, p, at, transition);
  }

  lemma ColorTexts(n: Numbers, s: string, p: Part, hue: string, saturation: string, illumination: string,
                   transition: string)
    requires IsText(s) && Reads(s, p, hue + [','] + (saturation + [','] + (illumination + ['@'] + transition)))
    requires '@' !in hue && '@' !in saturation && '@' !in illumination && ',' !in hue && ',' !in saturation
    ensures ParseFrame(n, s, p, COLOR) ==
            PixelSaid(n.stod(hue), n.stod(saturation), n.stod(illumination + ['@'] + transition), CurveOf(transition))
  {
    var first, second, at := ColorPieces(s, p, hue, saturation, illumination, transition);
    ColorCurve(s, p, hue, saturation, illumination, transition, first, second, at);
    ColorNumbers(n, s, p, hue, saturation, illumination + ['@'] + transition, first, second, CurveOf(transition));
  }

  lemma ColorReads(n: Numbers, s: string, p: Part, v: ValueText)
    requires IsText(s) && Reads(s, p, Written(v)) && v.Color? && CleanValue(v)
    ensures ParseFrame(n, s, p, COLOR) == ValueSaid(n, COLOR, v)
  {
    assert Written(v) == v.hue + [','] + (v.saturation + [','] + (v.illumination + ['@'] + v.transition));
    ColorTexts(n, s, p, v.hue, v.saturation, v.illumination, v.transition);
  }

  lemma FrameReads(n: Numbers, s: string, p: Part, t: ChannelType, v: ValueText)
    requires IsText(s) && Reads(s, p, Written(v)) && CleanValue(v) && Suits(t, v)
    ensures ParseFrame(n, s, p, t) == ValueSaid(n, t, v)
  {
    if v.Plain? {
      PlainReads(n, s, p, t, v);
    } else {
      ColorReads(n, s, p, v);
    }
  }

  ghost predicate SuitsAll(channels: seq<ChannelType>, values: seq<ValueText>) {
    forall k :: 0 <= k < |values| && k < |channels| ==> Suits(channels[k], values[k])
  }

  lemma {:induction false} RowReads(n: Numbers, s: string, parts: seq<Part>, channels: seq<ChannelType>,
                                    values: seq<ValueText>)
    requires IsText(s) && |parts| == |values| && forall p <- parts :: p.start <= |s|
    requires forall k :: 0 <= k < |parts| && k < |channels| ==>
               ParseFrame(n, s, parts[k], channels[k]) == ValueSaid(n, channels[k], values[k])
    ensures ParseRow(n, s, parts, channels) == RowSaid(n, channels, values)
    decreases |values|
  {
    if values != [] && |values| == |channels| {
      var k := |values| - 1;
      RowReads(n, s, parts[..k], channels[..k], values[..k]);
    }
  }

  lemma ColonFound(s: string, p: Part, time: string, at: nat)
    requires IsText(s) && at < p.end <= |s| && Find(s, ':', p.start) == at && Reads(s, Part(p.start, at), time)
    ensures CueParser.StampText(s, p) == time && ValuesOf(s, p) == Parts(s, at + 1, p.end, '&')
  {
    SubstrReads(s, Part(p.start, at), time);
  }

  lemma StampIs(n: Numbers, s: string, p: Part, channels: seq<ChannelType>, time: string, row: Option<seq<KeyFrame>>)
    requires IsText(s) && p.start < p.end <= |s| && CueParser.StampText(s, p) == time
    requires ParseRow(n, s, ValuesOf(s, p), channels) == row
    ensures ParseStamp(n, s, p, channels) == TimedRow(n.stod(time), row)
  {
  }

  /** Where the values of a stamp begin. */
  lemma ColonSplits(s: string, p: Part, time: string, values: string) returns (at: nat)
    requires IsText(s) && Reads(s, p, time + [':'] + values) && ':' !in time
    ensures p.start <= at < p.end <= |s| && Find(s, ':', p.start) == at
    ensures Reads(s, Part(p.start, at), time) && Reads(s, Part(at + 1, p.end), values)
  {
    at := p.start + |time|;
    SplitAt(s, p, time, ':', values);
    FindsFirst(s, ':', p.start, at);
  }

  lemma ValuesOfRead(n: Numbers, s: string, p: Part, channels: seq<ChannelType>, time: string,
                     values: seq<ValueText>, at: nat)
    requires IsText(s) && p.start <= at < p.end <= |s| && Find(s, ':', p.start) == at
    requires Reads(s, Part(p.start, at), time) && Reads(s, Part(at + 1, p.end), Between(ValuesWritten(values), '&'))
    requires values != [] && AllClean(values) && SuitsAll(channels, values)
    ensures CueParser.StampText(s, p) == time
    ensures ParseRow(n, s, ValuesOf(s, p), channels) == RowSaid(n, channels, values)
  {
    ColonFound(s, p, time, at);
    ValuesRead(n, s, at + 1, p.end, channels, values);
  }

  lemma StampReads(n: Numbers, s: string, p: Part, channels: seq<ChannelType>, st: StampText)
    requires IsText(s) && Reads(s, p, StampWritten(st)) && CleanStamp(st) && SuitsAll(channels, st.values)
    ensures ParseStamp(n, s, p, channels) == StampSaid(n, channels, st)
  {
    var values := Between(ValuesWritten(st.values), '&');
    assert StampWritten(st) == st.time + [':'] + values;
    var at := ColonSplits(s, p, st.time, values);
    ValuesOfRead(n, s, p, channels, st.time, st.values, at);
    StampIs(n, s, p, channels, st.time, RowSaid(n, channels, st.values));
  }

  lemma ValuesRead(n: Numbers, s: string, from: nat, to: nat, channels: seq<ChannelType>, values: seq<ValueText>)
    requires IsText(s) && values != [] && Reads(s, Part(from, to), Between(ValuesWritten(values), '&'))
    requires AllClean(values) && SuitsAll(channels, values)
    ensures ParseRow(n, s, Parts(s, from, to, '&'), channels) == RowSaid(n, channels, values)
  {
    var parts := Parts(s, from, to, '&');
    NoAmpersand(values);
    PartsRead(s, Part(from, to), ValuesWritten(values), '&');
    MapSeqAt(Written, values);
    forall k | 0 <= k < |parts| && k < |channels|
      ensures ParseFrame(n, s, parts[k], channels[k]) == ValueSaid(n, channels[k], values[k])
    {
      assert values[k] in values && Reads(s, parts[k], ValuesWritten(values)[k]);
      FrameReads(n, s, parts[k], channels[k], values[k]);
    }
    RowReads(n, s, parts, channels, values);
  }

  lemma NoAmpersand(values: seq<ValueText>)
    requires AllClean(values)
    ensures forall t <- ValuesWritten(values) :: '&' !in t
  {
    MapSeqAt(Written, values);
    forall t | t in ValuesWritten(values)
      ensures '&' !in t
    {
      var k :| 0 <= k < |values| && ValuesWritten(values)[k] == t;
      ValueOnlyWith(values[k]);
    }
  }

  ghost predicate SuitsStamps(channels: seq<ChannelType>, stamps: seq<StampText>) {
    forall st <- stamps :: CleanStamp(st) && SuitsAll(channels, st.values)
  }

  lemma {:induction false} StampsRead(n: Numbers, s: string, parts: seq<Part>, channels: seq<ChannelType>,
                                      stamps: seq<StampText>)
    requires IsText(s) && |parts| == |stamps| && forall p <- parts :: p.start <= |s| && p.end <= |s|
    requires forall k :: 0 <= k < |parts| ==>
               ParseStamp(n, s, parts[k], channels) == StampSaid(n, channels, stamps[k])
    ensures ParseStamps(n, s, parts, channels) == StampsSaid(n, channels, stamps)
    decreases |stamps|
  {
    if stamps != [] {
      StampsRead(n, s, parts[..|stamps| - 1], channels, stamps[..|stamps| - 1]);
    }
  }

  lemma OneWordMore(confs: seq<string>)
    requires confs != []
    ensures var k := |confs| - 1;
            HandlingSaid(confs) ==
            match HandlingSaid(confs[..k])
            case None => None
            case Some(h) => if k > 1 then Some(h) else WordSaid(h, confs[k])
  {
    var k := |confs| - 1;
    if k > 0 {
      assert confs[..k][0] == confs[0];
    }
  }

  lemma WordReads(h: Handling, word: string, k: nat)
    ensures ParseConf(h, word, k) == if k > 1 then Some(h) else WordSaid(h, word)
  {
  }

  lemma {:induction false} ConfsRead(s: string, parts: seq<Part>, confs: seq<string>)
    requires IsText(s) && AllRead(s, parts, confs) && forall p <- parts :: p.start <= |s|
    ensures ParseConfs(s, parts) == HandlingSaid(confs)
    decreases |parts|
  {
    if parts != [] {
      var k := |parts| - 1;
      ConfsRead(s, parts[..k], confs[..k]);
      SubstrReads(s, parts[k], confs[k]);
      OneWordMore(confs);
      if HandlingSaid(confs[..k]).Some? {
        WordReads(HandlingSaid(confs[..k]).value, confs[k], k);
      }
    }
  }

  lemma NoBar(stamps: seq<StampText>)
    requires forall st <- stamps :: CleanStamp(st)
    ensures forall t <- MapSeq(StampWritten, stamps) :: '|' !in t
  {
    var texts := MapSeq(StampWritten, stamps);
    MapSeqAt(StampWritten, stamps);
    forall t | t in texts
      ensures '|' !in t
    {
      var k :| 0 <= k < |texts| && texts[k] == t;
      StampOnlyWith(stamps[k]);
    }
  }

  lemma AllStampsRead(n: Numbers, s: string, from: nat, to: nat, channels: seq<ChannelType>, stamps: seq<StampText>)
    requires IsText(s) && stamps != [] && SuitsStamps(channels, stamps)
    requires Reads(s, Part(from, to), Between(MapSeq(StampWritten, stamps), '|'))
    ensures ParseStamps(n, s, Parts(s, from, to, '|'), channels) == StampsSaid(n, channels, stamps)
  {
    var parts, texts := Parts(s, from, to, '|'), MapSeq(StampWritten, stamps);
    NoBar(stamps);
    PartsRead(s, Part(from, to), texts, '|');
    MapSeqAt(StampWritten, stamps);
    forall k | 0 <= k < |parts|
      ensures ParseStamp(n, s, parts[k], channels) == StampSaid(n, channels, stamps[k])
    {
      assert stamps[k] in stamps && Reads(s, parts[k], texts[k]);
      StampReads(n, s, parts[k], channels, stamps[k]);
    }
    StampsRead(n, s, parts, channels, stamps);
  }

  lemma AllConfsRead(s: string, from: nat, to: nat, confs: seq<string>)
    requires IsText(s) && confs != [] && Reads(s, Part(from, to), Between(confs, '#'))
    requires forall word <- confs :: OnlyWith(word, {})
    ensures ParseConfs(s, Parts(s, from, to, '#')) == HandlingSaid(confs)
  {
    PartsRead(s, Part(from, to), confs, '#');
    ConfsRead(s, Parts(s, from, to, '#'), confs);
  }

  /** Where the stamps and the configuration of a cue are. */
  lemma BareCue(s: string, p: Part, text: string)
    requires IsText(s) && Reads(s, p, text) && '#' !in text
    ensures StampsOf(s, p) == Parts(s, p.start, p.end, '|') && ConfsOf(s, p) == []
  {
    FindsNone(s, '#', p.start, p.end);
  }

  lemma HashFound(s: string, p: Part, at: nat)
    requires IsText(s) && p.start <= at < p.end <= |s| && Find(s, '#', p.start) == at
    ensures StampsOf(s, p) == Parts(s, p.start, at, '|') && ConfsOf(s, p) == Parts(s, at + 1, p.end, '#')
  {
  }

  lemma CueIs(n: Numbers, s: string, p: Part, channels: seq<ChannelType>, c: CueText)
    requires IsText(s) && p.start <= |s| && p.end <= |s|
    requires ParseStamps(n, s, StampsOf(s, p), channels) == StampsSaid(n, channels, c.stamps)
    requires ParseConfs(s, ConfsOf(s, p)) == HandlingSaid(c.confs)
    ensures ParseCue(n, s, p, channels) == CueSaid(n, channels, c)
  {
  }

  lemma BareCueReads(n: Numbers, s: string, p: Part, channels: seq<ChannelType>, stamps: seq<StampText>, text: string)
    requires IsText(s) && Reads(s, p, text) && '#' !in text && text == Between(MapSeq(StampWritten, stamps), '|')
    requires stamps != [] && SuitsStamps(channels, stamps)
    ensures ParseCue(n, s, p, channels) == CueSaid(n, channels, CueText(stamps, []))
  {
    BareCue(s, p, text);
    AllStampsRead(n, s, p.start, p.end, channels, stamps);
    CueIs(n, s, p, channels, CueText(stamps, []));
  }

  /** Where the configuration of a cue begins. */
  lemma HashSplits(s: string, p: Part, text: string, words: string) returns (at: nat)
    requires IsText(s) && Reads(s, p, text + ['#'] + words) && '#' !in text
    ensures p.start <= at < p.end <= |s| && Find(s, '#', p.start) == at
    ensures Reads(s, Part(p.start, at), text) && Reads(s, Part(at + 1, p.end), words)
  {
    at := p.start + |text|;
    SplitAt(s, p, text, '#', words);
    FindsFirst(s, '#', p.start, at);
  }

  lemma StampsOfRead(n: Numbers, s: string, p: Part, channels: seq<ChannelType>, stamps: seq<StampText>, at: nat)
    requires IsText(s) && p.start <= at < p.end <= |s| && Find(s, '#', p.start) == at
    requires Reads(s, Part(p.start, at), Between(MapSeq(StampWritten, stamps), '|'))
    requires stamps != [] && SuitsStamps(channels, stamps)
    ensures ParseStamps(n, s, StampsOf(s, p), channels) == StampsSaid(n, channels, stamps)
  {
    HashFound(s, p, at);
    AllStampsRead(n, s, p.start, at, channels, stamps);
  }

  lemma ConfsOfRead(s: string, p: Part, confs: seq<string>, at: nat)
    requires IsText(s) && p.start <= at < p.end <= |s| && Find(s, '#', p.start) == at
    requires Reads(s, Part(at + 1, p.end), Between(confs, '#'))
    requires confs != [] && forall word <- confs :: OnlyWith(word, {})
    ensures ParseConfs(s, ConfsOf(s, p)) == HandlingSaid(confs)
  {
    HashFound(s, p, at);
    AllConfsRead(s, at + 1, p.end, confs);
  }

  lemma CueReads(n: Numbers, s: string, p: Part, channels: seq<ChannelType>, c: CueText)
    requires IsText(s) && Reads(s, p, CueWritten(c)) && CleanCue(c) && SuitsStamps(channels, c.stamps)
    ensures ParseCue(n, s, p, channels) == CueSaid(n, channels, c)
  {
    var text := Between(MapSeq(StampWritten, c.stamps), '|');
    NoHash(c);
    if c.confs == [] {
      assert CueWritten(c) == text + [] == text;
      BareCueReads(n, s, p, channels, c.stamps, text);
    } else {
      assert CueWritten(c) == text + ['#'] + Between(c.confs, '#');
      var at := HashSplits(s, p, text, Between(c.confs, '#'));
      StampsOfRead(n, s, p, channels, c.stamps, at);
      ConfsOfRead(s, p, c.confs, at);
      CueIs(n, s, p, channels, c);
    }
  }

  lemma NoHash(c: CueText)
    requires CleanCue(c)
    ensures '#' !in Between(MapSeq(StampWritten, c.stamps), '|')
  {
    CueOnlyWith(c);
  }

  ghost predicate ReadsCues(n: Numbers, s: string, parts: seq<Part>, channels: seq<ChannelType>, cues: seq<CueText>)
    requires IsText(s) && forall p <- parts :: p.start <= |s| && p.end <= |s|
  {
    && |parts| == |cues|
    && forall k :: 0 <= k < |parts| ==> ParseCue(n, s, parts[k], channels) == CueSaid(n, channels, cues[k])
  }

  lemma {:induction false} CuesRead(n: Numbers, s: string, parts: seq<Part>, channels: seq<ChannelType>,
                                    cues: seq<CueText>)
    requires IsText(s) && forall p <- parts :: p.start <= |s| && p.end <= |s|
    requires ReadsCues(n, s, parts, channels, cues)
    ensures ParseCues(n, s, parts, channels) == ListSaid(n, channels, cues)
    decreases |cues|
  {
    if cues != [] {
      CuesRead(n, s, parts[..|cues| - 1], channels, cues[..|cues| - 1]);
    }
  }

  lemma NoDollar(cues: seq<CueText>)
    requires forall c <- cues :: CleanCue(c)
    ensures forall t <- MapSeq(CueWritten, cues) :: '$' !in t
  {
    var texts := MapSeq(CueWritten, cues);
    MapSeqAt(CueWritten, cues);
    forall t | t in texts
      ensures '$' !in t
    {
      var k :| 0 <= k < |texts| && texts[k] == t;
      CueOnlyWith(cues[k]);
    }
  }

  lemma ListParts(cues: seq<CueText>)
    requires cues != [] && IsText(ListWritten(cues)) && forall c <- cues :: CleanCue(c)
    ensures var s := ListWritten(cues); AllRead(s, Parts(s, 0, |s|, '$'), MapSeq(CueWritten, cues))
  {
    var s := ListWritten(cues);
    NoDollar(cues);
    assert s[0..|s|] == s;
    PartsRead(s, Part(0, |s|), MapSeq(CueWritten, cues), '$');
  }

  /** A cue list is read as it is written: cue for cue, stamp for stamp, value for value, with the times in
      milliseconds, the curves and the handling that the words name; and it is refused exactly when some
      number or word in it cannot be read, or some stamp has not one value for each channel. */
  lemma ListReads(n: Numbers, channels: seq<ChannelType>, cues: seq<CueText>)
    requires cues != [] && IsText(ListWritten(cues))
    requires forall c <- cues :: CleanCue(c) && SuitsStamps(channels, c.stamps)
    ensures var s := ListWritten(cues);
            ParseCues(n, s, Parts(s, 0, |s|, '$'), channels) == ListSaid(n, channels, cues)
  {
    var s := ListWritten(cues);
    ListParts(cues);
    MapSeqAt(CueWritten, cues);
    var parts := Parts(s, 0, |s|, '$');
    forall k | 0 <= k < |parts|
      ensures ParseCue(n, s, parts[k], channels) == CueSaid(n, channels, cues[k])
    {
      CueReads(n, s, parts[k], channels, cues[k]);
    }
    CuesRead(n, s, parts, channels, cues);
  }
}
