/** The registry of states that outlive a scene change: a flat map from strings, standing for a map from
    scene ids and keys. */
module StateRegistry {
  import opened Collections

  const SIZES := 0x1_0000_0000_0000_0000
  const LONG_MAX := 0x7FFF_FFFF_FFFF_FFFF

  datatype SceneKey = SceneKey(scene: nat, key: string)
  datatype Entry = Entry(sceneKey: SceneKey, value: string)

  // ----- numbers as text -----

  function Digit(d: nat): (c: char)
    requires d < 10
    ensures IsDigit(c) && DigitValue(c) == d
  {
    '0' + d as char
  }

  predicate IsDigit(c: char) {
    '0' <= c <= '9'
  }

  function DigitValue(c: char): nat
    requires IsDigit(c)
  {
    (c - '0') as nat
  }

  predicate AllDigits(s: string) {
    forall i :: 0 <= i < |s| ==> IsDigit(s[i])
  }

  function ToString(n: nat): (s: string)
    ensures s != [] && AllDigits(s)
  {
    if n < 10 then [Digit(n)] else ToString(n / 10) + [Digit(n % 10)]
  }

  /** The text is decimal, the most significant digit first. */
  lemma DecimalDigits(n: nat, d: nat)
    requires d < 10
    ensures ToString(10 * n + d) == (if n == 0 then [] else ToString(n)) + ["0123456789"[d]]
  {
    assert (10 * n + d) / 10 == n && (10 * n + d) % 10 == d;
  }

  /** The number in front of the first character that is no digit, after leading blanks and a sign. */
  function LeadingNumber(s: string, value: nat): nat
    decreases |s|
  {
    if s == [] || !IsDigit(s[0]) then value else LeadingNumber(s[1..], 10 * value + DigitValue(s[0]))
  }

  predicate IsBlank(c: char) {
    c == ' ' || '\t' <= c <= '\r'
  }

  function SkipBlanks(s: string): string {
    if s != [] && IsBlank(s[0]) then SkipBlanks(s[1..]) else s
  }

  /** Out of range, the closest number of 64 bits with a sign. */
  function Atol(s: string): int {
    var t := SkipBlanks(s);
    if t != [] && t[0] == '-' then
      var n := LeadingNumber(t[1..], 0);
      if n > LONG_MAX + 1 then 0 - LONG_MAX - 1 else 0 - n
    else Saturated(LeadingNumber(if t != [] && t[0] == '+' then t[1..] else t, 0))
  }

  function Saturated(n: nat): nat {
    if n > LONG_MAX then LONG_MAX else n
  }

  lemma {:induction false} ReadAppended(s: string, c: char, value: nat)
    requires AllDigits(s) && IsDigit(c)
    ensures LeadingNumber(s + [c], value) == 10 * LeadingNumber(s, value) + DigitValue(c)
    decreases |s|
  {
    if s == [] {
      assert LeadingNumber([c][1..], 10 * value + DigitValue(c)) == 10 * value + DigitValue(c);
    } else {
      assert (s + [c])[1..] == s[1..] + [c];
      ReadAppended(s[1..], c, 10 * value + DigitValue(s[0]));
    }
  }

  lemma {:induction false} ReadsBack(n: nat)
    ensures LeadingNumber(ToString(n), 0) == n
  {
    if n < 10 {
      assert LeadingNumber(ToString(n)[1..], n) == n;
    } else {
      ReadsBack(n / 10);
      ReadAppended(ToString(n / 10), Digit(n % 10), 0);
    }
  }

  lemma AtolOfText(n: nat)
    ensures Atol(ToString(n)) == Saturated(n)
  {
    assert IsDigit(ToString(n)[0]);
    ReadsBack(n);
  }

  // ----- flat keys -----

  function Encode(k: SceneKey): string {
    ToString(k.scene) + "::" + k.key
  }

  predicate SeparatorAt(s: string, i: nat) {
    i + 2 <= |s| && s[i] == ':' && s[i + 1] == ':'
  }

  /** The first place of the separator from `i` on, if there is one. */
  function FindSeparator(s: string, i: nat): (place: Option<nat>)
    ensures place.None? ==> forall j :: i <= j ==> !SeparatorAt(s, j)
    ensures place.Some? ==>
              && i <= place.value && SeparatorAt(s, place.value)
              && forall j :: i <= j < place.value ==> !SeparatorAt(s, j)
    decreases |s| - i
  {
    if i + 2 > |s| then None else if SeparatorAt(s, i) then Some(i) else FindSeparator(s, i + 1)
  }

  datatype Decoded = Decoded(scene: int, key: string)

  function Decode(s: string): Decoded {
    match FindSeparator(s, 0)
    case None => Decoded(0, s)
    case Some(i) => Decoded(Atol(s[..i]), s[i + 2..])
  }

  /** No colon comes before the separator, so a key may hold anything. */
  lemma SeparatorAfterNumber(k: SceneKey)
    ensures FindSeparator(Encode(k), 0) == Some(|ToString(k.scene)|)
  {
    var n := ToString(k.scene);
    assert SeparatorAt(Encode(k), |n|);
    forall j | 0 <= j < |n| ensures !SeparatorAt(Encode(k), j) {
      assert Encode(k)[j] == n[j] && IsDigit(n[j]);
    }
  }

  lemma SeparatorSplits(k: SceneKey)
    ensures Encode(k)[..|ToString(k.scene)|] == ToString(k.scene) && Encode(k)[|ToString(k.scene)| + 2..] == k.key
  {
  }

  lemma EncodeIsInjective(a: SceneKey, b: SceneKey)
    requires Encode(a) == Encode(b)
    ensures a == b
  {
    SeparatorAfterNumber(a);
    SeparatorAfterNumber(b);
    SeparatorSplits(a);
    SeparatorSplits(b);
    ReadsBack(a.scene);
    ReadsBack(b.scene);
  }

  /** Keys come back whatever their text, scene ids exactly when they fit a signed number. */
  lemma DecodeEncode(k: SceneKey)
    ensures Decode(Encode(k)) == Decoded(Saturated(k.scene), k.key)
    ensures Decode(Encode(k)) == Decoded(k.scene, k.key) <==> k.scene <= LONG_MAX
    ensures k.scene > LONG_MAX ==> Decode(Encode(k)) == Decoded(0x7FFF_FFFF_FFFF_FFFF, k.key)
  {
    SeparatorAfterNumber(k);
    SeparatorSplits(k);
    AtolOfText(k.scene);
  }

  // ----- the registry -----

  /** The flat map holds the entries of the map behind it and no other. */
  ghost predicate Flattens(flat: map<string, string>, view: map<SceneKey, string>) {
    && (forall k :: k in view ==> Encode(k) in flat && flat[Encode(k)] == view[k])
    && (forall s :: s in flat ==> exists k :: k in view && Encode(k) == s)
  }

  lemma FlattensSet(flat: map<string, string>, view: map<SceneKey, string>, k: SceneKey, value: string)
    requires Flattens(flat, view)
    ensures Flattens(flat[Encode(k) := value], view[k := value])
  {
    forall other | other in view && other != k ensures Encode(other) != Encode(k) {
      if Encode(other) == Encode(k) {
        EncodeIsInjective(other, k);
      }
    }
    var newFlat, newView := flat[Encode(k) := value], view[k := value];
    forall s | s in newFlat ensures exists k1 :: k1 in newView && Encode(k1) == s {
      if s == Encode(k) {
        assert k in newView;
      } else {
        var k1 :| k1 in view && Encode(k1) == s;
        assert k1 in newView;
      }
    }
  }

  lemma OnlyOneKey(view: map<SceneKey, string>, k: SceneKey)
    ensures forall other :: other in view && Encode(other) == Encode(k) ==> other == k
  {
    forall other | other in view && Encode(other) == Encode(k) ensures other == k {
      EncodeIsInjective(other, k);
    }
  }

  lemma FlattensGet(flat: map<string, string>, view: map<SceneKey, string>, k: SceneKey)
    requires Flattens(flat, view)
    ensures Encode(k) in flat <==> k in view
  {
    if Encode(k) in flat {
      var k1 :| k1 in view && Encode(k1) == Encode(k);
      EncodeIsInjective(k1, k);
    }
  }

  /** Entries set one after the other; a later one wins. */
  function SetAll(view: map<SceneKey, string>, entries: seq<Entry>): map<SceneKey, string> {
    if entries == [] then view
    else
      var e := entries[|entries| - 1];
      SetAll(view, entries[..|entries| - 1])[e.sceneKey := e.value]
  }

  /** The last entry with a key sets it; a key without an entry keeps its value. */
  lemma {:induction false} LastEntryWins(view: map<SceneKey, string>, entries: seq<Entry>, k: SceneKey, i: int)
    requires -1 <= i < |entries| && forall j :: i < j < |entries| ==> entries[j].sceneKey != k
    requires i >= 0 ==> entries[i].sceneKey == k
    ensures var after := SetAll(view, entries);
            if i >= 0 then k in after && after[k] == entries[i].value
            else (k in after <==> k in view) && (k in view ==> after[k] == view[k])
    decreases |entries|
  {
    if entries != [] && i < |entries| - 1 {
      LastEntryWins(view, entries[..|entries| - 1], k, i);
    }
  }

  /** The entry that a key is exported as. */
  function Exported(k: SceneKey, value: string): Entry {
    Entry(SceneKey(Saturated(k.scene), k.key), value)
  }

  /** An export: every key once, in some order. */
  ghost predicate IsExport(view: map<SceneKey, string>, entries: seq<Entry>) {
    exists keys: seq<SceneKey> :: LeadsToExport(view, keys, entries)
  }

  ghost predicate LeadsToExport(view: map<SceneKey, string>, keys: seq<SceneKey>, entries: seq<Entry>) {
    && |keys| == |entries| && (forall k :: k in view <==> k in keys)
    && (forall i, j :: 0 <= i < j < |keys| ==> keys[i] != keys[j])
    && (forall i :: 0 <= i < |keys| ==> keys[i] in view && entries[i] == Exported(keys[i], view[keys[i]]))
  }

  lemma {:induction false} SetAllOfKeys(view: map<SceneKey, string>, keys: seq<SceneKey>, entries: seq<Entry>)
    requires |keys| == |entries| && (forall i, j :: 0 <= i < j < |keys| ==> keys[i] != keys[j])
    requires forall i :: 0 <= i < |keys| ==> keys[i] in view && entries[i] == Entry(keys[i], view[keys[i]])
    ensures forall k :: k in SetAll(map[], entries) <==> k in keys
    ensures forall k :: k in keys ==> SetAll(map[], entries)[k] == view[k]
  {
    if keys != [] {
      var n := |keys| - 1;
      SetAllOfKeys(view, keys[..n], entries[..n]);
      assert keys == keys[..n] + [keys[n]];
    }
  }

  lemma {:induction false} SetAllOnlyAdds(entries: seq<Entry>, k: SceneKey)
    requires forall i :: 0 <= i < |entries| ==> entries[i].sceneKey != k
    ensures k !in SetAll(map[], entries)
  {
    if entries != [] {
      SetAllOnlyAdds(entries[..|entries| - 1], k);
    }
  }

  /** An export taken back by an empty registry, in whatever order it came, rebuilds the registry exactly
      when every scene id fits a signed number. */
  lemma ExportRebuilds(view: map<SceneKey, string>, entries: seq<Entry>)
    requires IsExport(view, entries)
    ensures SetAll(map[], entries) == view <==> forall k :: k in view ==> k.scene <= LONG_MAX
  {
    var keys: seq<SceneKey> :| LeadsToExport(view, keys, entries);
    if forall k :: k in view ==> k.scene <= LONG_MAX {
      SmallIdsComeBack(view, keys, entries);
    } else {
      var k :| k in view && k.scene > LONG_MAX;
      LargeIdIsLost(view, keys, entries, k);
    }
  }

  lemma SmallIdsComeBack(view: map<SceneKey, string>, keys: seq<SceneKey>, entries: seq<Entry>)
    requires LeadsToExport(view, keys, entries) && forall k :: k in view ==> k.scene <= LONG_MAX
    ensures SetAll(map[], entries) == view
  {
    forall i | 0 <= i < |keys| ensures entries[i] == Entry(keys[i], view[keys[i]]) {
      assert entries[i] == Exported(keys[i], view[keys[i]]);
    }
    SetAllOfKeys(view, keys, entries);
    SameMaps(SetAll(map[], entries), view);
  }

  lemma SameMaps(a: map<SceneKey, string>, b: map<SceneKey, string>)
    requires forall k :: k in a <==> k in b
    requires forall k :: k in b ==> a[k] == b[k]
    ensures a == b
  {
    assert a.Keys == b.Keys;
  }

  lemma LargeIdIsLost(view: map<SceneKey, string>, keys: seq<SceneKey>, entries: seq<Entry>, k: SceneKey)
    requires LeadsToExport(view, keys, entries) && k in view && k.scene > LONG_MAX
    ensures k !in SetAll(map[], entries)
  {
    forall i | 0 <= i < |entries| ensures entries[i].sceneKey != k {
      assert entries[i] == Exported(keys[i], view[keys[i]]);
    }
    SetAllOnlyAdds(entries, k);
  }

  lemma ExportOneMore(view: map<SceneKey, string>, keys: seq<SceneKey>, entries: seq<Entry>, k: SceneKey, value: string)
    requires LeadsToExport(view, keys, entries) && k !in view
    ensures LeadsToExport(view[k := value], keys + [k], entries + [Exported(k, value)])
  {
  }

  class Registry {
    var sceneSpecific: map<string, string>
    var unspecific: map<string, string>
    ghost var View: map<SceneKey, string>

    ghost predicate Valid()
      reads this
    {
      Flattens(sceneSpecific, View)
    }

    constructor ()
      ensures Valid() && View == map[] && unspecific == map[]
    {
      sceneSpecific, unspecific, View := map[], map[], map[];
    }

    method SetOfScene(scene: nat, key: string, value: string)
      requires Valid() && scene < SIZES
      modifies this`sceneSpecific, this`View
      ensures Valid() && View == old(View)[SceneKey(scene, key) := value]
    {
      FlattensSet(sceneSpecific, View, SceneKey(scene, key), value);
      sceneSpecific := sceneSpecific[ToString(scene) + "::" + key := value];
      View := View[SceneKey(scene, key) := value];
    }

    method GetOfScene(scene: nat, key: string) returns (value: Option<string>)
      requires Valid() && scene < SIZES
      ensures value == if SceneKey(scene, key) in View then Some(View[SceneKey(scene, key)]) else None
    {
      var k := ToString(scene) + "::" + key;
      FlattensGet(sceneSpecific, View, SceneKey(scene, key));
      assert k == Encode(SceneKey(scene, key));
      value := if k in sceneSpecific then Some(sceneSpecific[k]) else None;
    }

    method Set(key: string, value: string)
      modifies this`unspecific
      ensures unspecific == old(unspecific)[key := value]
    {
      unspecific := unspecific[key := value];
    }

    /** All entries, decoded one by one from the flat map. */
    method Export() returns (entries: seq<Entry>)
      requires Valid()
      ensures IsExport(View, entries)
    {
      entries := [];
      ghost var keys: seq<SceneKey>, done: map<SceneKey, string> := [], map[];
      var rest := sceneSpecific.Keys;
      while rest != {}
        invariant rest <= sceneSpecific.Keys && LeadsToExport(done, keys, entries)
        invariant forall k :: k in done ==> k in View && done[k] == View[k]
        invariant forall k :: k in View ==> (k in done <==> Encode(k) !in rest)
        decreases |rest|
      {
        var s :| s in rest;
        ghost var k :| k in View && Encode(k) == s;
        DecodeEncode(k);
        var decoded := Decode(s);
        ExportOneMore(done, keys, entries, k, sceneSpecific[s]);
        OnlyOneKey(View, k);
        entries := entries + [Entry(SceneKey(decoded.scene, decoded.key), sceneSpecific[s])];
        keys, done, rest := keys + [k], done[k := sceneSpecific[s]], rest - {s};
      }
      SameMaps(done, View);
    }

    /** A message with states sets them; an empty one asks for all states. */
    method UpdateStatesFromMessage(plain: map<string, string>, ofScenes: seq<Entry>)
      returns (wasEmpty: bool, outPlain: map<string, string>, outOfScenes: seq<Entry>)
      requires Valid() && forall i :: 0 <= i < |ofScenes| ==> ofScenes[i].sceneKey.scene < SIZES
      modifies this
      ensures Valid() && (wasEmpty <==> plain == map[] && ofScenes == [])
      ensures View == SetAll(old(View), ofScenes) && unspecific == old(unspecific) + plain
      ensures wasEmpty ==> outPlain == unspecific && IsExport(View, outOfScenes)
      ensures !wasEmpty ==> outPlain == plain && outOfScenes == ofScenes
    {
      outPlain, outOfScenes := plain, ofScenes;
      wasEmpty := plain == map[] && ofScenes == [];
      unspecific := unspecific + plain;
      for i := 0 to |ofScenes|
        invariant Valid() && View == SetAll(old(View), ofScenes[..i]) && unspecific == old(unspecific) + plain
      {
        assert ofScenes[..i + 1][..i] == ofScenes[..i];
        SetOfScene(ofScenes[i].sceneKey.scene, ofScenes[i].sceneKey.key, ofScenes[i].value);
      }
      assert ofScenes[..|ofScenes|] == ofScenes;
      if wasEmpty {
        outPlain := unspecific;
        outOfScenes := Export();
      }
    }
  }
}
