/** The control logic of the beat tracker at a hop size of 512: timers, score windows and tempo. The
    exponential weights are arbitrary positive numbers; the onset samples and the comb filter output
    come from outside. */
module BeatTracker {

  const BUFFER_SIZE := 512

  // ----- the circular buffer -----

  /** A buffer read from its write index on, and around. */
  function Rotated(b: seq<real>, at: nat): (s: seq<real>)
    requires at <= |b|
    ensures |s| == |b|
  {
    b[at..] + b[..at]
  }

  function Wrap(i: nat, size: nat): nat
    requires size > 0
  {
    i % size
  }

  lemma WrapSum(i: nat, at: nat, size: nat)
    requires i < size && at < size
    ensures Wrap(i + at, size) == if i + at < size then i + at else i + at - size
  {
  }

  lemma RotatedSet(b: seq<real>, at: nat, i: nat, v: real)
    requires at < |b| && i < |b|
    ensures Rotated(b, at)[i] == b[Wrap(i + at, |b|)]
    ensures Rotated(b[Wrap(i + at, |b|) := v], at) == Rotated(b, at)[i := v]
  {
    WrapSum(i, at, |b|);
  }

  lemma RotatedAdd(b: seq<real>, at: nat, v: real)
    requires at < |b|
    ensures Rotated(b[at := v], Wrap(at + 1, |b|)) == Rotated(b, at)[1..] + [v]
  {
    SetInParts(b, at, v);
    DropFirst(b, at);
    if at + 1 == |b| {
      WrapAround(|b|);
      assert Rotated(b[at := v], 0) == b[at := v] == b[..at] + [v];
      assert b[at + 1..] == [];
    } else {
      WrapSum(1, at, |b|);
      assert b[at + 1..] + (b[..at] + [v]) == (b[at + 1..] + b[..at]) + [v];
    }
  }

  lemma WrapAround(size: nat)
    requires size > 0
    ensures Wrap(size, size) == 0
  {
  }

  lemma SetInParts(b: seq<real>, at: nat, v: real)
    requires at < |b|
    ensures b[at := v][at + 1..] == b[at + 1..] && b[at := v][..at + 1] == b[..at] + [v]
  {
  }

  lemma DropFirst(b: seq<real>, at: nat)
    requires at < |b|
    ensures Rotated(b, at)[1..] == b[at + 1..] + b[..at]
  {
  }

  class CircularBuffer {
    var buffer: array<real>
    var writeIndex: nat

    ghost predicate Valid()
      reads this
    {
      if buffer.Length == 0 then writeIndex == 0 else writeIndex < buffer.Length
    }

    /** The samples, oldest first. */
    ghost function Contents(): (s: seq<real>)
      reads this, buffer
      requires Valid()
      ensures |s| == buffer.Length
    {
      Rotated(buffer[..], writeIndex)
    }

    constructor (size: nat)
      ensures Valid() && fresh(buffer) && Contents() == seq(size, i => 0.0)
    {
      buffer, writeIndex := new real[size](i => 0.0), 0;
    }

    function At(i: nat): (x: real)
      requires Valid() && i < buffer.Length
      ensures x == Contents()[i]
      reads this, buffer
    {
      RotatedSet(buffer[..], writeIndex, i, 0.0);
      buffer[Wrap(i + writeIndex, buffer.Length)]
    }

    method Set(i: nat, v: real)
      requires Valid() && i < buffer.Length
      modifies buffer
      ensures Contents() == old(Contents())[i := v]
    {
      RotatedSet(buffer[..], writeIndex, i, v);
      buffer[Wrap(i + writeIndex, buffer.Length)] := v;
      assert buffer[..] == old(buffer[..])[Wrap(i + writeIndex, buffer.Length) := v];
    }

    /** Drops the oldest sample and appends the new one. */
    method AddSampleToEnd(v: real)
      requires Valid() && buffer.Length > 0
      modifies this`writeIndex, buffer
      ensures Valid() && Contents() == old(Contents())[1..] + [v]
    {
      RotatedAdd(buffer[..], writeIndex, v);
      buffer[writeIndex] := v;
      assert buffer[..] == old(buffer[..])[writeIndex := v];
      writeIndex := Wrap(writeIndex + 1, buffer.Length);
    }

    method Resize(size: nat)
      modifies this
      ensures Valid() && fresh(buffer) && Contents() == seq(size, i => 0.0)
    {
      buffer, writeIndex := new real[size](i => 0.0), 0;
    }
  }

  // ----- tempo -----

  function Round(x: real): int {
    if x >= 0.0 then (x + 0.5).Floor else -((-x + 0.5).Floor)
  }

  /** round(beatPeriod / 2) for a whole beat period. */
  function Half(beatPeriod: nat): nat {
    (beatPeriod + 1) / 2
  }

  predicate IsBeatPeriod(beatPeriod: int) {
    32 <= beatPeriod <= 65
  }

  lemma HalfIsRound(beatPeriod: nat)
    ensures Round(beatPeriod as real / 2.0) == Half(beatPeriod)
  {
    var x := beatPeriod as real / 2.0 + 0.5;
    assert x == (beatPeriod + 1) as real / 2.0;
    assert Half(beatPeriod) as real <= x < (Half(beatPeriod) + 1) as real;
  }

  /** The beat period of a tempo index: 60 * 44100 / ((2 * index + 80) * 512), rounded. */
  function BeatPeriodOf(index: nat): int {
    Round(60.0 * 44100.0 / ((2 * index + 80) as real * 512.0))
  }

  lemma RoundIsNearest(x: real)
    ensures if x >= 0.0 then Round(x) as real - 0.5 <= x < Round(x) as real + 0.5
            else Round(x) as real - 0.5 < x <= Round(x) as real + 0.5
  {
    var f, g := (x + 0.5).Floor, (-x + 0.5).Floor;
    assert f as real <= x + 0.5 < (f + 1) as real;
    assert g as real <= -x + 0.5 < (g + 1) as real;
  }

  /** Of all whole numbers `n`, `n` * `unit` comes closest to the amount. */
  predicate IsNearest(n: int, unit: real, amount: real) {
    -unit <= 2.0 * (n as real * unit - amount) <= unit
  }

  lemma RoundedQuotient(amount: real, unit: real)
    requires amount > 0.0 && unit > 0.0
    ensures IsNearest(Round(amount / unit), unit, amount)
  {
    var x, n := amount / unit, Round(amount / unit);
    RoundIsNearest(x);
    assert x * unit == amount;
    TimesUnit(n as real - x, unit);
    assert (n as real - x) * unit == n as real * unit - amount;
  }

  lemma TimesUnit(d: real, unit: real)
    requires -0.5 <= d <= 0.5 && unit > 0.0
    ensures -unit <= 2.0 * (d * unit) <= unit
  {
    var e := 0.5 - d;
    var f := 0.5 + d;
    assert e * unit >= 0.0 && f * unit >= 0.0;
    assert e * unit == 0.5 * unit - d * unit;
    assert f * unit == 0.5 * unit + d * unit;
  }

  /** The beat period of an index is the number of frames of 512 samples, 44100 a second, that comes closest
      to a beat at 2 * index + 80 beats a minute. */
  lemma BeatPeriodIsNearest(index: nat)
    ensures IsNearest(BeatPeriodOf(index), (2 * index + 80) as real * 512.0, 60.0 * 44100.0)
  {
    RoundedQuotient(60.0 * 44100.0, (2 * index + 80) as real * 512.0);
  }

  lemma BeatPeriodInRange(index: nat)
    requires index <= 40
    ensures IsBeatPeriod(BeatPeriodOf(index))
  {
    var d := (2 * index + 80) as real * 512.0;
    var x := 60.0 * 44100.0 / d;
    assert 40960.0 <= d <= 81920.0;
    assert x * d == 2646000.0;
    DivideBounds(2646000.0, d, 31.5, 65.0);
  }

  lemma DivideBounds(a: real, d: real, lo: real, hi: real)
    requires d > 0.0 && lo * d <= a <= hi * d
    ensures lo <= a / d <= hi
  {
    assert lo * d / d == lo && hi * d / d == hi;
  }

  /** The tempo between 80 and 160 that is the given one times a power of two, coming from the side of the
      given one, and its index. */
  ghost predicate FoldsTo(tempo: real, t: real, index: nat) {
    && 80.0 <= t <= 160.0 && index == Round((t - 80.0) / 2.0)
    && (exists k: int :: t == Scaled(tempo, k))
    && (tempo > 160.0 ==> t > 80.0) && (tempo < 80.0 ==> t < 160.0) && (80.0 <= tempo <= 160.0 ==> t == tempo)
  }

  lemma FoldIsUnique(tempo: real, t: real, index: nat, u: real, other: nat)
    requires tempo > 0.0 && FoldsTo(tempo, t, index) && FoldsTo(tempo, u, other)
    ensures t == u && index == other
  {
    var k: int :| t == Scaled(tempo, k);
    var l: int :| u == Scaled(tempo, l);
    if k < l {
      ScaledGrows(tempo, k, l);
    } else if l < k {
      ScaledGrows(tempo, l, k);
    }
  }

  lemma {:induction false} ScaledGrows(x: real, k: int, l: int)
    requires x > 0.0 && k < l
    ensures 0.0 < Scaled(x, k) && 2.0 * Scaled(x, k) <= Scaled(x, l)
    decreases l - k
  {
    ScaledPositive(x, k);
    ScaledPositive(x, l);
    ScaledNext(x, l - 1);
    if k < l - 1 {
      ScaledGrows(x, k, l - 1);
    }
  }

  lemma ScaledNext(x: real, k: int)
    ensures Scaled(x, k + 1) == 2.0 * Scaled(x, k)
  {
  }

  lemma {:induction false} ScaledPositive(x: real, k: int)
    requires x > 0.0
    ensures Scaled(x, k) > 0.0
    decreases if k < 0 then -k else k
  {
    if k < 0 {
      ScaledPositive(x, k + 1);
    } else if k > 0 {
      ScaledPositive(x, k - 1);
    }
  }

  /** Halves or doubles a tempo until it lies between 80 and 160; only a positive one gets there. */
  method FoldTempo(tempo: real) returns (t: real, index: nat)
    requires tempo > 0.0
    ensures FoldsTo(tempo, t, index) && index <= 40
  {
    t := tempo;
    ghost var k := 0;
    while t > 160.0
      invariant t > 0.0 && t == Scaled(tempo, k) && k <= 0
      invariant t < 80.0 ==> k == 0
      invariant if tempo > 160.0 then t > 80.0 else t == tempo
      decreases t.Floor
    {
      t := t / 2.0;
      k := k - 1;
    }
    while t < 80.0
      invariant 0.0 < t <= 160.0 && t == Scaled(tempo, k) && (t < 80.0 ==> k >= 0)
      invariant if tempo >= 80.0 then t >= 80.0 && (tempo > 160.0 ==> t > 80.0) && (tempo <= 160.0 ==> t == tempo)
                else t < 160.0
      decreases (80.0 / t).Floor
    {
      DoublingHalves(t);
      t := t * 2.0;
      k := k + 1;
    }
    var i := Round((t - 80.0) / 2.0);
    index := i;
  }

  lemma DoublingHalves(t: real)
    requires 0.0 < t < 80.0
    ensures (80.0 / (t * 2.0)).Floor < (80.0 / t).Floor
  {
    var x := 80.0 / t;
    assert x * t == 80.0;
    assert x > 1.0;
    assert 80.0 / (t * 2.0) == x / 2.0;
  }

  /** `x` times two to the power of `k`. */
  function Scaled(x: real, k: int): real
    decreases if k < 0 then -k else k
  {
    if k == 0 then x else if k < 0 then Scaled(x, k + 1) / 2.0 else Scaled(x, k - 1) * 2.0
  }

  /** No halving or doubling brings a tempo of zero or below into the range: folding it would not end. */
  lemma FoldingNeedsPositive(tempo: real)
    ensures (exists k: int :: 80.0 <= Scaled(tempo, k) <= 160.0) ==> tempo > 0.0
  {
    if k: int :| 80.0 <= Scaled(tempo, k) <= 160.0 {
      ScaledSign(tempo, k);
    }
  }

  lemma {:induction false} ScaledSign(x: real, k: int)
    ensures x <= 0.0 ==> Scaled(x, k) <= 0.0
    decreases if k < 0 then -k else k
  {
    if k < 0 {
      ScaledSign(x, k + 1);
    } else if k > 0 {
      ScaledSign(x, k - 1);
    }
  }

  // ----- scores -----

  /** The weights of the windows: positive for every beat period and place. */
  datatype Weights = Weights(transition: (nat, nat) -> real, expectation: (nat, nat) -> real)

  ghost predicate Positive(w: Weights) {
    forall bp: nat, n: nat :: w.transition(bp, n) > 0.0 && w.expectation(bp, n) > 0.0
  }

  function Max(a: real, b: real): real {
    if b > a then b else a
  }

  /** The largest weighted score of a window, or 0. */
  function MaxWeighted(w: Weights, bp: nat, scores: seq<real>, start: nat, count: nat): real
    requires start + count <= |scores|
  {
    if count == 0 then 0.0
    else Max(MaxWeighted(w, bp, scores, start, count - 1), scores[start + count - 1] * w.transition(bp, count - 1))
  }

  lemma {:induction false} MaxWeightedSigns(w: Weights, bp: nat, scores: seq<real>, start: nat, count: nat)
    requires start + count <= |scores| && Positive(w)
    ensures MaxWeighted(w, bp, scores, start, count) >= 0.0
    ensures (exists i :: start <= i < start + count && scores[i] > 0.0) ==>
            MaxWeighted(w, bp, scores, start, count) > 0.0
    decreases count
  {
    if count > 0 {
      MaxWeightedSigns(w, bp, scores, start, count - 1);
      if scores[start + count - 1] > 0.0 {
        PositiveProduct(scores[start + count - 1], w.transition(bp, count - 1));
      }
    }
  }

  lemma PositiveProduct(a: real, b: real)
    requires a > 0.0 && b > 0.0
    ensures a * b > 0.0
  {
  }

  /** It is at least every weighted score, and one of them unless it is 0. */
  lemma {:induction false} MaxWeightedIs(w: Weights, bp: nat, scores: seq<real>, start: nat, count: nat)
    requires start + count <= |scores|
    ensures IsMaxWeighted(MaxWeighted(w, bp, scores, start, count), w, bp, scores, start, count)
    decreases count
  {
    if count > 0 {
      MaxWeightedIs(w, bp, scores, start, count - 1);
      assert MaxWeighted(w, bp, scores, start, count) ==
             Max(MaxWeighted(w, bp, scores, start, count - 1), Weighted(w, bp, scores, start, count - 1));
    }
  }

  /** A score weighted by its place in the window. */
  function Weighted(w: Weights, bp: nat, scores: seq<real>, start: nat, n: nat): real
    requires start + n < |scores|
  {
    scores[start + n] * w.transition(bp, n)
  }

  ghost predicate IsMaxWeighted(x: real, w: Weights, bp: nat, scores: seq<real>, start: nat, count: nat)
    requires start + count <= |scores|
  {
    && x >= 0.0 && (forall n: nat :: n < count ==> Weighted(w, bp, scores, start, n) <= x)
    && (x == 0.0 || exists n: nat :: n < count && Weighted(w, bp, scores, start, n) == x)
  }

  /** The window from two beat periods to half a beat period ago. */
  function WindowStart(bp: nat): int {
    BUFFER_SIZE - 2 * bp
  }

  function WindowSize(bp: nat): int {
    2 * bp - Half(bp) + 1
  }

  /** A score mixed from an onset sample and the largest weighted score of a window. */
  function NewScore(maxValue: real, sample: real, alpha: real): real {
    (1.0 - alpha) * sample + alpha * maxValue
  }

  /** The scores followed by `k` synthesised ones, each from the window shifted along; a window ends
      before the score it is used for. */
  function Future(w: Weights, bp: nat, scores: seq<real>, k: nat): (f: seq<real>)
    requires |scores| == BUFFER_SIZE && IsBeatPeriod(bp)
    ensures |f| == BUFFER_SIZE + k
  {
    if k == 0 then scores
    else
      var f := Future(w, bp, scores, k - 1);
      f + [NewScore(MaxWeighted(w, bp, f, WindowStart(bp) + k - 1, WindowSize(bp)), 0.0, 1.0)]
  }

  /** As soon as the shifted window reaches the latest score, the synthesised scores are positive. */
  lemma FutureReachesLatest(w: Weights, bp: nat, scores: seq<real>)
    requires |scores| == BUFFER_SIZE && IsBeatPeriod(bp) && Positive(w) && scores[BUFFER_SIZE - 1] > 0.0
    ensures Half(bp) <= bp && Future(w, bp, scores, Half(bp))[BUFFER_SIZE + Half(bp) - 1] > 0.0
  {
    var k := Half(bp);
    var f := Future(w, bp, scores, k - 1);
    FutureKeepsPrefix(w, bp, scores, 0, k - 1);
    assert f[BUFFER_SIZE - 1] == scores[BUFFER_SIZE - 1];
    MaxWeightedSigns(w, bp, f, WindowStart(bp) + k - 1, WindowSize(bp));
  }

  lemma {:induction false} FutureKeepsPrefix(w: Weights, bp: nat, scores: seq<real>, j: nat, k: nat)
    requires |scores| == BUFFER_SIZE && IsBeatPeriod(bp) && j <= k
    ensures Future(w, bp, scores, k)[..BUFFER_SIZE + j] == Future(w, bp, scores, j)
    decreases k
  {
    if j < k {
      FutureKeepsPrefix(w, bp, scores, j, k - 1);
      var f := Future(w, bp, scores, k - 1);
      assert Future(w, bp, scores, k)[..BUFFER_SIZE + j] == f[..BUFFER_SIZE + j];
    } else {
      assert Future(w, bp, scores, k)[..BUFFER_SIZE + j] == Future(w, bp, scores, k);
    }
  }

  /** The weighted future score `n` frames ahead. */
  function Expected(w: Weights, bp: nat, scores: seq<real>, n: nat): real
    requires |scores| == BUFFER_SIZE && IsBeatPeriod(bp) && n < bp
  {
    Future(w, bp, scores, bp)[BUFFER_SIZE + n] * w.expectation(bp, n)
  }

  method CalculateMaxWeighted(w: Weights, bp: nat, scores: seq<real>, start: nat, count: nat) returns (maxValue: real)
    requires start + count <= |scores|
    ensures maxValue == MaxWeighted(w, bp, scores, start, count)
  {
    maxValue := 0.0;
    for n := 0 to count
      invariant maxValue == MaxWeighted(w, bp, scores, start, n)
    {
      var weighted := scores[start + n] * w.transition(bp, n);
      if weighted > maxValue {
        maxValue := weighted;
      }
    }
  }

  method ExtendScores(w: Weights, bp: nat, scores: seq<real>) returns (future: seq<real>)
    requires |scores| == BUFFER_SIZE && IsBeatPeriod(bp)
    ensures future == Future(w, bp, scores, bp)
  {
    future := scores;
    var startIndex := WindowStart(bp);
    for k := 0 to bp
      invariant future == Future(w, bp, scores, k) && startIndex == WindowStart(bp) + k
    {
      var maxValue := CalculateMaxWeighted(w, bp, future, startIndex, WindowSize(bp));
      future := future + [NewScore(maxValue, 0.0, 1.0)];
      startIndex := startIndex + 1;
    }
  }

  /** The first of the largest values, provided that one is positive. */
  predicate IsFirstMaximum(values: seq<real>, n: nat) {
    && n < |values|
    && (forall m :: 0 <= m < |values| ==> values[m] <= values[n])
    && (forall m :: 0 <= m < n ==> values[m] < values[n])
  }

  method FindFirstMaximum(values: seq<real>, before: int) returns (n: int)
    ensures if exists m :: 0 <= m < |values| && values[m] > 0.0 then n >= 0 && IsFirstMaximum(values, n)
            else n == before
  {
    var maxValue := 0.0;
    n := before;
    for i := 0 to |values|
      invariant maxValue >= 0.0
      invariant forall m :: 0 <= m < i ==> values[m] <= maxValue
      invariant if maxValue > 0.0
                then 0 <= n < i && values[n] == maxValue && forall m :: 0 <= m < n ==> values[m] < maxValue
                else n == before
    {
      if values[i] > maxValue {
        maxValue := values[i];
        n := i;
      }
    }
  }

  function Expectations(w: Weights, bp: nat, scores: seq<real>): (es: seq<real>)
    requires |scores| == BUFFER_SIZE && IsBeatPeriod(bp)
    ensures |es| == bp
  {
    seq(bp, n requires 0 <= n < bp => Expected(w, bp, scores, n))
  }

  /** A positive latest score makes sure that some frame of the next beat period is expected. */
  lemma SomethingIsExpected(w: Weights, bp: nat, scores: seq<real>)
    requires |scores| == BUFFER_SIZE && IsBeatPeriod(bp) && Positive(w) && scores[BUFFER_SIZE - 1] > 0.0
    ensures Expectations(w, bp, scores)[Half(bp) - 1] > 0.0
  {
    FutureReachesLatest(w, bp, scores);
    FutureKeepsPrefix(w, bp, scores, Half(bp), bp);
    var n := Half(bp) - 1;
    assert Future(w, bp, scores, bp)[BUFFER_SIZE + n] == Future(w, bp, scores, Half(bp))[BUFFER_SIZE + n];
    PositiveProduct(Future(w, bp, scores, bp)[BUFFER_SIZE + n], w.expectation(bp, n));
  }

  /** The scores go on for `k` frames: each new one is the largest weighted score between two beat periods
      and half a beat period before it. */
  ghost predicate Continues(w: Weights, bp: nat, scores: seq<real>, f: seq<real>, k: nat)
    requires |scores| == BUFFER_SIZE && IsBeatPeriod(bp)
  {
    && |f| == BUFFER_SIZE + k && f[..BUFFER_SIZE] == scores
    && forall n :: 0 <= n < k ==> ContinuesAt(w, bp, f, n)
  }

  ghost predicate ContinuesAt(w: Weights, bp: nat, f: seq<real>, n: nat)
    requires IsBeatPeriod(bp)
  {
    BUFFER_SIZE + n < |f| &&
    IsMaxWeighted(f[BUFFER_SIZE + n], w, bp, f, BUFFER_SIZE - 2 * bp + n, 2 * bp - (bp + 1) / 2 + 1)
  }

  lemma SameWindow(x: real, w: Weights, bp: nat, a: seq<real>, b: seq<real>, start: nat, count: nat)
    requires start + count <= |a| && a <= b
    ensures IsMaxWeighted(x, w, bp, a, start, count) ==> IsMaxWeighted(x, w, bp, b, start, count)
  {
    forall n: nat | n < count
      ensures Weighted(w, bp, a, start, n) == Weighted(w, bp, b, start, n)
    {
    }
  }

  lemma {:induction false} FutureContinues(w: Weights, bp: nat, scores: seq<real>, k: nat)
    requires |scores| == BUFFER_SIZE && IsBeatPeriod(bp)
    ensures Continues(w, bp, scores, Future(w, bp, scores, k), k)
    decreases k
  {
    if k > 0 {
      FutureContinues(w, bp, scores, k - 1);
      var f := Future(w, bp, scores, k - 1);
      var x := MaxWeighted(w, bp, f, WindowStart(bp) + k - 1, WindowSize(bp));
      MaxWeightedIs(w, bp, f, WindowStart(bp) + k - 1, WindowSize(bp));
      assert Future(w, bp, scores, k) == f + [NewScore(x, 0.0, 1.0)] == f + [x];
      OneMoreContinues(w, bp, scores, f, k - 1, x);
    }
  }

  lemma OneMoreContinues(w: Weights, bp: nat, scores: seq<real>, f: seq<real>, k: nat, x: real)
    requires |scores| == BUFFER_SIZE && IsBeatPeriod(bp) && Continues(w, bp, scores, f, k)
    requires IsMaxWeighted(x, w, bp, f, BUFFER_SIZE - 2 * bp + k, 2 * bp - (bp + 1) / 2 + 1)
    ensures Continues(w, bp, scores, f + [x], k + 1)
  {
    forall n | 0 <= n < k + 1
      ensures ContinuesAt(w, bp, f + [x], n)
    {
      assert n < k ==> ContinuesAt(w, bp, f, n);
      var y := (f + [x])[BUFFER_SIZE + n];
      SameWindow(y, w, bp, f, f + [x], BUFFER_SIZE - 2 * bp + n, 2 * bp - (bp + 1) / 2 + 1);
    }
  }

  /** No frame of the next beat period has a larger weighted score than frame `n`, and none before it as
      large a one. */
  ghost predicate IsMostExpected(w: Weights, bp: nat, f: seq<real>, n: nat)
    requires |f| == BUFFER_SIZE + bp
  {
    n < bp && forall m: nat :: m < bp ==>
      var x, y := f[BUFFER_SIZE + m] * w.expectation(bp, m), f[BUFFER_SIZE + n] * w.expectation(bp, n);
      x <= y && (m < n ==> x < y)
  }

  /** What the prediction means. */
  lemma PredictionIsMostExpected(w: Weights, bp: nat, scores: seq<real>, n: nat) returns (f: seq<real>)
    requires |scores| == BUFFER_SIZE && IsBeatPeriod(bp) && IsFirstMaximum(Expectations(w, bp, scores), n)
    ensures Continues(w, bp, scores, f, bp) && IsMostExpected(w, bp, f, n)
  {
    f := Future(w, bp, scores, bp);
    FutureContinues(w, bp, scores, bp);
    var es := Expectations(w, bp, scores);
    forall m: nat | m < bp
      ensures es[m] == f[BUFFER_SIZE + m] * w.expectation(bp, m)
    {
    }
  }

  /** The frame within the next beat period in which a beat is most expected; the time to the next beat
      stays as it was only if none is expected at all. */
  method PredictBeat(w: Weights, bp: nat, scores: seq<real>, before: int) returns (timeToNextBeat: int)
    requires |scores| == BUFFER_SIZE && IsBeatPeriod(bp) && Positive(w)
    ensures scores[BUFFER_SIZE - 1] > 0.0 ==>
            0 <= timeToNextBeat < bp && IsFirstMaximum(Expectations(w, bp, scores), timeToNextBeat)
  {
    var future := ExtendScores(w, bp, scores);
    var expected := seq(bp, n requires 0 <= n < bp => future[BUFFER_SIZE + n] * w.expectation(bp, n));
    assert forall n :: 0 <= n < bp ==> expected[n] == Expectations(w, bp, scores)[n];
    assert expected == Expectations(w, bp, scores);
    timeToNextBeat := FindFirstMaximum(expected, before);
    if scores[BUFFER_SIZE - 1] > 0.0 {
      SomethingIsExpected(w, bp, scores);
      assert expected[Half(bp) - 1] > 0.0;
    }
  }

  // ----- timers -----

  datatype Event = Prediction(frame: int) | Beat(frame: int) | TempoSet(frame: int)

  /** The timers, the beat period, the frame number and what has happened so far. */
  datatype Timers = Timers(toPrediction: int, toBeat: int, beatPeriod: int, frame: int, log: seq<Event>)

  const INITIAL := Timers(10, -1, 43, 0, [])

  /** What an event adds to the log: a prediction comes first or after a beat; a beat comes after a
      prediction, at most 64 frames later, and 16 to 97 frames after the beat before. Setting the tempo
      counts as a beat and may come at any time. */
  predicate Follows(log: seq<Event>, e: Event) {
    match e
    case TempoSet(_) => true
    case Prediction(_) => log == [] || !log[|log| - 1].Prediction?
    case Beat(frame) =>
      && log != [] && log[|log| - 1].Prediction? && 0 <= frame - log[|log| - 1].frame <= 64
      && (|log| > 1 ==> 16 <= frame - log[|log| - 2].frame <= 97)
  }

  /** Predictions and beats alternate, with the distances above. */
  predicate Regular(log: seq<Event>) {
    log == [] || (Regular(log[..|log| - 1]) && Follows(log[..|log| - 1], log[|log| - 1]))
  }

  lemma RegularAppend(log: seq<Event>, e: Event)
    requires Regular(log) && Follows(log, e)
    ensures Regular(log + [e])
  {
    assert (log + [e])[..|log|] == log;
  }

  predicate WaitsForBeat(log: seq<Event>) {
    log != [] && log[|log| - 1].Prediction?
  }

  /** Where the timers stand: waiting for a predicted beat, or for the next prediction. */
  predicate Consistent(t: Timers) {
    && IsBeatPeriod(t.beatPeriod) && Regular(t.log)
    && if WaitsForBeat(t.log) then
         var last := t.log[|t.log| - 1].frame;
         && 1 <= t.toBeat && 16 <= t.toPrediction - t.toBeat <= 33
         && last <= t.frame && t.frame - last + t.toBeat <= 64
         && (|t.log| > 1 ==>
               !t.log[|t.log| - 2].Prediction? && 16 <= t.frame - t.log[|t.log| - 2].frame + t.toBeat <= 97)
       else
         && t.toBeat <= 0 && 1 <= t.toPrediction <= 33
         && (t.log != [] ==> 16 <= t.frame - t.log[|t.log| - 1].frame + t.toPrediction <= 33)
  }

  /** The frame counters move on. */
  function CountDown(t: Timers): Timers {
    t.(toPrediction := t.toPrediction - 1, toBeat := t.toBeat - 1, frame := t.frame + 1)
  }

  function Predict(t: Timers, expected: nat): Timers
    requires t.beatPeriod >= 0
  {
    t.(toBeat := expected, toPrediction := expected + Half(t.beatPeriod), log := t.log + [Prediction(t.frame)])
  }

  function MarkBeat(t: Timers, newPeriod: nat): Timers {
    t.(beatPeriod := newPeriod, log := t.log + [Beat(t.frame)])
  }

  /** One frame: `expected` is the place of the beat if one is predicted now, `newPeriod` the period
      measured if this frame is a beat. */
  function Tick(t: Timers, expected: nat, newPeriod: nat): Timers
    requires t.beatPeriod >= 0
  {
    var t1 := CountDown(t);
    var t2 := if t1.toPrediction == 0 then Predict(t1, expected) else t1;
    if t2.toBeat == 0 then MarkBeat(t2, newPeriod) else t2
  }

  /** A due prediction sets the timers: to the beat as predicted, and to the next prediction half a beat
      period later. A beat that is due takes the measured beat period. */
  lemma TickMeans(t: Timers, expected: nat, newPeriod: nat)
    requires t.beatPeriod >= 0
    ensures var t', due := Tick(t, expected, newPeriod), t.toPrediction == 1;
            && t'.frame == t.frame + 1
            && t'.toBeat == (if due then expected else t.toBeat - 1)
            && t'.toPrediction == (if due then expected + (t.beatPeriod + 1) / 2 else t.toPrediction - 1)
            && t'.beatPeriod == (if t'.toBeat == 0 then newPeriod else t.beatPeriod)
            && t'.log == t.log + (if due then [Prediction(t.frame + 1)] else [])
                         + if t'.toBeat == 0 then [Beat(t.frame + 1)] else []
  {
  }

  /** Setting a tempo counts as a beat now; the next prediction comes half a beat period of it later. */
  lemma RestartMeans(t: Timers, tempoPeriod: nat)
    ensures Restart(t, tempoPeriod) ==
            Timers((tempoPeriod + 1) / 2, 0, t.beatPeriod, t.frame, t.log + [TempoSet(t.frame)])
  {
  }

  lemma PredictThenBeat(t: Timers, expected: nat, newPeriod: nat)
    requires Consistent(t) && !WaitsForBeat(t.log) && t.toPrediction == 1
    requires IsBeatPeriod(newPeriod) && expected < t.beatPeriod
    ensures Consistent(Tick(t, expected, newPeriod))
  {
    var t2 := Predict(CountDown(t), expected);
    RegularAppend(t.log, Prediction(t2.frame));
    if expected == 0 {
      BeatAtOnce(t, newPeriod);
    }
  }

  lemma BeatAtOnce(t: Timers, newPeriod: nat)
    requires Consistent(t) && !WaitsForBeat(t.log) && t.toPrediction == 1 && IsBeatPeriod(newPeriod)
    ensures Consistent(MarkBeat(Predict(CountDown(t), 0), newPeriod))
  {
    var t2 := Predict(CountDown(t), 0);
    RegularAppend(t.log, Prediction(t2.frame));
    RegularAppend(t2.log, Beat(t2.frame));
  }

  lemma WaitOrBeat(t: Timers, expected: nat, newPeriod: nat)
    requires Consistent(t) && (WaitsForBeat(t.log) || t.toPrediction > 1) && IsBeatPeriod(newPeriod)
    ensures Consistent(Tick(t, expected, newPeriod))
  {
    var t1 := CountDown(t);
    if t1.toBeat == 0 {
      RegularAppend(t.log, Beat(t1.frame));
    }
  }

  lemma TickKeepsConsistent(t: Timers, expected: nat, newPeriod: nat)
    requires Consistent(t) && IsBeatPeriod(newPeriod) && expected < t.beatPeriod
    ensures Consistent(Tick(t, expected, newPeriod))
  {
    if !WaitsForBeat(t.log) && t.toPrediction == 1 {
      PredictThenBeat(t, expected, newPeriod);
    } else {
      WaitOrBeat(t, expected, newPeriod);
    }
  }

  /** Setting a tempo: a beat is now, the next prediction half a new beat period away. A beat predicted
      before is lost. The beat period itself stays. */
  function Restart(t: Timers, tempoPeriod: nat): Timers {
    t.(toBeat := 0, toPrediction := Half(tempoPeriod), log := t.log + [TempoSet(t.frame)])
  }

  lemma RestartKeepsConsistent(t: Timers, tempoPeriod: nat)
    requires Consistent(t) && IsBeatPeriod(tempoPeriod)
    ensures Consistent(Restart(t, tempoPeriod))
  {
    RegularAppend(t.log, TempoSet(t.frame));
  }

  /** A frame of sound, or a tempo from outside. */
  datatype Input = Frame(expected: nat, newPeriod: nat) | SetTempo(tempoPeriod: nat)

  predicate Possible(t: Timers, i: Input) {
    match i
    case Frame(expected, newPeriod) => expected < t.beatPeriod && IsBeatPeriod(newPeriod)
    case SetTempo(tempoPeriod) => IsBeatPeriod(tempoPeriod)
  }

  function After(t: Timers, i: Input): Timers
    requires Possible(t, i)
  {
    match i
    case Frame(expected, newPeriod) => Tick(t, expected, newPeriod)
    case SetTempo(tempoPeriod) => Restart(t, tempoPeriod)
  }

  lemma AfterKeepsConsistent(t: Timers, i: Input)
    requires Consistent(t) && Possible(t, i)
    ensures Consistent(After(t, i))
  {
    match i
    case Frame(expected, newPeriod) => TickKeepsConsistent(t, expected, newPeriod);
    case SetTempo(tempoPeriod) => RestartKeepsConsistent(t, tempoPeriod);
  }

  /** The inputs that can lead from one state to another. */
  ghost predicate Leads(t: Timers, inputs: seq<Input>, last: Timers)
    decreases |inputs|
  {
    if inputs == [] then last == t
    else Possible(t, inputs[0]) && Leads(After(t, inputs[0]), inputs[1..], last)
  }

  /** In every run from the start, whatever is heard: each prediction is followed by exactly one beat
      before the next prediction unless the tempo is set in between, and successive beats are 16 to 97
      frames apart. */
  lemma {:induction false} EveryRun(t: Timers, inputs: seq<Input>, last: Timers)
    requires Consistent(t) && Leads(t, inputs, last)
    ensures Consistent(last) && Regular(last.log) && IsBeatPeriod(last.beatPeriod)
    decreases |inputs|
  {
    if inputs != [] {
      AfterKeepsConsistent(t, inputs[0]);
      EveryRun(After(t, inputs[0]), inputs[1..], last);
    }
  }

  /** Between two beats in a row there is exactly one prediction, and they are 16 to 97 frames apart. */
  lemma {:induction false} BeatsAreSpaced(log: seq<Event>, k: nat)
    requires Regular(log) && 1 <= k < |log| && log[k].Beat?
    ensures log[k - 1].Prediction? && 0 <= log[k].frame - log[k - 1].frame <= 64
    ensures k >= 2 ==> !log[k - 2].Prediction? && 16 <= log[k].frame - log[k - 2].frame <= 97
  {
    if k < |log| - 1 {
      BeatsAreSpaced(log[..|log| - 1], k);
    } else if k >= 2 {
      assert Regular(log[..k]) && Follows(log[..k][..k - 1], log[..k][k - 1]);
      assert log[..k][..k - 1] == log[..k - 1];
    }
  }

  lemma StartIsConsistent()
    ensures Consistent(INITIAL)
  {
  }
}
