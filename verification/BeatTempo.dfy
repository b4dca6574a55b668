/** Measuring the tempo: the adaptive threshold, the comb filter bank and the most likely of 41 tempi. The
    autocorrelation and the weights come from outside. */
module BeatTempo {
  import opened BeatTracker

  const TEMPI := 41
  const LAGS := 128

  // ----- sums and means -----

  function Sum(x: seq<real>): real {
    if x == [] then 0.0 else Sum(x[..|x| - 1]) + x[|x| - 1]
  }

  function Mean(x: seq<real>): real {
    if x == [] then 0.0 else Sum(x) / |x| as real
  }

  function Times(c: real, x: real): real {
    c * x
  }

  function Scale(x: seq<real>, c: real): (y: seq<real>)
    ensures |y| == |x|
    ensures forall i :: 0 <= i < |x| ==> y[i] == Times(c, x[i])
  {
    seq(|x|, i requires 0 <= i < |x| => Times(c, x[i]))
  }

  lemma ScaleSlice(x: seq<real>, c: real, from: nat, to: nat)
    requires from <= to <= |x|
    ensures Scale(x, c)[from..to] == Scale(x[from..to], c)
  {
    forall i | 0 <= i < to - from ensures Scale(x, c)[from..to][i] == Scale(x[from..to], c)[i] {
      assert x[from..to][i] == x[from + i];
    }
  }

  lemma {:induction false} SumScale(x: seq<real>, c: real)
    ensures Sum(Scale(x, c)) == Times(c, Sum(x))
  {
    if x != [] {
      var n := |x| - 1;
      ScaleSlice(x, c, 0, n);
      SumScale(x[..n], c);
      Distribute(c, Sum(x[..n]), x[n]);
      assert Scale(x, c)[n] == c * x[n];
    }
  }

  lemma Distribute(c: real, a: real, b: real)
    ensures Times(c, a + b) == Times(c, a) + Times(c, b)
  {
  }

  lemma MeanScale(x: seq<real>, c: real)
    ensures Mean(Scale(x, c)) == Times(c, Mean(x))
  {
    if x != [] {
      SumScale(x, c);
      DivideTimes(c, Sum(x), |x| as real);
    }
  }

  lemma DivideTimes(c: real, a: real, n: real)
    requires n > 0.0
    ensures Times(c, a) / n == Times(c, a / n)
  {
  }

  lemma {:induction false} SumNotNegative(x: seq<real>)
    requires forall i :: 0 <= i < |x| ==> x[i] >= 0.0
    ensures Sum(x) >= 0.0
  {
    if x != [] {
      SumNotNegative(x[..|x| - 1]);
    }
  }

  method CalculateMean(x: seq<real>) returns (mean: real)
    ensures mean == Mean(x)
  {
    var sum := 0.0;
    for i := 0 to |x|
      invariant sum == Sum(x[..i])
    {
      assert x[..i + 1][..i] == x[..i];
      sum := sum + x[i];
    }
    assert x[..|x|] == x;
    mean := if |x| > 0 then sum / |x| as real else 0.0;
  }

  // ----- the adaptive threshold -----

  /** The samples around place `i` that its threshold averages. The very first sample is left out near
      the start, and near the end. */
  function Window(x: seq<real>, i: nat): seq<real>
    requires 8 <= |x| && i < |x|
  {
    x[WindowFrom(|x|, i)..WindowTo(|x|, i)]
  }

  function WindowFrom(n: nat, i: nat): (from: nat)
    requires 8 <= n && i < n
    ensures from < n
  {
    if i >= n - 7 then if i - 7 > 1 then i - 7 else 1
    else if i <= 7 then 1
    else i - 8
  }

  function WindowTo(n: nat, i: nat): (to: nat)
    requires 8 <= n && i < n
    ensures WindowFrom(n, i) < to <= n
  {
    if i >= n - 7 then n
    else if i <= 7 then if i + 8 < n then i + 8 else n
    else i + 7
  }

  function Threshold(x: seq<real>, i: nat): real
    requires 8 <= |x| && i < |x|
  {
    Mean(Window(x, i))
  }

  function Clamp(x: real): real {
    if x < 0.0 then 0.0 else x
  }

  function Thresholded(x: seq<real>): (y: seq<real>)
    requires 8 <= |x|
    ensures |y| == |x|
  {
    seq(|x|, i requires 0 <= i < |x| => ThresholdedAt(x, i))
  }

  function ThresholdedAt(x: seq<real>, i: nat): real
    requires 8 <= |x| && i < |x|
  {
    Clamp(x[i] - Threshold(x, i))
  }

  /** The first pass goes up to place min(n, 7), whatever is there: it stays within a signal exactly from
      eight samples on. */
  lemma FirstPassStaysInside(n: nat)
    ensures (forall i: nat :: InFirstPass(i, n) ==> i < n) <==> n >= 8
  {
    if n < 8 {
      assert InFirstPass(n, n);
    }
  }

  predicate InFirstPass(i: nat, n: nat) {
    i <= if n < 7 then n else 7
  }

  method FindFirstThresholds(x: seq<real>, threshold: array<real>)
    requires 8 <= |x| && threshold.Length == |x|
    modifies threshold
    ensures forall k :: 0 <= k < 8 && k < |x| - 7 ==> threshold[k] == Threshold(x, k)
  {
    for i := 0 to 8
      invariant forall k :: 0 <= k < i && k < |x| - 7 ==> threshold[k] == Threshold(x, k)
    {
      threshold[i] := CalculateMean(x[1..if i + 8 < |x| then i + 8 else |x|]);
    }
  }

  method FindLastThresholds(x: seq<real>, threshold: array<real>)
    requires 8 <= |x| && threshold.Length == |x|
    modifies threshold
    ensures forall k :: 0 <= k < |x| - 7 ==> threshold[k] == old(threshold[k])
    ensures forall k :: |x| - 7 <= k < |x| ==> threshold[k] == Threshold(x, k)
  {
    for i := |x| - 7 to |x|
      invariant forall k :: 0 <= k < |x| - 7 ==> threshold[k] == old(threshold[k])
      invariant forall k :: |x| - 7 <= k < i ==> threshold[k] == Threshold(x, k)
    {
      threshold[i] := CalculateMean(x[if i - 7 > 1 then i - 7 else 1..|x|]);
    }
  }

  /** The thresholds in three passes, the last one overriding the first for short signals. */
  method FindThresholds(x: seq<real>) returns (threshold: array<real>)
    requires 8 <= |x|
    ensures fresh(threshold) && threshold.Length == |x|
    ensures forall k :: 0 <= k < |x| ==> threshold[k] == Threshold(x, k)
  {
    threshold := new real[|x|];
    FindFirstThresholds(x, threshold);
    var i := 8;
    while i < |x| - 7
      invariant 8 <= i
      invariant forall k :: 0 <= k < i && k < |x| - 7 ==> threshold[k] == Threshold(x, k)
    {
      threshold[i] := CalculateMean(x[i - 8..i + 7]);
      i := i + 1;
    }
    FindLastThresholds(x, threshold);
  }

  method AdaptiveThreshold(x: array<real>)
    requires 8 <= x.Length
    modifies x
    ensures x[..] == Thresholded(old(x[..]))
  {
    ghost var was := x[..];
    var threshold := FindThresholds(x[..]);
    for i := 0 to x.Length
      invariant forall k :: 0 <= k < x.Length ==> threshold[k] == Threshold(was, k)
      invariant forall k :: 0 <= k < i ==> x[k] == ThresholdedAt(was, k)
      invariant forall k :: i <= k < x.Length ==> x[k] == was[k]
    {
      assert x[i] == was[i];
      x[i] := x[i] - threshold[i];
      if x[i] < 0.0 {
        x[i] := 0.0;
      }
    }
  }

  /** The threshold follows the loudness. */
  lemma ThresholdScales(x: seq<real>, c: real)
    requires 8 <= |x| && c > 0.0
    ensures Thresholded(Scale(x, c)) == Scale(Thresholded(x), c)
  {
    forall i | 0 <= i < |x| ensures ThresholdedAt(Scale(x, c), i) == Times(c, ThresholdedAt(x, i)) {
      ThresholdScalesAt(x, c, i);
    }
  }

  lemma ThresholdScalesAt(x: seq<real>, c: real, i: nat)
    requires 8 <= |x| && c > 0.0 && i < |x|
    ensures ThresholdedAt(Scale(x, c), i) == Times(c, ThresholdedAt(x, i))
  {
    ScaleSlice(x, c, WindowFrom(|x|, i), WindowTo(|x|, i));
    MeanScale(Window(x, i), c);
    ClampScales(x[i], Threshold(x, i), c);
  }

  lemma ClampScales(a: real, b: real, c: real)
    requires c > 0.0
    ensures Clamp(Times(c, a) - Times(c, b)) == Times(c, Clamp(a - b))
  {
    var d := a - b;
    assert c * a - c * b == c * d;
    assert d < 0.0 ==> c * d < 0.0;
  }

  /** A constant signal is all threshold. */
  lemma ConstantVanishes(x: seq<real>, c: real, i: nat)
    requires 8 <= |x| && i < |x| && forall k :: 0 <= k < |x| ==> x[k] == c
    ensures Thresholded(x)[i] == 0.0
  {
    MeanOfConstant(Window(x, i), c);
  }

  lemma {:induction false} SumOfConstant(x: seq<real>, c: real)
    requires forall k :: 0 <= k < |x| ==> x[k] == c
    ensures Sum(x) == |x| as real * c
  {
    if x != [] {
      SumOfConstant(x[..|x| - 1], c);
    }
  }

  lemma MeanOfConstant(x: seq<real>, c: real)
    requires x != [] && forall k :: 0 <= k < |x| ==> x[k] == c
    ensures Mean(x) == c
  {
    SumOfConstant(x, c);
  }

  lemma SumOneMore(x: seq<real>, a: real)
    ensures Sum([]) == 0.0 && Sum(x + [a]) == Sum(x) + a
  {
    assert (x + [a])[..|x|] == x;
  }

  /** Which samples the threshold of a place averages: from the eighth before it up to the sixth after it,
      nearer to the start from the second one on, and nearer to the end from the seventh before it on. */
  predicate IsWindow(n: nat, i: nat, from: nat, to: nat) {
    if n - 7 <= i < n then from == (if i >= 9 then i - 7 else 1) && to == n
    else if i <= 7 then from == 1 && to == (if i + 8 <= n then i + 8 else n)
    else from == i - 8 && to == i + 7
  }

  lemma WindowIs(x: seq<real>, i: nat, from: nat, to: nat)
    requires 8 <= |x| && i < |x| && IsWindow(|x|, i, from, to)
    ensures from < to <= |x| && Window(x, i) == x[from..to]
  {
  }

  /** The excess of a sample over the mean of `n` samples, if there is any. */
  predicate IsExcess(y: real, x: real, sum: real, n: real) {
    if x * n >= sum then (x - y) * n == sum else y == 0.0
  }

  lemma ClampIsExcess(x: real, sum: real, n: real)
    requires n > 0.0
    ensures IsExcess(Clamp(x - sum / n), x, sum, n)
  {
    assert sum / n * n == sum;
    QuotientOrder(x, sum, n);
  }

  /** What is left of a sample is its excess over the mean of these samples. */
  lemma ThresholdIs(x: seq<real>, i: nat, from: nat, to: nat)
    requires 8 <= |x| && i < |x| && IsWindow(|x|, i, from, to)
    ensures from < to <= |x| && IsExcess(Thresholded(x)[i], x[i], Sum(x[from..to]), (to - from) as real)
  {
    WindowIs(x, i, from, to);
    var window := x[from..to];
    assert Threshold(x, i) == Sum(window) / |window| as real;
    ClampIsExcess(x[i], Sum(window), |window| as real);
  }

  lemma QuotientOrder(a: real, sum: real, n: real)
    requires n > 0.0
    ensures a * n >= sum <==> a >= sum / n
  {
    var d := a - sum / n;
    assert sum / n * n == sum;
    assert d * n == a * n - sum;
    assert d > 0.0 ==> d * n > 0.0;
    assert d < 0.0 ==> d * n < 0.0;
  }

  // ----- the comb filter bank -----

  /** The correlations within `a` - 1 steps of the `a`-th multiple of a lag. */
  function Tooth(acf: seq<real>, lag: nat, a: nat): (t: seq<real>)
    requires |acf| == BUFFER_SIZE && 2 <= lag <= 127 && 1 <= a <= 4
    ensures |t| == 2 * a - 1
  {
    Multiples(a, lag);
    acf[a * lag - a..a * lag + a - 1]
  }

  lemma Multiples(a: nat, lag: nat)
    requires 1 <= a <= 4 && 2 <= lag <= 127
    ensures a <= a * lag <= 508
  {
  }

  /** The sum of the means of a lag's first `n` teeth. */
  function Comb(acf: seq<real>, lag: nat, n: nat): real
    requires |acf| == BUFFER_SIZE && 2 <= lag <= 127 && n <= 4
  {
    if n == 0 then 0.0 else Comb(acf, lag, n - 1) + Mean(Tooth(acf, lag, n))
  }

  /** A row of the filter bank is the weight of its lag times the sum of the means of the four teeth. */
  function CombFilterBank(acf: seq<real>, weighting: seq<real>): (rows: seq<real>)
    requires |acf| == BUFFER_SIZE && |weighting| == LAGS
    ensures |rows| == LAGS
  {
    seq(LAGS, k requires 0 <= k < LAGS => CombRow(acf, weighting, k))
  }

  function CombRow(acf: seq<real>, weighting: seq<real>, k: nat): real
    requires |acf| == BUFFER_SIZE && |weighting| == LAGS && k < LAGS
  {
    if 1 <= k <= 126 then Times(weighting[k], Comb(acf, k + 1, 4)) else 0.0
  }

  /** The four teeth of a lag: one correlation at the lag, three at twice, five at three times and seven at
      four times the lag; correlation `n` has the lag `n` + 1. The first and the last row stay empty. */
  lemma CombRowIs(acf: seq<real>, weighting: seq<real>, k: nat, lag: nat)
    requires |acf| == BUFFER_SIZE && |weighting| == LAGS && lag == k + 1 && k < LAGS
    ensures var row := CombFilterBank(acf, weighting)[k];
            if lag == 1 || lag == LAGS then row == 0.0
            else row == weighting[k] * (Mean(acf[lag - 1..lag]) + Mean(acf[2 * lag - 2..2 * lag + 1])
                                        + Mean(acf[3 * lag - 3..3 * lag + 2]) + Mean(acf[4 * lag - 4..4 * lag + 3]))
  {
    if 1 <= k <= 126 {
      FourTeeth(acf, lag);
    }
  }

  lemma FourTeeth(acf: seq<real>, lag: nat)
    requires |acf| == BUFFER_SIZE && 2 <= lag <= 127
    ensures Comb(acf, lag, 4) == Mean(acf[lag - 1..lag]) + Mean(acf[2 * lag - 2..2 * lag + 1])
                                 + Mean(acf[3 * lag - 3..3 * lag + 2]) + Mean(acf[4 * lag - 4..4 * lag + 3])
  {
    assert Comb(acf, lag, 0) == 0.0;
    assert Comb(acf, lag, 1) == Comb(acf, lag, 0) + Mean(Tooth(acf, lag, 1));
    assert Comb(acf, lag, 2) == Comb(acf, lag, 1) + Mean(Tooth(acf, lag, 2));
    assert Comb(acf, lag, 3) == Comb(acf, lag, 2) + Mean(Tooth(acf, lag, 3));
    assert Comb(acf, lag, 4) == Comb(acf, lag, 3) + Mean(Tooth(acf, lag, 4));
  }

  /** What a correlation adds to a row. */
  function Share(x: real, weight: real, places: nat): real
    requires places > 0
  {
    x * weight / places as real
  }

  lemma AddShare(t: seq<real>, k: nat, weight: real)
    requires k < |t|
    ensures Share(Sum(t[..k + 1]), weight, |t|) == Share(Sum(t[..k]), weight, |t|) + Share(t[k], weight, |t|)
  {
    assert t[..k + 1][..k] == t[..k];
    AddProducts(Sum(t[..k]), t[k], weight, |t| as real);
  }

  lemma AddProducts(s: real, x: real, weight: real, places: real)
    requires places > 0.0
    ensures s * weight / places + x * weight / places == (s + x) * weight / places
  {
  }

  lemma ShareOfSum(t: seq<real>, weight: real)
    requires t != []
    ensures Share(Sum(t[..|t|]), weight, |t|) == Times(weight, Mean(t))
  {
    assert t[..|t|] == t;
    Exchange(Sum(t), weight, |t| as real);
  }

  lemma Exchange(s: real, weight: real, places: real)
    requires places > 0.0
    ensures s * weight / places == Times(weight, s / places)
  {
  }

  /** One tooth, summand by summand as the filter adds them up. */
  method AddTooth(acf: seq<real>, weight: real, lag: nat, a: nat, row: real) returns (sum: real)
    requires |acf| == BUFFER_SIZE && 2 <= lag <= 127 && 1 <= a <= 4
    ensures sum == row + Times(weight, Mean(Tooth(acf, lag, a)))
  {
    Multiples(a, lag);
    var centre := a * lag;
    ghost var t := Tooth(acf, lag, a);
    sum := row;
    for b := 1 - a to a
      invariant sum == row + Share(Sum(t[..b - (1 - a)]), weight, |t|)
    {
      AddShare(t, b - (1 - a), weight);
      sum := sum + Share(acf[centre + b - 1], weight, 2 * a - 1);
    }
    ShareOfSum(t, weight);
  }

  lemma AddOneMean(acf: seq<real>, weight: real, lag: nat, a: nat)
    requires |acf| == BUFFER_SIZE && 2 <= lag <= 127 && 1 <= a <= 4
    ensures Times(weight, Comb(acf, lag, a)) ==
            Times(weight, Comb(acf, lag, a - 1)) + Times(weight, Mean(Tooth(acf, lag, a)))
  {
    Distribute(weight, Comb(acf, lag, a - 1), Mean(Tooth(acf, lag, a)));
  }

  method AddTeeth(acf: seq<real>, weight: real, lag: nat, row: real) returns (sum: real)
    requires |acf| == BUFFER_SIZE && 2 <= lag <= 127
    ensures sum == row + Times(weight, Comb(acf, lag, 4))
  {
    sum := row;
    for a := 1 to 5
      invariant sum == row + Times(weight, Comb(acf, lag, a - 1))
    {
      sum := AddTooth(acf, weight, lag, a, sum);
      AddOneMean(acf, weight, lag, a);
    }
  }

  method CalculateCombFilterBank(acf: seq<real>, weighting: seq<real>) returns (rows: seq<real>)
    requires |acf| == BUFFER_SIZE && |weighting| == LAGS
    ensures rows == CombFilterBank(acf, weighting)
  {
    rows := seq(LAGS, _ => 0.0);
    for lag := 2 to 128
      invariant |rows| == LAGS
      invariant forall k :: 0 <= k < lag - 1 ==> rows[k] == CombRow(acf, weighting, k)
      invariant forall k :: lag - 1 <= k < LAGS ==> rows[k] == 0.0
    {
      var row := AddTeeth(acf, weighting[lag - 1], lag, rows[lag - 1]);
      rows := rows[lag - 1 := row];
    }
  }

  // ----- the tempo -----

  /** round(60 * 44100 / 512 / tempo) for the tempo of an index, or for twice that tempo. */
  function LagOf(tempo: nat): int
    requires tempo > 0
  {
    Round(60.0 * 44100.0 / 512.0 / tempo as real)
  }

  /** The lag of a tempo is the number of frames of 512 samples that comes closest to a beat at that tempo. */
  lemma LagIsNearest(tempo: nat)
    requires tempo > 0
    ensures IsNearest(LagOf(tempo), tempo as real * 512.0, 60.0 * 44100.0)
  {
    var frames := 60.0 * 44100.0 / 512.0;
    RoundedQuotient(frames, tempo as real);
    NearestTimes(LagOf(tempo), tempo as real, frames, 512.0);
  }

  lemma NearestTimes(n: int, unit: real, amount: real, c: real)
    requires IsNearest(n, unit, amount) && c > 0.0
    ensures IsNearest(n, unit * c, amount * c)
  {
    var d := 2.0 * (n as real * unit - amount);
    assert 2.0 * (n as real * (unit * c) - amount * c) == d * c;
    OrderTimes(-unit, d, c);
    OrderTimes(d, unit, c);
  }

  lemma OrderTimes(a: real, b: real, c: real)
    requires a <= b && c > 0.0
    ensures a * c <= b * c
  {
  }

  /** Both rows that are read for an index exist. */
  lemma LagsInRange(index: nat)
    requires index < TEMPI
    ensures 32 <= LagOf(2 * index + 80) <= 65
    ensures 16 <= LagOf(4 * index + 160) <= 32
  {
    DivideBounds(60.0 * 44100.0 / 512.0, (2 * index + 80) as real, 32.0, 65.0);
    DivideBounds(60.0 * 44100.0 / 512.0, (4 * index + 160) as real, 16.0, 32.4);
  }

  function Observations(rows: seq<real>): (obs: seq<real>)
    requires |rows| == LAGS
    ensures |obs| == TEMPI
  {
    seq(TEMPI, i requires 0 <= i < TEMPI => Observation(rows, i))
  }

  function Observation(rows: seq<real>, i: nat): real
    requires |rows| == LAGS && i < TEMPI
  {
    LagsInRange(i);
    rows[LagOf(2 * i + 80) - 1] + rows[LagOf(4 * i + 160) - 1]
  }

  /** A tempo is observed in the rows of its own lag and of the lag of twice the tempo: row `n` - 1 belongs
      to lag `n`. */
  lemma ObservationIs(rows: seq<real>, i: nat, own: nat, double: nat)
    requires |rows| == LAGS && i < TEMPI && own == LagOf(2 * i + 80) && double == LagOf(2 * (2 * i + 80))
    ensures 1 <= own <= LAGS && 1 <= double <= LAGS && Observations(rows)[i] == rows[own - 1] + rows[double - 1]
  {
    LagsInRange(i);
  }

  /** The largest of the ways to reach tempo `j` from the first `n` tempi before, or -1. */
  function BestWay(before: seq<real>, transition: (nat, nat) -> real, j: nat, n: nat): real
    requires n <= |before|
  {
    if n == 0 then -1.0 else Max(BestWay(before, transition, j, n - 1), before[n - 1] * transition(n - 1, j))
  }

  function Likelihoods(before: seq<real>, transition: (nat, nat) -> real, obs: seq<real>): (d: seq<real>)
    requires |before| == TEMPI && |obs| == TEMPI
    ensures |d| == TEMPI
  {
    seq(TEMPI, j requires 0 <= j < TEMPI => Likelihood(before, transition, obs, j))
  }

  function Likelihood(before: seq<real>, transition: (nat, nat) -> real, obs: seq<real>, j: nat): real
    requires |before| == TEMPI && |obs| == TEMPI && j < TEMPI
  {
    BestWay(before, transition, j, TEMPI) * obs[j]
  }

  /** A likelihood is the largest, over all tempi before, of their weight times that of the transition times
      what is observed of the new tempo. */
  lemma LikelihoodIs(before: seq<real>, transition: (nat, nat) -> real, obs: seq<real>, j: nat)
    requires |before| == TEMPI && |obs| == TEMPI && j < TEMPI
    requires NotNegative(before) && NotNegative(obs) && AllPositive(transition)
    ensures forall i: nat :: i < TEMPI ==>
              before[i] * transition(i, j) * obs[j] <= Likelihoods(before, transition, obs)[j]
    ensures exists i: nat :: i < TEMPI
              && Likelihoods(before, transition, obs)[j] == before[i] * transition(i, j) * obs[j]
  {
    var i := BestWayIs(before, transition, j, TEMPI);
    forall i: nat | i < TEMPI
      ensures before[i] * transition(i, j) * obs[j] <= BestWay(before, transition, j, TEMPI) * obs[j]
    {
      FactorOrder(before[i] * transition(i, j), BestWay(before, transition, j, TEMPI), obs[j]);
    }
    assert Likelihoods(before, transition, obs)[j] == before[i] * transition(i, j) * obs[j];
  }

  lemma FactorOrder(a: real, b: real, c: real)
    requires a <= b && c >= 0.0
    ensures a * c <= b * c
  {
  }

  lemma {:induction false} BestWayIs(before: seq<real>, transition: (nat, nat) -> real, j: nat, n: nat) returns (i: nat)
    requires 1 <= n <= |before| && NotNegative(before) && AllPositive(transition)
    ensures i < n && BestWay(before, transition, j, n) == before[i] * transition(i, j)
    ensures forall m: nat :: m < n ==> before[m] * transition(m, j) <= BestWay(before, transition, j, n)
  {
    ProductNotNegative(before[n - 1], transition(n - 1, j));
    i := n - 1;
    if n > 1 {
      i := BestWayIs(before, transition, j, n - 1);
      if BestWay(before, transition, j, n) != BestWay(before, transition, j, n - 1) {
        i := n - 1;
      }
    } else {
      assert BestWay(before, transition, j, 0) == -1.0;
    }
  }

  ghost predicate AllPositive(transition: (nat, nat) -> real) {
    forall i, j :: transition(i, j) > 0.0
  }

  predicate NotNegative(x: seq<real>) {
    forall i :: 0 <= i < |x| ==> x[i] >= 0.0
  }

  lemma {:induction false} BestWayNotNegative(before: seq<real>, transition: (nat, nat) -> real, j: nat, n: nat)
    requires 1 <= n <= |before| && NotNegative(before) && AllPositive(transition)
    ensures BestWay(before, transition, j, n) >= 0.0
  {
    ProductNotNegative(before[n - 1], transition(n - 1, j));
  }

  lemma ProductNotNegative(a: real, b: real)
    requires a >= 0.0 && b >= 0.0
    ensures a * b >= 0.0
  {
  }

  lemma LikelihoodsNotNegative(before: seq<real>, transition: (nat, nat) -> real, obs: seq<real>)
    requires |before| == TEMPI && |obs| == TEMPI && NotNegative(before) && NotNegative(obs) && AllPositive(transition)
    ensures NotNegative(Likelihoods(before, transition, obs))
  {
    forall j | 0 <= j < TEMPI ensures Likelihoods(before, transition, obs)[j] >= 0.0 {
      BestWayNotNegative(before, transition, j, TEMPI);
      ProductNotNegative(BestWay(before, transition, j, TEMPI), obs[j]);
    }
  }

  lemma ObservationsNotNegative(rows: seq<real>)
    requires |rows| == LAGS && NotNegative(rows)
    ensures NotNegative(Observations(rows))
  {
    forall i | 0 <= i < TEMPI ensures Observations(rows)[i] >= 0.0 {
      LagsInRange(i);
    }
  }

  /** Divided by its sum, if that is positive. */
  function Normalised(x: seq<real>): (y: seq<real>)
    ensures |y| == |x|
  {
    if Sum(x) > 0.0 then Scale(x, 1.0 / Sum(x)) else x
  }

  /** What is left is a distribution, in the same order, or nothing at all. */
  lemma NormalisedIsDistribution(x: seq<real>)
    requires NotNegative(x)
    ensures NotNegative(Normalised(x))
    ensures Sum(Normalised(x)) == if Sum(x) > 0.0 then 1.0 else 0.0
    ensures SameOrder(x, Normalised(x))
  {
    SumNotNegative(x);
    if Sum(x) > 0.0 {
      var c := 1.0 / Sum(x);
      SumScale(x, c);
      ScaleKeepsOrder(x, c);
    }
  }

  lemma ScaleKeepsOrder(x: seq<real>, c: real)
    requires NotNegative(x) && c > 0.0
    ensures NotNegative(Scale(x, c)) && SameOrder(x, Scale(x, c))
  {
    forall i, j | 0 <= i < |x| && 0 <= j < |x| ensures x[i] < x[j] <==> Scale(x, c)[i] < Scale(x, c)[j] {
      OrderScales(x[i], x[j], c);
    }
    forall i | 0 <= i < |x| ensures Scale(x, c)[i] >= 0.0 {
      ProductNotNegative(c, x[i]);
    }
  }

  predicate SameOrder(x: seq<real>, y: seq<real>) {
    |x| == |y| && forall i, j :: 0 <= i < |x| && 0 <= j < |x| ==> (x[i] < x[j] <==> y[i] < y[j])
  }

  lemma OrderScales(a: real, b: real, c: real)
    requires c > 0.0
    ensures a < b <==> Times(c, a) < Times(c, b)
  {
    var d := b - a;
    assert c * b - c * a == c * d;
    assert d > 0.0 ==> c * d > 0.0;
    assert d < 0.0 ==> c * d < 0.0;
  }

  method CalculateBestWay(before: seq<real>, transition: (nat, nat) -> real, j: nat) returns (maxValue: real)
    requires |before| == TEMPI
    ensures maxValue == BestWay(before, transition, j, TEMPI)
  {
    maxValue := -1.0;
    for i := 0 to TEMPI
      invariant maxValue == BestWay(before, transition, j, i)
    {
      var current := before[i] * transition(i, j);
      if current > maxValue {
        maxValue := current;
      }
    }
  }

  lemma DivideIsScale(a: real, sum: real)
    requires sum > 0.0
    ensures a / sum == Times(1.0 / sum, a)
  {
  }

  method Normalise(x: seq<real>) returns (y: seq<real>)
    ensures y == Normalised(x)
  {
    var sum := 0.0;
    for i := 0 to |x|
      invariant sum == Sum(x[..i])
    {
      assert x[..i + 1][..i] == x[..i];
      sum := sum + x[i];
    }
    assert x[..|x|] == x;
    y := x;
    if sum > 0.0 {
      for i := 0 to |x|
        invariant |y| == |x| && forall k :: 0 <= k < |x| ==> y[k] == if k < i then Times(1.0 / sum, x[k]) else x[k]
      {
        DivideIsScale(y[i], sum);
        y := y[i := y[i] / sum];
      }
      assert y == Scale(x, 1.0 / sum);
    }
  }

  method CalculateObservations(rows: seq<real>) returns (obs: seq<real>)
    requires |rows| == LAGS
    ensures obs == Observations(rows)
  {
    obs := [];
    for i := 0 to TEMPI
      invariant |obs| == i && forall k :: 0 <= k < i ==> obs[k] == Observation(rows, k)
    {
      LagsInRange(i);
      obs := obs + [rows[LagOf(2 * i + 80) - 1] + rows[LagOf(4 * i + 160) - 1]];
    }
  }

  method CalculateLikelihoods(before: seq<real>, transition: (nat, nat) -> real, obs: seq<real>) returns (d: seq<real>)
    requires |before| == TEMPI && |obs| == TEMPI
    ensures d == Likelihoods(before, transition, obs)
  {
    d := [];
    for j := 0 to TEMPI
      invariant |d| == j && forall k :: 0 <= k < j ==> d[k] == Likelihood(before, transition, obs, k)
    {
      var maxValue := CalculateBestWay(before, transition, j);
      d := d + [maxValue * obs[j]];
    }
  }

  /** The new distribution over tempi and the beat period of its first largest entry. */
  method CalculateTempo(rows: seq<real>, before: seq<real>, transition: (nat, nat) -> real)
    returns (delta: seq<real>, maxIndex: nat, beatPeriod: nat)
    requires |rows| == LAGS && NotNegative(rows) && |before| == TEMPI && NotNegative(before) && AllPositive(transition)
    ensures delta == Normalised(Likelihoods(before, transition, Observations(rows)))
    ensures IsFirstMaximum(Likelihoods(before, transition, Observations(rows)), maxIndex)
    ensures |delta| == TEMPI && NotNegative(delta)
    ensures beatPeriod == BeatPeriodOf(maxIndex) && IsBeatPeriod(beatPeriod)
    ensures IsNearest(beatPeriod, (2 * maxIndex + 80) as real * 512.0, 60.0 * 44100.0)
  {
    var obs := CalculateObservations(rows);
    var likelihoods := CalculateLikelihoods(before, transition, obs);
    ObservationsNotNegative(rows);
    LikelihoodsNotNegative(before, transition, Observations(rows));
    delta := Normalise(likelihoods);
    NormalisedIsDistribution(likelihoods);
    var index := FirstLargest(delta);
    SameFirstMaximum(likelihoods, delta, index);
    maxIndex := index;
    BeatPeriodInRange(maxIndex);
    BeatPeriodIsNearest(maxIndex);
    beatPeriod := BeatPeriodOf(maxIndex);
  }

  method FirstLargest(values: seq<real>) returns (n: int)
    requires NotNegative(values) && values != []
    ensures n >= 0 && IsFirstMaximum(values, n)
  {
    var maxValue := -1.0;
    n := -1;
    for i := 0 to |values|
      invariant i == 0 ==> maxValue == -1.0
      invariant i > 0 ==> 0 <= n < i && maxValue == values[n] && forall m :: 0 <= m < i ==> values[m] <= maxValue
      invariant i > 0 ==> forall m :: 0 <= m < n ==> values[m] < maxValue
    {
      if values[i] > maxValue {
        maxValue := values[i];
        n := i;
      }
    }
  }

  lemma SameFirstMaximum(x: seq<real>, y: seq<real>, n: nat)
    requires SameOrder(x, y) && IsFirstMaximum(y, n)
    ensures IsFirstMaximum(x, n)
  {
    forall m | 0 <= m < |x| ensures x[m] <= x[n] && (m < n ==> x[m] < x[n]) {
      assert !(y[n] < y[m]);
      assert m < n ==> y[m] < y[n];
    }
  }

  /** The tempo does not depend on the loudness: filter rows that are all `c` times as large lead to the
      same choice. */
  lemma LoudnessIsIrrelevant(rows: seq<real>, c: real, before: seq<real>, transition: (nat, nat) -> real, n: nat)
    requires |rows| == LAGS && c > 0.0 && |before| == TEMPI && n < TEMPI
    requires IsFirstMaximum(Likelihoods(before, transition, Observations(Thresholded(rows))), n)
    ensures IsFirstMaximum(Likelihoods(before, transition, Observations(Thresholded(Scale(rows, c)))), n)
  {
    ThresholdScales(rows, c);
    var obs := Observations(Thresholded(rows));
    var louder := Observations(Scale(Thresholded(rows), c));
    forall i | 0 <= i < TEMPI ensures louder[i] == Times(c, obs[i]) {
      ObservationScales(Thresholded(rows), c, i);
    }
    LikelihoodsScale(before, transition, obs, louder, c);
    SameFirstMaximum(Likelihoods(before, transition, louder), Likelihoods(before, transition, obs), n);
  }

  lemma ObservationScales(rows: seq<real>, c: real, i: nat)
    requires |rows| == LAGS && i < TEMPI
    ensures Observation(Scale(rows, c), i) == Times(c, Observation(rows, i))
  {
    LagsInRange(i);
    Distribute(c, rows[LagOf(2 * i + 80) - 1], rows[LagOf(4 * i + 160) - 1]);
  }

  lemma LikelihoodsScale(before: seq<real>, transition: (nat, nat) -> real, obs: seq<real>, louder: seq<real>, c: real)
    requires |before| == TEMPI && |obs| == TEMPI && |louder| == TEMPI && c > 0.0
    requires forall i :: 0 <= i < TEMPI ==> louder[i] == Times(c, obs[i])
    ensures SameOrder(Likelihoods(before, transition, louder), Likelihoods(before, transition, obs))
  {
    var l := Likelihoods(before, transition, louder);
    var d := Likelihoods(before, transition, obs);
    forall i | 0 <= i < TEMPI ensures l[i] == Times(c, d[i]) {
      MoveFactor(BestWay(before, transition, i, TEMPI), c, obs[i]);
    }
    forall i, j | 0 <= i < TEMPI && 0 <= j < TEMPI ensures l[i] < l[j] <==> d[i] < d[j] {
      OrderScales(d[i], d[j], c);
    }
  }

  lemma MoveFactor(a: real, c: real, b: real)
    ensures a * Times(c, b) == Times(c, a * b)
  {
  }
}
