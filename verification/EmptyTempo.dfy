/** A tempo distribution in which nothing is left: what empties it, and what it takes to fill it again. */
module EmptyTempo {
  import opened BeatTracker
  import opened BeatTempo
  import opened BeatTracking

  predicate Empty(d: seq<real>) {
    forall i :: 0 <= i < |d| ==> d[i] == 0.0
  }

  lemma ProductIsZero(a: real, b: real)
    ensures a * b == 0.0 <==> a == 0.0 || b == 0.0
  {
    if a != 0.0 && b != 0.0 {
      assert a * b / b == a;
    }
  }

  lemma {:induction false} NoWayIff(before: seq<real>, transition: (nat, nat) -> real, j: nat, n: nat)
    requires 1 <= n <= |before| && NotNegative(before) && AllPositive(transition)
    ensures BestWay(before, transition, j, n) == 0.0 <==> Empty(before[..n])
  {
    ProductNotNegative(before[n - 1], transition(n - 1, j));
    ProductIsZero(before[n - 1], transition(n - 1, j));
    assert before[..n] == before[..n - 1] + [before[n - 1]];
    if n > 1 {
      BestWayNotNegative(before, transition, j, n - 1);
      NoWayIff(before, transition, j, n - 1);
    }
  }

  lemma NoLikelihoodIff(before: seq<real>, transition: (nat, nat) -> real, obs: seq<real>)
    requires |before| == TEMPI && |obs| == TEMPI && NotNegative(before) && NotNegative(obs) && AllPositive(transition)
    ensures Empty(Likelihoods(before, transition, obs)) <==> Empty(before) || Empty(obs)
  {
    assert before[..TEMPI] == before;
    var d := Likelihoods(before, transition, obs);
    forall j | 0 <= j < TEMPI
      ensures d[j] == 0.0 <==> Empty(before) || obs[j] == 0.0
    {
      NoWayIff(before, transition, j, TEMPI);
      ProductIsZero(BestWay(before, transition, j, TEMPI), obs[j]);
    }
  }

  lemma {:induction false} SumIsZeroIff(x: seq<real>)
    requires NotNegative(x)
    ensures Sum(x) >= 0.0 && (Sum(x) == 0.0 <==> Empty(x))
  {
    if x != [] {
      SumIsZeroIff(x[..|x| - 1]);
      assert x == x[..|x| - 1] + [x[|x| - 1]];
    }
  }

  lemma NormalisedIsEmptyIff(x: seq<real>)
    requires NotNegative(x)
    ensures Empty(Normalised(x)) <==> Empty(x)
  {
    NormalisedIsDistribution(x);
    SumIsZeroIff(x);
    SumIsZeroIff(Normalised(x));
  }

  /** What a measurement of the tempo leaves for the next one. */
  ghost function Measured(e: Engine, onsets: seq<real>, before: seq<real>): (d: seq<real>)
    requires IsSound(e) && |before| == TEMPI
    ensures |d| == TEMPI
  {
    Normalised(NextLikelihoods(e, onsets, before))
  }

  /** The filter rows hold nothing for any tempo. */
  ghost predicate FindsNothing(e: Engine, onsets: seq<real>)
    requires IsSound(e)
  {
    Empty(Observations(Rows(e, onsets)))
  }

  lemma MeasuredIsEmptyIff(e: Engine, onsets: seq<real>, before: seq<real>)
    requires IsSound(e) && |before| == TEMPI && NotNegative(before)
    ensures NotNegative(Measured(e, onsets, before))
    ensures Empty(Measured(e, onsets, before)) <==> Empty(before) || FindsNothing(e, onsets)
  {
    var obs := Observations(Rows(e, onsets));
    ObservationsNotNegative(Rows(e, onsets));
    LikelihoodsNotNegative(before, e.transition, obs);
    NormalisedIsDistribution(Likelihoods(before, e.transition, obs));
    NormalisedIsEmptyIff(Likelihoods(before, e.transition, obs));
    NoLikelihoodIff(before, e.transition, obs);
  }

  /** The distribution after a list of measurements, the last one last. */
  ghost function MeasuredAll(e: Engine, heard: seq<seq<real>>, before: seq<real>): (d: seq<real>)
    requires IsSound(e) && |before| == TEMPI
    ensures |d| == TEMPI
    decreases |heard|
  {
    if heard == [] then before
    else Measured(e, heard[|heard| - 1], MeasuredAll(e, heard[..|heard| - 1], before))
  }

  /** After any measurements the distribution is empty exactly when it was before, or one of them has found
      nothing: whatever is heard later does not fill it again. */
  lemma {:induction false} EmptyForGood(e: Engine, heard: seq<seq<real>>, before: seq<real>)
    requires IsSound(e) && |before| == TEMPI && NotNegative(before)
    ensures NotNegative(MeasuredAll(e, heard, before))
    ensures Empty(MeasuredAll(e, heard, before)) <==> Empty(before) || exists onsets <- heard :: FindsNothing(e, onsets)
    decreases |heard|
  {
    if heard != [] {
      var first, last := heard[..|heard| - 1], heard[|heard| - 1];
      EmptyForGood(e, first, before);
      MeasuredIsEmptyIff(e, last, MeasuredAll(e, first, before));
      assert heard == first + [last];
    }
  }

  /** The tempo measured is then the slowest one: the first index, a beat every 65 frames. */
  lemma EmptyIsSlowest(e: Engine, onsets: seq<real>, before: seq<real>, index: nat)
    requires IsSound(e) && |before| == TEMPI && NotNegative(before) && (Empty(before) || FindsNothing(e, onsets))
    requires IsFirstMaximum(NextLikelihoods(e, onsets, before), index)
    ensures index == 0 && BeatPeriodOf(index) == 65
  {
    ObservationsNotNegative(Rows(e, onsets));
    NoLikelihoodIff(before, e.transition, Observations(Rows(e, onsets)));
    assert NextLikelihoods(e, onsets, before)[0] == 0.0;
  }

  /** A tempo that is set, or fixed, fills the distribution again, and the next measurement keeps it filled
      exactly when it finds something. */
  lemma SettingFillsIt(e: Engine, onsets: seq<real>, index: nat)
    requires IsSound(e) && index < TEMPI
    ensures !Empty(OneHot(index))
    ensures Empty(Measured(e, onsets, OneHot(index))) <==> FindsNothing(e, onsets)
  {
    assert OneHot(index)[index] == 1.0;
    MeasuredIsEmptyIff(e, onsets, OneHot(index));
  }

  // ----- what empties it -----

  lemma FlatVanishes(x: seq<real>, c: real)
    requires 8 <= |x| && forall k :: 0 <= k < |x| ==> x[k] == c
    ensures Empty(Thresholded(x))
  {
    forall i | 0 <= i < |x| ensures Thresholded(x)[i] == 0.0 {
      ConstantVanishes(x, c, i);
    }
  }

  lemma NoMean(t: seq<real>)
    requires t != [] && Empty(t)
    ensures Mean(t) == 0.0
  {
    MeanOfConstant(t, 0.0);
  }

  lemma EmptySlice(x: seq<real>, from: nat, to: nat)
    requires from <= to <= |x| && Empty(x)
    ensures Empty(x[from..to])
  {
  }

  lemma NoTooth(acf: seq<real>, lag: nat, a: nat)
    requires |acf| == BUFFER_SIZE && 2 <= lag <= 127 && 1 <= a <= 4 && Empty(acf)
    ensures Mean(Tooth(acf, lag, a)) == 0.0
  {
    Multiples(a, lag);
    EmptySlice(acf, a * lag - a, a * lag + a - 1);
    NoMean(Tooth(acf, lag, a));
  }

  lemma {:induction false} NothingCombed(acf: seq<real>, lag: nat, n: nat)
    requires |acf| == BUFFER_SIZE && 2 <= lag <= 127 && n <= 4 && Empty(acf)
    ensures Comb(acf, lag, n) == 0.0
  {
    if n > 0 {
      NothingCombed(acf, lag, n - 1);
      NoTooth(acf, lag, n);
    }
  }

  lemma NoRows(acf: seq<real>, weighting: seq<real>)
    requires |acf| == BUFFER_SIZE && |weighting| == LAGS && Empty(acf)
    ensures Empty(CombFilterBank(acf, weighting))
  {
    forall k | 0 <= k < LAGS ensures CombRow(acf, weighting, k) == 0.0 {
      if 1 <= k <= 126 {
        NothingCombed(acf, k + 1, 4);
      }
    }
  }

  /** Onsets that are flat after resampling, as in a long silence, leave nothing to find: one measurement of
      them empties the distribution. The autocorrelation is taken to give nothing for nothing. */
  lemma FlatFindsNothing(e: Engine, onsets: seq<real>, c: real)
    requires IsSound(e) && forall k :: 0 <= k < BUFFER_SIZE ==> e.resample(onsets)[k] == c
    requires forall x :: Empty(x) ==> Empty(e.correlate(x))
    ensures FindsNothing(e, onsets)
  {
    FlatVanishes(e.resample(onsets), c);
    var acf := e.correlate(Thresholded(e.resample(onsets)));
    NoRows(acf, e.weighting);
    FlatVanishes(CombFilterBank(acf, e.weighting), 0.0);
    forall i | 0 <= i < TEMPI ensures Observations(Rows(e, onsets))[i] == 0.0 {
      LagsInRange(i);
    }
  }
}
