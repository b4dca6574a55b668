/** Real arithmetic of interpolation, shared by the sequencer and the cue playback. */
module Interpolation {

  predicate InUnit(p: real) {
    0.0 <= p <= 1.0
  }

  lemma SquareInUnit(a: real)
    ensures InUnit(a * a) <==> -1.0 <= a <= 1.0
  {
    if -1.0 <= a <= 1.0 {
      var b := if a < 0.0 then -a else a;
      assert a * a == b * b;
      assert b * b <= b * 1.0;
    } else if a > 1.0 {
      assert a * a >= a * 1.0;
    } else {
      assert a * a == (-a) * (-a) >= (-a) * 1.0;
    }
  }

  lemma DivideInUnit(x: real, d: real)
    requires 0.0 <= x <= d && d > 0.0
    ensures InUnit(x / d)
  {
  }

  function Mix(start: real, target: real, point: real): real {
    start * (1.0 - point) + target * point
  }

  /** A mix has gone the share `point` of the way from start to target. */
  lemma MixMoves(start: real, target: real, point: real)
    ensures Mix(start, target, point) - start == point * (target - start)
    ensures target - Mix(start, target, point) == (1.0 - point) * (target - start)
  {
    assert point * (target - start) == point * target - point * start;
  }

  lemma ShareTimes(share: real, done: real, way: real, d: real)
    requires share * d == done
    ensures share * way * d == done * way
  {
    assert share * way * d == share * d * way;
  }

  lemma SquareTimes(share: real, done: real, way: real, d: real)
    requires share * d == done
    ensures share * share * way * d * d == done * done * way
  {
    ShareTimes(share, done, share * way, d);
    ShareTimes(share, done, done * way, d);
    assert share * share * way == share * (share * way);
    assert done * (share * way) * d == share * (done * way) * d;
  }

  predicate Between(x: real, lo: real, hi: real) {
    lo <= x <= hi
  }

  lemma MixFromZeroToOne(point: real)
    ensures Mix(0.0, 1.0, point) == point
  {
  }

  lemma MixBetween(start: real, target: real, point: real, lo: real, hi: real)
    requires InUnit(point) && Between(start, lo, hi) && Between(target, lo, hi)
    ensures Between(Mix(start, target, point), lo, hi)
  {
    var mix := Mix(start, target, point);
    ProductNotNegative(start - lo, 1.0 - point);
    ProductNotNegative(target - lo, point);
    assert mix - lo == (start - lo) * (1.0 - point) + (target - lo) * point;
    ProductNotNegative(hi - start, 1.0 - point);
    ProductNotNegative(hi - target, point);
    assert hi - mix == (hi - start) * (1.0 - point) + (hi - target) * point;
  }

  lemma ProductNotNegative(a: real, b: real)
    requires a >= 0.0 && b >= 0.0
    ensures a * b >= 0.0
  {
  }

  predicate Whole(x: real) {
    x.Floor as real == x
  }

  lemma FloorBetween(x: real, lo: real, hi: real)
    requires Between(x, lo, hi) && Whole(lo)
    ensures Between(x.Floor as real, lo, hi)
  {
    var l, f := lo.Floor, x.Floor;
    assert l as real <= x < (f + 1) as real;
    assert l < f + 1;
  }

  lemma NumberIsWhole(n: int)
    ensures Whole(n as real)
  {
  }

  lemma WholeNegation(x: real)
    requires Whole(x)
    ensures Whole(-x)
  {
    var n := 0 - x.Floor;
    NumberIsWhole(n);
    assert n as real == 0.0 - x;
  }
}
