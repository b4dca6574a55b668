/** Small facts about sequences that several components share. */
module Collections {

  datatype Option<+T> = None | Some(value: T)

  ghost predicate SameElements<T(!new)>(xs: seq<T>, ys: seq<T>) {
    forall e :: e in xs <==> e in ys
  }

  lemma PermutationHasSameElements<T(!new)>(xs: seq<T>, ys: seq<T>)
    requires multiset(xs) == multiset(ys)
    ensures SameElements(xs, ys)
  {
    assert forall e :: e in xs <==> e in multiset(xs);
    assert forall e :: e in ys <==> e in multiset(ys);
  }

  lemma RemoveOne<T>(xs: seq<T>, k: nat)
    requires k < |xs|
    ensures multiset(xs) == multiset(xs[..k]) + multiset{xs[k]} + multiset(xs[k + 1..])
  {
    assert xs == xs[..k] + [xs[k]] + xs[k + 1..];
  }

  lemma TwoOccurrences<T>(xs: seq<T>, i: nat, j: nat)
    requires i < j < |xs| && xs[i] == xs[j]
    ensures multiset(xs)[xs[i]] >= 2
  {
    RemoveOne(xs, i);
    assert xs[j] == xs[i + 1..][j - i - 1];
    assert xs[i] in multiset(xs[i + 1..]);
  }

  /** Two places of a permutation correspond to two different places of the original. */
  lemma DifferentPlaces<T>(xs: seq<T>, ys: seq<T>, i: nat, j: nat) returns (k: nat, l: nat)
    requires multiset(xs) == multiset(ys) && i < j < |ys|
    ensures k < |xs| && l < |xs| && k != l && xs[k] == ys[i] && xs[l] == ys[j]
  {
    assert ys[i] in multiset(ys) && ys[j] in multiset(ys);
    k :| 0 <= k < |xs| && xs[k] == ys[i];
    if ys[i] == ys[j] {
      TwoOccurrences(ys, i, j);
      RemoveOne(xs, k);
      var rest := xs[..k] + xs[k + 1..];
      assert multiset(rest) == multiset(xs[..k]) + multiset(xs[k + 1..]);
      assert ys[j] in multiset(rest);
      var m :| 0 <= m < |rest| && rest[m] == ys[j];
      l := if m < k then m else m + 1;
    } else {
      l :| 0 <= l < |xs| && xs[l] == ys[j];
    }
  }

  function MapSeq<T, U>(f: T -> U, xs: seq<T>): (ys: seq<U>)
    ensures |ys| == |xs|
  {
    if xs == [] then [] else [f(xs[0])] + MapSeq(f, xs[1..])
  }

  lemma {:induction false} MapSeqAt<T, U>(f: T -> U, xs: seq<T>)
    ensures forall i :: 0 <= i < |xs| ==> MapSeq(f, xs)[i] == f(xs[i])
    decreases |xs|
  {
    if xs != [] {
      MapSeqAt(f, xs[1..]);
      assert forall i :: 1 <= i < |xs| ==> MapSeq(f, xs)[i] == MapSeq(f, xs[1..])[i - 1] && xs[i] == xs[1..][i - 1];
    }
  }

  lemma {:induction false} MapSeqConcat<T, U>(f: T -> U, xs: seq<T>, ys: seq<T>)
    ensures MapSeq(f, xs + ys) == MapSeq(f, xs) + MapSeq(f, ys)
    decreases |xs|
  {
    if xs == [] {
      assert xs + ys == ys;
    } else {
      assert (xs + ys)[1..] == xs[1..] + ys;
      MapSeqConcat(f, xs[1..], ys);
    }
  }

  /** Taking one element out of a permutation leaves a permutation. */
  lemma WithoutOne<T>(xs: seq<T>, ys: seq<T>) returns (k: nat)
    requires multiset(xs) == multiset(ys) && xs != []
    ensures k < |ys| && ys[k] == xs[0] && multiset(xs[1..]) == multiset(ys[..k] + ys[k + 1..])
  {
    assert xs[0] in multiset(ys);
    k :| 0 <= k < |ys| && ys[k] == xs[0];
    RemoveOne(ys, k);
    RemoveOne(xs, 0);
    var rest := ys[..k] + ys[k + 1..];
    assert multiset(rest) == multiset(ys[..k]) + multiset(ys[k + 1..]);
    assert multiset(rest) == multiset(ys) - multiset{xs[0]};
    assert multiset(xs[1..]) == multiset(xs) - multiset{xs[0]};
  }

  lemma PutIn<T>(before: seq<T>, x: T, after: seq<T>)
    ensures multiset(before + ([x] + after)) == multiset{x} + multiset(before + after)
  {
    assert multiset(before + ([x] + after)) == multiset(before) + multiset([x] + after);
    assert multiset(before + after) == multiset(before) + multiset(after);
    assert multiset([x] + after) == multiset{x} + multiset(after);
  }

  lemma MapSeqHead<T, U>(f: T -> U, xs: seq<T>)
    requires xs != []
    ensures multiset(MapSeq(f, xs)) == multiset{f(xs[0])} + multiset(MapSeq(f, xs[1..]))
  {
  }

  lemma TakeApart<T>(ys: seq<T>, k: nat)
    requires k < |ys|
    ensures ys == ys[..k] + ([ys[k]] + ys[k + 1..])
  {
  }

  lemma MapSeqMiddle<T, U>(f: T -> U, ys: seq<T>, k: nat)
    requires k < |ys|
    ensures multiset(MapSeq(f, ys)) == multiset{f(ys[k])} + multiset(MapSeq(f, ys[..k] + ys[k + 1..]))
  {
    var before, after := ys[..k], ys[k + 1..];
    TakeApart(ys, k);
    MapSeqAround(f, before, ys[k], after);
    var a, y, b := MapSeq(f, before), f(ys[k]), MapSeq(f, after);
    assert MapSeq(f, ys) == a + ([y] + b) && MapSeq(f, before + after) == a + b;
    PutIn(a, y, b);
  }

  lemma {:induction false} MapSeqPermutation<T, U>(f: T -> U, xs: seq<T>, ys: seq<T>)
    requires multiset(xs) == multiset(ys)
    ensures multiset(MapSeq(f, xs)) == multiset(MapSeq(f, ys))
    decreases |xs|
  {
    if xs == [] {
      assert |multiset(ys)| == 0;
    } else {
      var k := WithoutOne(xs, ys);
      MapSeqPermutation(f, xs[1..], ys[..k] + ys[k + 1..]);
      MapSeqHead(f, xs);
      MapSeqMiddle(f, ys, k);
    }
  }

  lemma MapSeqAround<T, U>(f: T -> U, before: seq<T>, x: T, after: seq<T>)
    ensures MapSeq(f, before + after) == MapSeq(f, before) + MapSeq(f, after)
    ensures MapSeq(f, before + ([x] + after)) == MapSeq(f, before) + ([f(x)] + MapSeq(f, after))
  {
    MapSeqConcat(f, before, after);
    MapSeqConcat(f, before, [x] + after);
    assert ([x] + after)[1..] == after;
  }
}
