/** Base 128 varints as the GUI protocol writes and reads them, on flat byte sequences
    (Protocol Buffers encoding specification, section "Base 128 Varints"). */
module Varint {
  type byte = b: int | 0 <= b < 0x100

  const TWO_32 := 0x1_0000_0000
  const TWO_31 := 0x8000_0000

  /** The bytes of a number, least significant group of seven bits first. */
  function Encode(n: nat): (bytes: seq<byte>)
    ensures |bytes| >= 1
    ensures bytes[|bytes| - 1] < 128
    ensures forall i :: 0 <= i < |bytes| - 1 ==> bytes[i] >= 128
  {
    if n < 128 then [n] else [n % 128 + 128] + Encode(n / 128)
  }

  /** What the low seven bits of each byte stand for. */
  function StandsFor(bytes: seq<byte>): nat {
    if bytes == [] then 0 else bytes[0] % 128 + 128 * StandsFor(bytes[1..])
  }

  lemma {:induction false} EncodedStandsFor(n: nat)
    ensures StandsFor(Encode(n)) == n
    decreases n
  {
    if n >= 128 {
      EncodedStandsFor(n / 128);
      assert Encode(n)[1..] == Encode(n / 128);
    } else {
      assert Encode(n)[1..] == [];
    }
  }

  /** Where the resumable reader stands: `num` and `multiplier` survive a read that ran out of bytes. */
  datatype Read = Read(done: bool, num: nat, multiplier: nat, limit: nat, rest: seq<byte>)

  /** The reader, one byte at a time. Both accumulators are 32 bits wide. */
  function ReadFrom(num: nat, multiplier: nat, limit: nat, input: seq<byte>): Read
    decreases |input|
  {
    if limit == 0 || input == [] then Read(false, num, multiplier, limit, input)
    else if input[0] >= 128 then
      ReadFrom((num + input[0] % 128 * multiplier) % TWO_32, multiplier * 128 % TWO_32, limit - 1, input[1..])
    else
      Read(true, (num + input[0] * multiplier) % TWO_32, 1, limit - 1, input[1..])
  }

  /** A read takes a prefix of the input and one unit of limit for each byte; it stops early only
      when the limit or the input is used up. */
  lemma {:induction false} ReadTakesPrefix(num: nat, multiplier: nat, limit: nat, input: seq<byte>)
    ensures var r := ReadFrom(num, multiplier, limit, input);
            var taken := |input| - |r.rest|;
            && 0 <= taken && input[taken..] == r.rest && limit == r.limit + taken
            && (r.done ==> taken > 0)
            && (!r.done ==> r.limit == 0 || r.rest == [])
    decreases |input|
  {
    if limit != 0 && input != [] && input[0] >= 128 {
      ReadTakesPrefix((num + input[0] % 128 * multiplier) % TWO_32, multiplier * 128 % TWO_32, limit - 1, input[1..]);
    }
  }

  /** The bytes that the limit lets through all say that another one follows. */
  predicate NeverEnds(limit: nat, input: seq<byte>) {
    limit <= |input| && forall i :: 0 <= i < limit ==> input[i] >= 128
  }

  /** A read uses up its limit without an end exactly when every byte it may take says that it goes on. */
  lemma {:induction false} ReadStallsIff(num: nat, multiplier: nat, limit: nat, input: seq<byte>)
    ensures var r := ReadFrom(num, multiplier, limit, input);
            && (!r.done && r.limit == 0 <==> NeverEnds(limit, input))
            && (NeverEnds(limit, input) ==> r.rest == input[limit..])
    decreases |input|
  {
    if limit != 0 && input != [] && input[0] >= 128 {
      ReadStallsIff((num + input[0] % 128 * multiplier) % TWO_32, multiplier * 128 % TWO_32, limit - 1, input[1..]);
      assert forall i :: 0 < i < limit <= |input| ==> input[i] == input[1..][i - 1];
      assert forall i :: 0 <= i < limit - 1 < |input| ==> input[1..][i] == input[i + 1];
    } else if limit != 0 && input != [] {
      ReadTakesPrefix(num, multiplier, limit, input);
    }
  }

  /** Cutting the input anywhere and resuming gives the same reading as one uncut input. */
  lemma {:induction false} ReadResumes(num: nat, multiplier: nat, limit: nat, a: seq<byte>, b: seq<byte>)
    ensures var first := ReadFrom(num, multiplier, limit, a);
            ReadFrom(num, multiplier, limit, a + b) ==
            if first.done then first.(rest := first.rest + b)
            else ReadFrom(first.num, first.multiplier, first.limit, first.rest + b)
    decreases |a|
  {
    if a == [] {
      assert a + b == b;
    } else if limit != 0 {
      assert (a + b)[1..] == a[1..] + b;
      if a[0] >= 128 {
        ReadResumes((num + a[0] % 128 * multiplier) % TWO_32, multiplier * 128 % TWO_32, limit - 1, a[1..], b);
      }
    }
  }

  lemma ModMulAdd(a: int, b: nat, k: nat)
    ensures (a % TWO_32 + k * (b % TWO_32)) % TWO_32 == (a + k * b) % TWO_32
  {
    var qa, qb := a / TWO_32, b / TWO_32;
    assert a + k * b == (a % TWO_32 + k * (b % TWO_32)) + TWO_32 * (qa + k * qb) by {
      assert b == b % TWO_32 + TWO_32 * qb;
      assert k * b == k * (b % TWO_32) + k * (TWO_32 * qb);
      assert k * (TWO_32 * qb) == TWO_32 * (k * qb);
    }
    ModShift(a % TWO_32 + k * (b % TWO_32), qa + k * qb);
  }

  lemma ModShift(x: int, q: int)
    ensures (x + TWO_32 * q) % TWO_32 == x % TWO_32
  {
  }

  /** One continuation byte moves `n % 128` into the sum and leaves `n / 128` at the next weight. */
  lemma AccumulatorStep(num: nat, multiplier: nat, n: nat)
    ensures ((num + n % 128 * multiplier) % TWO_32 + n / 128 * (multiplier * 128 % TWO_32)) % TWO_32
         == (num + n * multiplier) % TWO_32
  {
    var q, d := n / 128, n % 128;
    ModMulAdd(num + d * multiplier, multiplier * 128, q);
    assert q * (multiplier * 128) == 128 * q * multiplier;
    assert (128 * q + d) * multiplier == 128 * q * multiplier + d * multiplier;
    assert n == 128 * q + d;
  }

  /** The front of an encoded number, with any bytes behind it. */
  lemma EncodeFront(n: nat, rest: seq<byte>)
    ensures var input := Encode(n) + rest;
            if n < 128 then input[0] == n && input[1..] == rest
            else input[0] == n % 128 + 128 && input[1..] == Encode(n / 128) + rest
  {
    if n >= 128 {
      assert Encode(n) == [n % 128 + 128] + Encode(n / 128);
      assert Encode(n) + rest == [n % 128 + 128] + (Encode(n / 128) + rest);
    }
  }

  /** Reading back an encoded number, from any accumulator and with any bytes behind it. */
  lemma {:induction false} ReadEncoded(num: nat, multiplier: nat, limit: nat, n: nat, rest: seq<byte>)
    requires |Encode(n)| <= limit
    ensures ReadFrom(num, multiplier, limit, Encode(n) + rest) ==
            Read(true, (num + n * multiplier) % TWO_32, 1, limit - |Encode(n)|, rest)
    decreases n
  {
    EncodeFront(n, rest);
    if n >= 128 {
      var num', multiplier' := (num + n % 128 * multiplier) % TWO_32, multiplier * 128 % TWO_32;
      assert (n % 128 + 128) % 128 == n % 128;
      assert ReadFrom(num, multiplier, limit, Encode(n) + rest) ==
             ReadFrom(num', multiplier', limit - 1, Encode(n / 128) + rest);
      ReadEncoded(num', multiplier', limit - 1, n / 128, rest);
      AccumulatorStep(num, multiplier, n);
    }
  }

  function Pow128(k: nat): nat {
    if k == 0 then 1 else 128 * Pow128(k - 1)
  }

  function Ceil(x: real): int {
    -((-x).Floor)
  }

  /** The base 2 logarithm as computed: it may round, but not out of order, and powers of two come out
      exactly. */
  ghost predicate Rounds(log: nat -> real) {
    && (forall a, b :: 1 <= a <= b ==> log(a) <= log(b))
    && (forall k: nat :: log(Pow128(k)) == 7.0 * k as real)
  }

  /** The logarithm tells 128^k + 1 from 128^k, for 7 bits times k below 49; a double can do no more. */
  ghost predicate Separates(log: nat -> real) {
    forall k: nat :: k < 7 ==> log(Pow128(k) + 1) > 7.0 * k as real
  }

  /** The size `write_message` reserves for a varint. */
  function LengthOfVarint(log: nat -> real, n: nat): int {
    if n == 0 then 1 else Ceil(log(n + 1) / 7.0)
  }

  lemma {:induction false} Pow128Monotone(i: nat, j: nat)
    requires i <= j
    ensures Pow128(i) <= Pow128(j)
    decreases j - i
  {
    if i < j {
      Pow128Monotone(i, j - 1);
    }
  }

  lemma {:induction false} EncodeLengthBounds(n: nat)
    ensures n < Pow128(|Encode(n)|)
    ensures |Encode(n)| > 1 ==> Pow128(|Encode(n)| - 1) <= n
    decreases n
  {
    if n >= 128 {
      EncodeLengthBounds(n / 128);
      var l := |Encode(n / 128)|;
      assert Pow128(l + 1) == 128 * Pow128(l);
    } else {
      assert Pow128(1) == 128 * Pow128(0);
    }
  }

  /** The logarithm formula reserves the bytes that are written, or one too few: exactly as many if and
      only if the logarithm of n + 1 has not been rounded down to that of a shorter number. */
  lemma LengthOfVarintIsExactIff(log: nat -> real, n: nat)
    requires Rounds(log)
    ensures LengthOfVarint(log, n) == |Encode(n)| <==> n == 0 || log(n + 1) > 7.0 * (|Encode(n)| - 1) as real
    ensures |Encode(n)| - 1 <= LengthOfVarint(log, n) <= |Encode(n)|
  {
    EncodeLengthBounds(n);
    if n > 0 {
      var l := |Encode(n)|;
      assert Pow128(l - 1) <= n + 1 <= Pow128(l);
      assert log(Pow128(l - 1)) <= log(n + 1) <= log(Pow128(l));
      CeilOfSevenths(log(n + 1), l);
    }
  }

  lemma CeilOfSevenths(x: real, l: nat)
    requires l >= 1 && 7.0 * (l - 1) as real <= x <= 7.0 * l as real
    ensures Ceil(x / 7.0) == if x > 7.0 * (l - 1) as real then l else l - 1
  {
    var y := x / 7.0;
    assert (l - 1) as real <= y <= l as real;
  }

  /** So it is exact for all numbers below 2^49. */
  lemma LengthOfVarintIsExact(log: nat -> real, n: nat)
    requires Rounds(log) && Separates(log) && n < Pow128(7)
    ensures LengthOfVarint(log, n) == |Encode(n)|
  {
    LengthOfVarintIsExactIff(log, n);
    EncodeLengthBounds(n);
    if n > 0 {
      var k := |Encode(n)| - 1;
      if k >= 7 {
        Pow128Monotone(7, k);
      }
      assert Pow128(k) + 1 <= n + 1;
      assert log(Pow128(k) + 1) <= log(n + 1);
    }
  }

  /** A double rounds the logarithm of 2^49 + 1 to 49: then 2^49 gets 7 bytes where 8 are written. */
  lemma LengthFallsShort(log: nat -> real)
    requires Rounds(log) && log(Pow128(7) + 1) == 49.0
    ensures LengthOfVarint(log, Pow128(7)) == 7 && |Encode(Pow128(7))| == 8
  {
    var n := Pow128(7);
    EncodeLengthBounds(n);
    Pow128Strict(7);
    if |Encode(n)| < 8 {
      Pow128Monotone(|Encode(n)|, 7);
    } else if |Encode(n)| > 8 {
      Pow128Monotone(8, |Encode(n)| - 1);
    }
    CeilOfSevenths(49.0, 8);
  }

  lemma Pow128Strict(k: nat)
    ensures 0 < Pow128(k) < Pow128(k + 1)
  {
    Pow128Monotone(0, k);
  }

  /** Five bytes, the limit the handler sets, are enough exactly for numbers below 2^35. */
  lemma FiveBytes(n: nat)
    ensures |Encode(n)| <= 5 <==> n < 0x8_0000_0000
  {
    EncodeLengthBounds(n);
    assert Pow128(5) == 0x8_0000_0000 by {
      assert Pow128(1) == 128 && Pow128(2) == 0x4000 && Pow128(3) == 0x20_0000 && Pow128(4) == 0x1000_0000;
    }
    if |Encode(n)| <= 5 {
      Pow128Monotone(|Encode(n)|, 5);
    } else {
      Pow128Monotone(5, |Encode(n)| - 1);
    }
  }

  // ----- signed products -----

  /** The reader multiplies signed 32-bit integers, without a defined result beyond 2^31 - 1. */
  predicate Overflows(multiplier: nat, limit: nat, input: seq<byte>)
    decreases |input|
  {
    if limit == 0 || input == [] then false
    else if input[0] >= 128 then
      || input[0] % 128 * multiplier >= TWO_31 || multiplier * 128 >= TWO_31
      || Overflows(multiplier * 128 % TWO_32, limit - 1, input[1..])
    else input[0] * multiplier >= TWO_31
  }

  /** Resuming a read meets the products an uncut read meets. */
  lemma {:induction false} OverflowsResumes(num: nat, multiplier: nat, limit: nat, a: seq<byte>, b: seq<byte>)
    ensures var first := ReadFrom(num, multiplier, limit, a);
            Overflows(multiplier, limit, a + b) <==>
            Overflows(multiplier, limit, a) || (!first.done && Overflows(first.multiplier, first.limit, first.rest + b))
    decreases |a|
  {
    if a == [] {
      assert a + b == b;
    } else if limit != 0 {
      assert (a + b)[1..] == a[1..] + b;
      if a[0] >= 128 {
        OverflowsResumes((num + a[0] % 128 * multiplier) % TWO_32, multiplier * 128 % TWO_32, limit - 1, a[1..], b);
      }
    }
  }

  /** The weight of a byte, and what is left of 2^31 at this weight. */
  predicate IsWeight(multiplier: nat, d: nat) {
    || (multiplier == 1 && d == TWO_31) || (multiplier == 0x80 && d == 0x100_0000)
    || (multiplier == 0x4000 && d == 0x2_0000)
    || (multiplier == 0x20_0000 && d == 0x400) || (multiplier == 0x1000_0000 && d == 8)
  }

  /** A number overflows exactly from 2^31 on. */
  lemma {:induction false} EncodedOverflows(multiplier: nat, d: nat, limit: nat, n: nat, rest: seq<byte>)
    requires |Encode(n)| <= limit && IsWeight(multiplier, d)
    ensures Overflows(multiplier, limit, Encode(n) + rest) <==> n >= d
    decreases n
  {
    EncodeFront(n, rest);
    if n < 128 {
      ProductReaches(n, multiplier, d);
    } else {
      assert (n % 128 + 128) % 128 == n % 128;
      ProductReaches(n % 128, multiplier, d);
      if d > 128 {
        NextWeight(multiplier, d);
        EncodedOverflows(multiplier * 128, d / 128, limit - 1, n / 128, rest);
        HighPartReaches(n, d);
      }
    }
  }

  lemma NextWeight(multiplier: nat, d: nat)
    requires IsWeight(multiplier, d) && d > 128
    ensures IsWeight(multiplier * 128, d / 128) && multiplier * 128 % TWO_32 == multiplier * 128 < TWO_31
            && d % 128 == 0
  {
  }

  lemma HighPartReaches(n: nat, d: nat)
    requires d % 128 == 0
    ensures n / 128 >= d / 128 <==> n >= d
  {
  }

  lemma ProductReaches(x: nat, multiplier: nat, d: nat)
    requires IsWeight(multiplier, d)
    ensures x * multiplier >= TWO_31 <==> x >= d
  {
  }
}
