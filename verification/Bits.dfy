/** Bits of non-negative integers, and next_power_of_two of libs/libuv/unix/core.c. */
module Bits {
  import opened Basics
  import opened Powers

  predicate Bit(x: nat, i: nat) {
    if i == 0 then x % 2 == 1 else Bit(x / 2, i - 1)
  }

  function Or(a: nat, b: nat): nat
    decreases a + b
  {
    if a == 0 then b
    else if b == 0 then a
    else 2 * Or(a / 2, b / 2) + if a % 2 == 1 || b % 2 == 1 then 1 else 0
  }

  function ShiftRight(x: nat, s: nat): nat {
    if s == 0 then x else ShiftRight(x / 2, s - 1)
  }

  lemma {:induction false} BitZero(i: nat)
    ensures !Bit(0, i)
  {
    if i > 0 {
      BitZero(i - 1);
    }
  }

  lemma {:induction false} BitOr(a: nat, b: nat, i: nat)
    ensures Bit(Or(a, b), i) <==> Bit(a, i) || Bit(b, i)
    decreases i
  {
    if a == 0 || b == 0 {
      BitZero(i);
    } else {
      var r := Or(a / 2, b / 2);
      assert Or(a, b) / 2 == r;
      if i > 0 {
        BitOr(a / 2, b / 2, i - 1);
      }
    }
  }

  lemma {:induction false} BitShift(x: nat, s: nat, i: nat)
    ensures Bit(ShiftRight(x, s), i) <==> Bit(x, i + s)
  {
    if s > 0 {
      BitShift(x / 2, s - 1, i);
    }
  }

  /** One of the `n` bits from `i` on is set. */
  predicate Any(x: nat, i: nat, n: nat)
    decreases n
  {
    n > 0 && (Bit(x, i) || Any(x, i + 1, n - 1))
  }

  lemma {:induction false} AnySplit(x: nat, i: nat, a: nat, b: nat)
    ensures Any(x, i, a + b) <==> Any(x, i, a) || Any(x, i + a, b)
    decreases a
  {
    if a > 0 {
      AnySplit(x, i + 1, a - 1, b);
    }
  }

  /** Each bit of `y` says whether one of `n` bits of `x` is set. */
  ghost predicate Smears(y: nat, x: nat, n: nat) {
    forall i: nat :: Bit(y, i) <==> Any(x, i, n)
  }

  lemma SmearMore(y: nat, x: nat, n: nat)
    requires Smears(y, x, n)
    ensures Smears(Or(y, ShiftRight(y, n)), x, n + n)
  {
    forall i: nat ensures Bit(Or(y, ShiftRight(y, n)), i) <==> Any(x, i, n + n) {
      BitOr(y, ShiftRight(y, n), i);
      BitShift(y, n, i);
      AnySplit(x, i, n, n);
    }
  }

  /** The number of bits up to the highest one. */
  function Length(x: nat): nat {
    if x == 0 then 0 else 1 + Length(x / 2)
  }

  lemma {:induction false} LengthBound(x: nat)
    ensures x < Pow2(Length(x)) && (x > 0 ==> Pow2(Length(x) - 1) <= x)
  {
    if x > 0 {
      LengthBound(x / 2);
    }
  }

  lemma {:induction false} LengthBits(x: nat, i: nat)
    ensures Length(x) <= i ==> !Bit(x, i)
    ensures i + 1 == Length(x) ==> Bit(x, i)
    decreases i
  {
    if x == 0 {
      BitZero(i);
    } else if i > 0 {
      LengthBits(x / 2, i - 1);
    }
  }

  lemma {:induction false} AnyBelow(x: nat, i: nat, n: nat)
    requires Length(x) <= i + n
    ensures Any(x, i, n) <==> i < Length(x)
    decreases n
  {
    LengthBits(x, i);
    if n > 0 {
      AnyBelow(x, i + 1, n - 1);
    }
  }

  /** A number whose bits are all set, up to the highest one. */
  lemma {:induction false} AllOnes(y: nat, n: nat)
    requires forall i: nat :: Bit(y, i) <==> i < n
    ensures y == Pow2(n) - 1
    decreases n
  {
    if n == 0 {
      if y > 0 {
        LengthBits(y, Length(y) - 1);
        assert false;
      }
    } else {
      assert Bit(y, 0);
      forall i: nat ensures Bit(y / 2, i) <==> i < n - 1 {
        assert Bit(y, i + 1) <==> Bit(y / 2, i);
      }
      AllOnes(y / 2, n - 1);
    }
  }

  lemma WordIsPow2()
    ensures Pow2(32) == WORD
  {
    assert Pow2(8) == 256;
    Pow2Add(8, 8);
    Pow2Add(16, 16);
  }

  lemma {:induction false} LengthMono(x: nat, n: nat)
    requires x < Pow2(n)
    ensures Length(x) <= n
  {
    if x > 0 {
      LengthMono(x / 2, n - 1);
    }
  }

  /** The exponent of the least power of two that is not below `val`. */
  ghost predicate Least(val: nat, k: nat) {
    val <= Pow2(k) && (k > 0 ==> Pow2(k - 1) < val)
  }

  lemma SmearsSelf(v: nat)
    ensures Smears(v, v, 1)
  {
  }

  lemma Smeared(y: nat, x: nat)
    requires Smears(y, x, 32) && Length(x) <= 32
    ensures y == Pow2(Length(x)) - 1
  {
    forall i: nat ensures Bit(y, i) <==> i < Length(x) {
      AnyBelow(x, i, 32);
    }
    AllOnes(y, Length(x));
  }

  lemma Pow2Grows(k: nat)
    requires k <= 32
    ensures if k == 32 then Pow2(k) == WORD else 1 <= Pow2(k) < WORD
  {
    WordIsPow2();
    if k < 32 {
      Pow2Mono(k, 31);
      Pow2Mono(0, k);
    }
  }

  /** next_power_of_two on 32-bit words: the least power of two not below `val`, or 0 if that does not fit. */
  method NextPowerOfTwo(val: nat) returns (r: nat)
    requires 1 <= val < WORD
    ensures exists k :: Least(val, k) && k <= 32 && r == if k == 32 then 0 else Pow2(k)
  {
    hide Smears, Or, ShiftRight, Bit, Any, Pow2;
    var v := val - 1;
    ghost var x, k := v, Length(v);
    WordIsPow2();
    LengthMono(x, 32);
    SmearsSelf(v);
    SmearMore(v, x, 1);
    v := Or(v, ShiftRight(v, 1));
    SmearMore(v, x, 2);
    v := Or(v, ShiftRight(v, 2));
    SmearMore(v, x, 4);
    v := Or(v, ShiftRight(v, 4));
    SmearMore(v, x, 8);
    v := Or(v, ShiftRight(v, 8));
    SmearMore(v, x, 16);
    v := Or(v, ShiftRight(v, 16));
    Smeared(v, x);
    LengthBound(x);
    Pow2Grows(k);
    v := (v + 1) % WORD;
    assert Least(val, k);
    return v;
  }
}
