/**
 The finite field GF(256) with reduction polynomial 0x11d, as the QR encoder
 computes in it: through a table of powers and a table of logarithms.
 */
module Gf256 {
  import Pigeonhole

  /** The field's addition, which is also its subtraction. */
  function Add(a: bv8, b: bv8): bv8 {
    a ^ b
  }

  lemma AddLaws(a: bv8, b: bv8, c: bv8)
    ensures Add(a, b) == Add(b, a)
    ensures Add(Add(a, b), c) == Add(a, Add(b, c))
    ensures Add(a, 0) == a
    ensures Add(a, b) == 0 <==> a == b
  {
  }

  /** Multiplication by the field's generator alpha: shift, and reduce on overflow. */
  function XTime(v: bv8): bv8 {
    (v << 1) ^ (if v & 0x80 != 0 then 0x1d else 0)
  }

  /** alpha to the power n. */
  function Exp(n: nat): bv8 {
    if n == 0 then 1 else XTime(Exp(n - 1))
  }

  /** alpha to the power n, times v. */
  function TimesExp(n: nat, v: bv8): bv8 {
    if n == 0 then v else XTime(TimesExp(n - 1, v))
  }

  // ------------------------------------------------------------ xtime ---

  lemma XTimeMasked(v: bv8)
    ensures XTime(v) == (v << 1) ^ ((0 - (v >> 7)) & 0x1d)
  {
    if v & 0x80 != 0 {
      assert v >> 7 == 1;
    } else {
      assert v >> 7 == 0;
    }
  }

  lemma XTimeLinear(a: bv8, b: bv8)
    ensures XTime(Add(a, b)) == Add(XTime(a), XTime(b))
  {
    XTimeMasked(a);
    XTimeMasked(b);
    XTimeMasked(a ^ b);
  }

  lemma XTimeInjective(a: bv8, b: bv8)
    requires XTime(a) == XTime(b)
    ensures a == b
  {
    XTimeMasked(a);
    XTimeMasked(b);
  }

  lemma {:induction false} TimesExpLinear(n: nat, a: bv8, b: bv8)
    ensures TimesExp(n, Add(a, b)) == Add(TimesExp(n, a), TimesExp(n, b))
  {
    hide XTime, Add;
    if n > 0 {
      TimesExpLinear(n - 1, a, b);
      XTimeLinear(TimesExp(n - 1, a), TimesExp(n - 1, b));
    }
  }

  lemma {:induction false} TimesExpIsSum(n: nat, m: nat)
    ensures TimesExp(n, Exp(m)) == Exp(n + m)
  {
    hide XTime;
    if n > 0 {
      TimesExpIsSum(n - 1, m);
    }
  }

  lemma {:induction false} TimesExpInjective(n: nat, a: bv8, b: bv8)
    requires TimesExp(n, a) == TimesExp(n, b)
    ensures a == b
  {
    hide XTime;
    if n > 0 {
      XTimeInjective(TimesExp(n - 1, a), TimesExp(n - 1, b));
      TimesExpInjective(n - 1, a, b);
    }
  }

  lemma TimesExpZero(n: nat)
    ensures TimesExp(n, 0) == 0
  {
  }

  lemma ExpNonzero(n: nat)
    ensures Exp(n) != 0
  {
    TimesExpIsSum(n, 0);
    TimesExpZero(n);
    if Exp(n) == 0 {
      TimesExpInjective(n, 1, 0);
    }
  }

  // -------------------------------------------- alpha has order 255 ---

  function XTime5(v: bv8): bv8 {
    XTime(XTime(XTime(XTime(XTime(v)))))
  }

  lemma Exp5(n: nat, v: bv8)
    requires Exp(n) == v
    ensures Exp(n + 5) == XTime5(v)
  {
    assert Exp(n + 2) == XTime(XTime(v));
    assert Exp(n + 4) == XTime(XTime(Exp(n + 2)));
  }

  lemma XTime5Values()
    ensures XTime5(0x01) == 0x20 && XTime5(0x20) == 0x74 && XTime5(0x74) == 0x26
    ensures XTime5(0x26) == 0xb4 && XTime5(0xb4) == 0x03 && XTime5(0x03) == 0x60
    ensures XTime5(0x60) == 0x9c && XTime5(0x9c) == 0x6a && XTime5(0x6a) == 0xc1
    ensures XTime5(0xc1) == 0x05
  {
  }

  /** alpha is two, and a root of the standard's polynomial, x^8 + x^4 + x^3 + x^2 + 1. */
  lemma AlphaIsARoot()
    ensures Exp(0) == 1 && Exp(1) == 2
    ensures Add(Add(Exp(8), Exp(4)), Add(Add(Exp(3), Exp(2)), Exp(0))) == 0
  {
    assert Exp(2) == 4 && Exp(3) == 8;
    assert Exp(4) == 0x10 && Exp(5) == 0x20;
    assert Exp(6) == 0x40 && Exp(7) == 0x80;
    assert Exp(8) == 0x1d;
  }

  /** Fifty powers of alpha at a time, because alpha^50 = 5 and 5 = 1 xor alpha^2. */
  lemma Exp50()
    ensures Exp(15) == 0x26 && Exp(50) == 0x05
  {
    XTime5Values();
    Exp5(0, 0x01);
    Exp5(5, 0x20);
    Exp5(10, 0x74);
    Exp5(15, 0x26);
    Exp5(20, 0xb4);
    Exp5(25, 0x03);
    Exp5(30, 0x60);
    Exp5(35, 0x9c);
    Exp5(40, 0x6a);
    Exp5(45, 0xc1);
  }

  /** Multiplying by alpha^50 is adding v to alpha^2 v. */
  lemma Plus50(n: nat, v: bv8)
    requires Exp(n) == v
    ensures Exp(n + 50) == v ^ XTime(XTime(v))
  {
    Exp50();
    TimesExpIsSum(n, 50);
    TimesExpIsSum(n, 0);
    TimesExpIsSum(n, 2);
    assert Exp(2) == XTime(XTime(Exp(0))) == 4;
    TimesExpLinear(n, 1, 4);
    assert Add(1, 4) == 5;
    assert Exp(n + 2) == XTime(XTime(v));
  }

  lemma Order()
    ensures Exp(255) == 1
    ensures Exp(15) != 1 && Exp(51) != 1 && Exp(85) != 1
  {
    Exp50();
    assert Exp(51) == XTime(Exp(50));
    Plus50(0, 1);
    Plus50(35, 0x9c);
    Plus50(50, 0x05);
    Plus50(100, 0x11);
    Plus50(150, 0x55);
    Plus50(200, 0x1c);
    assert Exp(250) == 0x6c;
    Exp5(250, 0x6c);
  }

  lemma Periodic(n: nat, period: nat)
    requires Exp(period) == 1
    ensures Exp(n + period) == Exp(n)
  {
    TimesExpIsSum(n, period);
    TimesExpIsSum(n, 0);
  }

  lemma {:induction false} PeriodicMultiple(q: nat, period: nat, r: nat)
    requires Exp(period) == 1
    ensures Exp(q * period + r) == Exp(r)
  {
    hide XTime;
    if q > 0 {
      PeriodicMultiple(q - 1, period, r);
      assert q * period + r == (q - 1) * period + r + period;
      Periodic((q - 1) * period + r, period);
    }
  }

  lemma MultipleOfPeriod(q: nat, period: nat)
    requires Exp(period) == 1
    ensures Exp(q * period) == 1
  {
    PeriodicMultiple(q, period, 0);
  }

  /** No smaller positive power of alpha is 1: the least one divides 255, hence 15, 51 or 85. */
  lemma {:induction false} NoSmallerPeriod(period: nat)
    requires 0 < period < 255
    ensures Exp(period) != 1
  {
    hide XTime, Exp;
    if Exp(period) == 1 {
      Order();
      var q, r := 255 / period, 255 % period;
      PeriodicMultiple(q, period, r);
      if r > 0 {
        NoSmallerPeriod(r);
      } else {
        var m := ProperDivisor(q, period);
        MultipleOfPeriod(m, period);
      }
    }
  }

  lemma ProperDivisor(q: nat, d: nat) returns (m: nat)
    requires q * d == 255 && d < 255
    ensures m * d in {15, 51, 85}
  {
    if d <= 15 {
      SmallDivisor(d, q);
      m := 15 / d;
    } else {
      LargeDivisor(q, d);
      m := if d == 17 then 3 else 1;
    }
  }

  lemma LargeDivisor(q: nat, d: nat)
    requires q * d == 255 && 15 < d < 255
    ensures d in {17, 51, 85}
  {
    assert q >= 16 ==> q * d >= 16 * d;
    SmallDivisor(q, d);
  }

  lemma SmallDivisor(k: nat, e: nat)
    requires k * e == 255 && k <= 15
    ensures k in {1, 3, 5, 15}
  {
    assert 2 * e != 255 && 4 * e != 255 && 6 * e != 255 && 7 * e != 255 && 8 * e != 255;
    assert 9 * e != 255 && 10 * e != 255 && 11 * e != 255 && 12 * e != 255;
    assert 13 * e != 255 && 14 * e != 255;
  }

  // ------------------------------------------------------ logarithms ---

  lemma ExpZero()
    ensures Exp(0) == 1
  {
  }

  lemma ExpStep(n: nat)
    ensures Exp(n + 1) == XTime(Exp(n))
  {
  }

  lemma ExpInjective(i: nat, j: nat)
    requires i < j < 255
    ensures Exp(i) != Exp(j)
  {
    hide XTime, Exp;
    if Exp(i) == Exp(j) {
      TimesExpIsSum(i, 0);
      TimesExpIsSum(i, j - i);
      TimesExpInjective(i, Exp(0), Exp(j - i));
      NoSmallerPeriod(j - i);
      ExpZero();
    }
  }

  /** The 255 powers below alpha^255 are distinct and non-zero, so they are all the non-zero bytes. */
  lemma LogExists(v: bv8)
    requires v != 0
    ensures exists i: nat :: i < 255 && Exp(i) == v
  {
    hide XTime, Exp, Index;
    var powers := seq(255, (i: nat) => Index(Exp(i)));
    PowersAreDistinct(powers);
    Pigeonhole.EveryValueIsHit(powers, 1, 256, Index(v));
    var i :| 0 <= i < 255 && powers[i] == Index(v);
    IndexInjective(Exp(i), v);
  }

  /** A byte as an index into a 256-entry table. */
  function Index(v: bv8): (i: nat)
    ensures i < 256 && (i == 0 <==> v == 0)
  {
    v as int
  }

  lemma IndexInjective(a: bv8, b: bv8)
    ensures Index(a) == Index(b) ==> a == b
  {
  }

  lemma PowersAreDistinct(powers: seq<int>)
    requires |powers| == 255 && forall i :: 0 <= i < 255 ==> powers[i] == Index(Exp(i))
    ensures Pigeonhole.Distinct(powers)
    ensures forall i :: 0 <= i < 255 ==> 1 <= powers[i] < 256
  {
    hide XTime, Exp, Index;
    forall i, j | 0 <= i < j < 255
      ensures powers[i] != powers[j]
    {
      ExpInjective(i, j);
      IndexInjective(Exp(i), Exp(j));
    }
    forall i | 0 <= i < 255
      ensures 1 <= powers[i] < 256
    {
      ExpNonzero(i);
    }
  }

  /** The logarithm to base alpha of a non-zero byte. */
  ghost function Log(v: bv8): (i: nat)
    requires v != 0
    ensures i < 255 && Exp(i) == v
  {
    LogExists(v);
    var i: nat :| i < 255 && Exp(i) == v;
    i
  }

  // ------------------------------------------------------ field laws ---

  /** The product of two field elements. */
  ghost function Mul(a: bv8, b: bv8): bv8 {
    if a == 0 || b == 0 then 0 else Exp(Log(a) + Log(b))
  }

  lemma MulIsTimesExp(a: bv8, b: bv8)
    requires b != 0
    ensures Mul(a, b) == TimesExp(Log(b), a)
  {
    hide XTime, Exp, TimesExp, Log;
    if a == 0 {
      TimesExpZero(Log(b));
    } else {
      TimesExpIsSum(Log(b), Log(a));
    }
  }

  lemma MulExp(a: bv8, n: nat)
    ensures Mul(a, Exp(n)) == TimesExp(n, a)
  {
    hide XTime, Exp, TimesExp, Log;
    ExpNonzero(n);
    MulIsTimesExp(a, Exp(n));
    if a == 0 {
      TimesExpZero(n);
    } else {
      TimesExpIsSum(Log(Exp(n)), Log(a));
      TimesExpIsSum(n, Log(a));
      TimesExpIsSum(Log(a), Log(Exp(n)));
      TimesExpIsSum(Log(a), n);
    }
  }

  lemma MulCommutes(a: bv8, b: bv8)
    ensures Mul(a, b) == Mul(b, a)
  {
  }

  lemma MulDistributes(a: bv8, b: bv8, c: bv8)
    ensures Mul(Add(a, b), c) == Add(Mul(a, c), Mul(b, c))
    ensures Mul(c, Add(a, b)) == Add(Mul(c, a), Mul(c, b))
  {
    hide XTime, Exp, TimesExp, Log, Mul, Add;
    MulCommutes(c, Add(a, b));
    MulCommutes(c, a);
    MulCommutes(c, b);
    if c == 0 {
      MulByZero(Add(a, b));
      MulByZero(a);
      MulByZero(b);
      AddLaws(0, 0, 0);
    } else {
      MulIsTimesExp(Add(a, b), c);
      MulIsTimesExp(a, c);
      MulIsTimesExp(b, c);
      TimesExpLinear(Log(c), a, b);
    }
  }

  lemma MulByZero(a: bv8)
    ensures Mul(a, 0) == 0 && Mul(0, a) == 0
  {
  }

  lemma MulNonzero(a: bv8, b: bv8)
    ensures Mul(a, b) == 0 <==> a == 0 || b == 0
  {
    hide XTime, Exp, Log;
    if a != 0 && b != 0 {
      ExpNonzero(Log(a) + Log(b));
    }
  }

  lemma MulAssociates(a: bv8, b: bv8, c: bv8)
    ensures Mul(Mul(a, b), c) == Mul(a, Mul(b, c))
  {
    hide XTime, Exp, TimesExp, Log;
    MulNonzero(a, b);
    MulNonzero(b, c);
    if a != 0 && b != 0 && c != 0 {
      MulExp(Mul(a, b), Log(c));
      TimesExpIsSum(Log(c), Log(a) + Log(b));
      MulExp(a, Log(b) + Log(c));
      TimesExpIsSum(Log(b) + Log(c), Log(a));
    }
  }

  /** One is the unit, and multiplying by alpha = 2 is the shift-and-reduce step. */
  lemma MulUnit(a: bv8)
    ensures Mul(a, 1) == a && Mul(1, a) == a
    ensures Mul(a, 2) == XTime(a)
  {
    MulExp(a, 0);
    MulExp(a, 1);
    MulCommutes(1, a);
    assert Exp(1) == 2;
  }

  lemma InverseExists(a: bv8)
    requires a != 0
    ensures exists b :: Mul(a, b) == 1
  {
    hide XTime, Exp, TimesExp, Log;
    var b := Exp(255 - Log(a));
    MulExp(a, 255 - Log(a));
    TimesExpIsSum(255 - Log(a), Log(a));
    Order();
    assert Mul(a, b) == 1;
  }

  /** The source's nine-bit step: shift left, and subtract the reduction polynomial if bit 8 is set. */
  function Step(value: bv16): bv16 {
    var shifted := value << 1;
    if shifted & 0x100 != 0 then shifted ^ 0x11d else shifted
  }

  lemma StepIsXTime(value: bv16)
    requires value < 256
    ensures Step(value) < 256 && Step(value) as bv8 == XTime(value as bv8)
  {
    if (value << 1) & 0x100 != 0 {
      assert (value as bv8) & 0x80 != 0;
    } else {
      assert (value as bv8) & 0x80 == 0;
    }
  }

  /** The encoder's table of powers (512 entries) and table of logarithms (256 entries). */
  class Tables {
    const exp: array<bv8>
    const log: array<nat>

    ghost predicate Valid()
      reads exp, log
    {
      && exp.Length == 512 && log.Length == 256
      && (forall j :: 0 <= j < 512 ==> exp[j] == Exp(j))
      && (forall i :: 0 <= i < 255 ==> log[Index(Exp(i))] == i)
    }

    constructor ()
      ensures Valid() && fresh(exp) && fresh(log)
    {
      exp := new bv8[512](_ => 0);
      log := new nat[256](_ => 0);
      new;
      FillFirstPeriod(exp, log);
      FillSecondPeriod(exp);
    }

    /** The source's gfMultiply: two table look-ups and an addition are the field's product. */
    function Multiply(left: bv8, right: bv8): (product: bv8)
      requires Valid()
      reads exp, log
      ensures product == Mul(left, right)
    {
      hide XTime, Exp, Index;
      if left == 0 || right == 0 then 0 else
      assert left == Exp(Log(left)) && right == Exp(Log(right));
      exp[log[Index(left)] + log[Index(right)]]
    }
  }

  method FillFirstPeriod(exp: array<bv8>, log: array<nat>)
    requires exp.Length == 512 && log.Length == 256
    modifies exp, log
    ensures forall j :: 0 <= j < 255 ==> exp[j] == Exp(j)
    ensures forall j :: 0 <= j < 255 ==> log[Index(Exp(j))] == j
  {
    hide XTime, Exp, Index, Step;
    var value: bv16 := 1;
    Start();
    for index := 0 to 255
      invariant value < 256 && value as bv8 == Exp(index)
      invariant forall j :: 0 <= j < index ==> exp[j] == Exp(j)
      invariant forall j :: 0 <= j < index ==> log[Index(Exp(j))] == j
    {
      forall j | 0 <= j < index
        ensures Index(Exp(j)) != Index(Exp(index))
      {
        ExpInjective(j, index);
        IndexInjective(Exp(j), Exp(index));
      }
      exp[index] := value as bv8;
      log[Index(value as bv8)] := index;
      ExpStep(index);
      StepIsXTime(value);
      value := Step(value);
    }
  }

  lemma Start()
    ensures (1 as bv16) as bv8 == Exp(0)
  {
  }

  method FillSecondPeriod(exp: array<bv8>)
    requires exp.Length == 512 && forall j :: 0 <= j < 255 ==> exp[j] == Exp(j)
    modifies exp
    ensures forall j :: 0 <= j < 512 ==> exp[j] == Exp(j)
  {
    hide XTime, Exp;
    Order();
    for index := 255 to 512
      invariant forall j :: 0 <= j < index ==> exp[j] == Exp(j)
    {
      Periodic(index - 255, 255);
      exp[index] := exp[index - 255];
    }
  }
}
