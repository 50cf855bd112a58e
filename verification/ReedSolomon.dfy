/**
 Reed-Solomon error correction as the QR encoder computes it: a generator polynomial
 built root by root, and a shift register that divides by it.
 Polynomials are sequences of coefficients, highest degree first.
 */
module ReedSolomon {
  import opened Gf256
  import Pigeonhole

  type Poly = seq<bv8>

  // ------------------------------------------------------ evaluation ---

  ghost function Pow(x: bv8, n: nat): bv8 {
    if n == 0 then 1 else Mul(Pow(x, n - 1), x)
  }

  /** The value of a polynomial at x, by Horner's rule. */
  ghost function Eval(p: Poly, x: bv8): bv8 {
    if p == [] then 0 else Add(Mul(Eval(p[..|p| - 1], x), x), p[|p| - 1])
  }

  ghost function AddPoly(p: Poly, q: Poly): (r: Poly)
    requires |p| == |q|
  {
    seq(|p|, i requires 0 <= i < |p| => Add(p[i], q[i]))
  }

  ghost function Scale(p: Poly, k: bv8): (r: Poly) {
    seq(|p|, i requires 0 <= i < |p| => Mul(p[i], k))
  }

  /** (a + b) + (c + d) == (a + c) + (b + d) */
  lemma AddSwap(a: bv8, b: bv8, c: bv8, d: bv8)
    ensures Add(Add(a, b), Add(c, d)) == Add(Add(a, c), Add(b, d))
  {
    hide Add;
    AddLaws(a, b, Add(c, d));
    AddLaws(b, c, d);
    AddLaws(c, b, d);
    AddLaws(a, c, Add(b, d));
  }

  lemma {:induction false} EvalAdd(p: Poly, q: Poly, x: bv8)
    requires |p| == |q|
    ensures Eval(AddPoly(p, q), x) == Add(Eval(p, x), Eval(q, x))
  {
    hide Add, Mul;
    if p == [] {
      AddLaws(0, 0, 0);
    } else {
      var n := |p| - 1;
      assert AddPoly(p, q)[..n] == AddPoly(p[..n], q[..n]);
      EvalAdd(p[..n], q[..n], x);
      MulDistributes(Eval(p[..n], x), Eval(q[..n], x), x);
      AddSwap(Mul(Eval(p[..n], x), x), Mul(Eval(q[..n], x), x), p[n], q[n]);
    }
  }

  lemma {:induction false} EvalScale(p: Poly, k: bv8, x: bv8)
    ensures Eval(Scale(p, k), x) == Mul(Eval(p, x), k)
  {
    hide Add, Mul;
    if p == [] {
      MulByZero(k);
    } else {
      var n := |p| - 1;
      assert Scale(p, k)[..n] == Scale(p[..n], k);
      EvalScale(p[..n], k, x);
      var e := Eval(p[..n], x);
      MulDistributes(Mul(e, x), p[n], k);
      MulAssociates(e, x, k);
      MulAssociates(e, k, x);
      MulCommutes(x, k);
    }
  }

  /** Appending q shifts p up by |q| degrees. */
  lemma {:induction false} EvalConcat(p: Poly, q: Poly, x: bv8)
    ensures Eval(p + q, x) == Add(Mul(Eval(p, x), Pow(x, |q|)), Eval(q, x))
  {
    hide Add, Mul;
    if q == [] {
      assert p + q == p;
      MulUnit(Eval(p, x));
      AddLaws(Eval(p, x), 0, 0);
    } else {
      var n := |q| - 1;
      assert (p + q)[..|p| + n] == p + q[..n];
      EvalConcat(p, q[..n], x);
      var e, w, f := Eval(p, x), Pow(x, n), Eval(q[..n], x);
      MulDistributes(Mul(e, w), f, x);
      MulAssociates(e, w, x);
      AddLaws(Mul(Mul(e, w), x), Mul(f, x), q[n]);
    }
  }

  lemma EvalHead(p: Poly, x: bv8)
    requires p != []
    ensures Eval(p, x) == Add(Mul(p[0], Pow(x, |p| - 1)), Eval(p[1..], x))
  {
    hide Add, Mul;
    assert p == [p[0]] + p[1..];
    EvalConcat([p[0]], p[1..], x);
    assert [p[0]][..0] == [];
    MulByZero(x);
    AddLaws(p[0], 0, 0);
    AddLaws(0, p[0], 0);
  }

  // ------------------------------------------------------- generator ---

  /** p times (x - root). */
  ghost function TimesRoot(p: Poly, root: bv8): (r: Poly) {
    AddPoly(p + [0], [0] + Scale(p, root))
  }

  lemma EvalTimesRoot(p: Poly, root: bv8, x: bv8)
    ensures Eval(TimesRoot(p, root), x) == Mul(Eval(p, x), Add(x, root))
  {
    hide Add, Mul;
    var e := Eval(p, x);
    EvalAdd(p + [0], [0] + Scale(p, root), x);
    EvalConcat(p, [0], x);
    assert [0 as bv8][..0] == [];
    assert Pow(x, 1) == Mul(Pow(x, 0), x);
    MulUnit(x);
    MulByZero(x);
    AddLaws(0, 0, 0);
    AddLaws(Mul(e, x), 0, 0);
    EvalConcat([0], Scale(p, root), x);
    MulByZero(Pow(x, |p|));
    EvalScale(p, root, x);
    AddLaws(0, Mul(e, root), 0);
    AddLaws(Mul(e, root), 0, 0);
    MulDistributes(x, root, e);
  }

  /** The product of (x - alpha^i) for i below degree. */
  ghost function Generator(degree: nat): (g: Poly)
    ensures |g| == degree + 1
  {
    if degree == 0 then [1] else TimesRoot(Generator(degree - 1), Exp(degree - 1))
  }

  lemma {:induction false} GeneratorIsMonic(degree: nat)
    ensures Generator(degree)[0] == 1
  {
    hide Add, Mul;
    if degree > 0 {
      GeneratorIsMonic(degree - 1);
      AddLaws(1, 0, 0);
    }
  }

  lemma {:induction false} GeneratorVanishes(degree: nat, i: nat)
    requires i < degree
    ensures Eval(Generator(degree), Exp(i)) == 0
  {
    hide Add, Mul, Exp;
    EvalTimesRoot(Generator(degree - 1), Exp(degree - 1), Exp(i));
    var e := Eval(Generator(degree - 1), Exp(i));
    if i == degree - 1 {
      AddLaws(Exp(i), Exp(i), 0);
      MulByZero(e);
    } else {
      GeneratorVanishes(degree - 1, i);
      MulByZero(Add(Exp(i), Exp(degree - 1)));
    }
  }

  /** The source's reedSolomonGenerator. */
  method BuildGenerator(gf: Tables, degree: nat) returns (polynomial: array<bv8>)
    requires gf.Valid() && degree <= 512
    ensures polynomial[..] == Generator(degree) && fresh(polynomial)
  {
    hide Add, Mul, Exp;
    polynomial := new bv8[1](_ => 1);
    for index := 0 to degree
      invariant fresh(polynomial) && polynomial[..] == Generator(index)
    {
      polynomial := MultiplyByRoot(gf, polynomial, gf.exp[index]);
    }
  }

  /** The body of that method's outer loop. */
  method MultiplyByRoot(gf: Tables, polynomial: array<bv8>, root: bv8) returns (next: array<bv8>)
    requires gf.Valid()
    ensures next[..] == TimesRoot(polynomial[..], root) && fresh(next)
  {
    hide Add, Mul, Exp;
    ghost var p := polynomial[..];
    var n := polynomial.Length;
    next := new bv8[n + 1](_ => 0);
    for position := 0 to n
      invariant forall j :: 0 <= j < position ==> next[j] == TimesRoot(p, root)[j]
      invariant next[position] == Shifted(p, root, position)
      invariant forall j :: position < j <= n ==> next[j] == 0
    {
      var coefficient := polynomial[position];
      AddLaws(next[position], coefficient, 0);
      AddLaws(0, Mul(coefficient, root), 0);
      AddLaws(Mul(coefficient, root), 0, 0);
      next[position] := Add(next[position], coefficient);
      next[position + 1] := Add(next[position + 1], gf.Multiply(coefficient, root));
    }
    AddLaws(0, next[n], 0);
    AddLaws(next[n], 0, 0);
    assert TimesRoot(p, root)[n] == Add(0, Shifted(p, root, n));
  }

  /** Coefficient number position of root times p, once p has been shifted right by one place. */
  ghost function Shifted(p: Poly, root: bv8, position: nat): bv8
    requires position <= |p|
  {
    if position == 0 then 0 else Mul(p[position - 1], root)
  }

  // ------------------------------------------------------- remainder ---

  /** One turn of the shift register: feed in one byte. */
  ghost function Feed(register: Poly, generator: Poly, byte: bv8): (next: Poly)
    requires |generator| == |register| + 1
    ensures |next| == |register|
  {
    if register == [] then [] else
    AddPoly(register[1..] + [0], Scale(generator[1..], Add(byte, register[0])))
  }

  /** The register after all of data has been fed in. */
  ghost function Remainder(data: Poly, degree: nat): (r: Poly)
    ensures |r| == degree
  {
    if data == [] then Zeros(degree)
    else Feed(Remainder(data[..|data| - 1], degree), Generator(degree), data[|data| - 1])
  }

  ghost function Zeros(n: nat): (r: Poly)
    ensures |r| == n
  {
    seq(n, _ => 0)
  }

  lemma {:induction false} EvalZeros(n: nat, x: bv8)
    ensures Eval(Zeros(n), x) == 0
  {
    hide Add, Mul;
    if n > 0 {
      assert Zeros(n)[..n - 1] == Zeros(n - 1);
      EvalZeros(n - 1, x);
      MulByZero(x);
      AddLaws(0, 0, 0);
    }
  }

  /** At a root of the generator, feeding a byte is one Horner step scaled by x^degree. */
  lemma EvalFeed(register: Poly, generator: Poly, byte: bv8, x: bv8)
    requires |generator| == |register| + 1 && register != []
    requires generator[0] == 1 && Eval(generator, x) == 0
    ensures Eval(Feed(register, generator, byte), x)
         == Add(Mul(Eval(register, x), x), Mul(byte, Pow(x, |register|)))
  {
    hide Add, Mul, Eval;
    var d := |register|;
    var top, w := register[0], Pow(x, d);
    var factor := Add(byte, top);
    EvalHead(generator, x);
    MulUnit(w);
    AddLaws(w, Eval(generator[1..], x), 0);
    assert Eval(generator[1..], x) == w;
    EvalAdd(register[1..] + [0], Scale(generator[1..], factor), x);
    EvalScale(generator[1..], factor, x);
    EvalConcat(register[1..], [0], x);
    EvalSingle(0, x);
    AddLaws(Mul(Eval(register[1..], x), x), 0, 0);
    MulUnit(x);
    assert Pow(x, 1) == Mul(Pow(x, 0), x) == x;
    EvalHead(register, x);
    var low := Eval(register[1..], x);
    MulDistributes(Mul(top, Pow(x, d - 1)), low, x);
    MulAssociates(top, Pow(x, d - 1), x);
    MulDistributes(byte, top, w);
    MulCommutes(w, factor);
    Cancel(Mul(top, w), Mul(low, x), Mul(byte, w));
  }

  lemma EvalSingle(c: bv8, x: bv8)
    ensures Eval([c], x) == c
  {
    hide Add, Mul;
    assert [c][..0] == [];
    MulByZero(x);
    AddLaws(0, c, 0);
    AddLaws(c, 0, 0);
  }

  /** b + (c + a) == (a + b) + c */
  lemma Cancel(a: bv8, b: bv8, c: bv8)
    ensures Add(b, Add(c, a)) == Add(Add(a, b), c)
  {
    hide Add;
    AddLaws(c, a, 0);
    AddLaws(b, a, c);
    AddLaws(a, b, 0);
  }

  lemma {:induction false} EvalRemainder(data: Poly, degree: nat, x: bv8)
    requires degree > 0 && Eval(Generator(degree), x) == 0
    ensures Eval(Remainder(data, degree), x) == Mul(Eval(data, x), Pow(x, degree))
  {
    hide Add, Mul;
    var w := Pow(x, degree);
    if data == [] {
      EvalZeros(degree, x);
      MulByZero(w);
    } else {
      var n := |data| - 1;
      EvalRemainder(data[..n], degree, x);
      GeneratorIsMonic(degree);
      EvalFeed(Remainder(data[..n], degree), Generator(degree), data[n], x);
      var e := Eval(data[..n], x);
      MulDistributes(Mul(e, x), data[n], w);
      MulAssociates(e, w, x);
      MulAssociates(e, x, w);
      MulCommutes(x, w);
    }
  }

  /** Data followed by its remainder vanishes at alpha^0, ..., alpha^(degree - 1). */
  lemma CodewordVanishes(data: Poly, degree: nat, i: nat)
    requires i < degree
    ensures Eval(data + Remainder(data, degree), Exp(i)) == 0
  {
    hide Add, Mul, Exp, Eval;
    GeneratorVanishes(degree, i);
    EvalRemainder(data, degree, Exp(i));
    EvalConcat(data, Remainder(data, degree), Exp(i));
    AddLaws(Eval(Remainder(data, degree), Exp(i)), Eval(Remainder(data, degree), Exp(i)), 0);
  }

  /** The source's reedSolomonRemainder. */
  method ComputeRemainder(gf: Tables, data: seq<bv8>, degree: nat) returns (remainder: array<bv8>)
    requires gf.Valid() && degree <= 512
    ensures remainder[..] == Remainder(data, degree) && fresh(remainder)
  {
    hide Add, Mul, Exp;
    var generator := BuildGenerator(gf, degree);
    remainder := new bv8[degree](_ => 0);
    for k := 0 to |data|
      invariant generator[..] == Generator(degree)
      invariant remainder[..] == Remainder(data[..k], degree)
    {
      assert data[..k + 1][..k] == data[..k];
      FeedByte(gf, remainder, generator, data[k]);
    }
    assert data[..|data|] == data;
  }

  /** The body of that method's loop: shift the register left, then add a multiple of the generator. */
  method FeedByte(gf: Tables, remainder: array<bv8>, generator: array<bv8>, byte: bv8)
    requires gf.Valid() && generator.Length == remainder.Length + 1
    requires remainder !in {generator, gf.exp} && gf.log as object != remainder
    modifies remainder
    ensures remainder[..] == Feed(old(remainder[..]), generator[..], byte)
  {
    hide Add, Mul, Exp;
    var degree := remainder.Length;
    if degree == 0 {
      return;
    }
    var factor := Add(byte, remainder[0]);
    ShiftLeft(remainder);
    ghost var shifted := remainder[..];
    for index := 0 to degree
      invariant gf.Valid()
      invariant forall i :: index <= i < degree ==> remainder[i] == shifted[i]
      invariant forall i :: 0 <= i < index ==> remainder[i] == Add(shifted[i], Mul(generator[i + 1], factor))
    {
      remainder[index] := Add(remainder[index], gf.Multiply(generator[index + 1], factor));
    }
  }

  method ShiftLeft(register: array<bv8>)
    requires register.Length > 0
    modifies register
    ensures register[..] == old(register[1..]) + [0]
  {
    forall i | 0 <= i < register.Length - 1 {
      register[i] := register[i + 1];
    }
    register[register.Length - 1] := 0;
  }

  // -------------------------------------------------------- distance ---

  lemma {:induction false} PowMul(x: bv8, y: bv8, n: nat)
    ensures Pow(Mul(x, y), n) == Mul(Pow(x, n), Pow(y, n))
  {
    hide Mul;
    if n == 0 {
      MulUnit(1);
    } else {
      PowMul(x, y, n - 1);
      var a, b := Pow(x, n - 1), Pow(y, n - 1);
      MulAssociates(a, b, Mul(x, y));
      MulAssociates(b, x, y);
      MulCommutes(b, x);
      MulAssociates(x, b, y);
      MulAssociates(a, x, Mul(b, y));
    }
  }

  lemma {:induction false} PowOfAlpha(n: nat)
    ensures Pow(2, n) == Exp(n)
  {
    hide Mul, XTime;
    if n > 0 {
      PowOfAlpha(n - 1);
      MulUnit(Exp(n - 1));
    }
  }

  lemma {:induction false} PowOfOne(n: nat)
    ensures Pow(1, n) == 1
  {
    hide Mul;
    if n > 0 {
      PowOfOne(n - 1);
      MulUnit(1);
    }
  }

  /** Multiplies the coefficient of degree k by alpha^k. */
  ghost function Twist(p: Poly): (r: Poly)
    ensures |r| == |p|
    ensures forall k :: 0 <= k < |p| ==> r[k] == Mul(p[k], Exp(|p| - 1 - k))
  {
    if p == [] then [] else [Mul(p[0], Exp(|p| - 1))] + Twist(p[1..])
  }

  /** Twisting moves the evaluation point on by one power of alpha. */
  lemma {:induction false} EvalTwist(p: Poly, x: bv8)
    ensures Eval(Twist(p), x) == Eval(p, Mul(2, x))
  {
    hide Add, Mul, Exp;
    if p != [] {
      var n := |p| - 1;
      EvalTwist(p[1..], x);
      EvalHead(p, Mul(2, x));
      EvalHead(Twist(p), x);
      assert Twist(p)[1..] == Twist(p[1..]);
      PowMul(2, x, n);
      PowOfAlpha(n);
      MulAssociates(p[0], Exp(n), Pow(x, n));
    }
  }

  ghost predicate Vanishes(p: Poly, degree: nat) {
    forall i: nat :: i < degree ==> Eval(p, Exp(i)) == 0
  }

  /** Positions outside support hold zero. */
  ghost predicate Supported(p: Poly, support: set<nat>) {
    forall k :: 0 <= k < |p| && k !in support ==> p[k] == 0
  }

  /** Removes position m from the support, at the price of one root. */
  ghost function Eliminate(p: Poly, m: nat): (r: Poly)
    requires m < |p|
    ensures |r| == |p|
  {
    AddPoly(Twist(p), Scale(p, Exp(|p| - 1 - m)))
  }

  lemma EliminateAt(p: Poly, m: nat, k: nat)
    requires m < |p| <= 255 && k < |p|
    ensures Eliminate(p, m)[k] == 0 <==> k == m || p[k] == 0
  {
    hide Add, Mul, Exp;
    var a, b := Exp(|p| - 1 - k), Exp(|p| - 1 - m);
    MulDistributes(a, b, p[k]);
    assert Eliminate(p, m)[k] == Mul(p[k], Add(a, b));
    MulNonzero(p[k], Add(a, b));
    AddLaws(a, b, 0);
    if k < m {
      ExpInjective(|p| - 1 - m, |p| - 1 - k);
    } else if m < k {
      ExpInjective(|p| - 1 - k, |p| - 1 - m);
    }
  }

  lemma EliminateVanishes(p: Poly, m: nat, degree: nat)
    requires m < |p| && Vanishes(p, degree + 1)
    ensures Vanishes(Eliminate(p, m), degree)
  {
    hide Add, Mul, Exp, Eval, Twist;
    forall i: nat | i < degree
      ensures Eval(Eliminate(p, m), Exp(i)) == 0
    {
      var c := Exp(|p| - 1 - m);
      EvalAdd(Twist(p), Scale(p, c), Exp(i));
      EvalTwist(p, Exp(i));
      EvalScale(p, c, Exp(i));
      MulUnit(Exp(i));
      MulCommutes(2, Exp(i));
      ExpStep(i);
      assert Eval(p, Exp(i + 1)) == 0;
      MulByZero(c);
      AddLaws(0, 0, 0);
    }
  }

  lemma {:induction false} EvalSupportedByOne(p: Poly, m: nat)
    requires m < |p| && Supported(p, {m})
    ensures Eval(p, 1) == p[m]
  {
    hide Add, Mul;
    EvalHead(p, 1);
    PowOfOne(|p| - 1);
    MulUnit(p[0]);
    if m == 0 {
      assert p[1..] == Zeros(|p| - 1);
      EvalZeros(|p| - 1, 1);
      AddLaws(p[0], 0, 0);
    } else {
      EvalSupportedByOne(p[1..], m - 1);
      AddLaws(p[0], p[m], 0);
      AddLaws(p[m], p[0], 0);
    }
  }

  /** A polynomial with at most degree non-zero coefficients and degree consecutive roots is zero. */
  lemma {:induction false} SparseVanishingIsZero(p: Poly, degree: nat, support: set<nat>)
    requires |p| <= 255 && Vanishes(p, degree)
    requires Supported(p, support) && |support| <= degree
    ensures forall k :: 0 <= k < |p| ==> p[k] == 0
    decreases degree
  {
    hide Add, Mul, Exp, Eval, Twist, Eliminate;
    if m: nat :| m < |p| && m in support {
      var q := Eliminate(p, m);
      forall k | 0 <= k < |p|
        ensures q[k] == 0 <==> k == m || p[k] == 0
      {
        EliminateAt(p, m, k);
      }
      assert support == support - {m} + {m};
      EliminateVanishes(p, m, degree - 1);
      SparseVanishingIsZero(q, degree - 1, support - {m});
      EvalSupportedByOne(p, m);
      ExpZero();
    }
  }

  /** The positions at which two sequences of the same length differ. */
  ghost function Differences(p: Poly, q: Poly): (positions: set<nat>)
    requires |p| == |q|
  {
    set k: nat | k < |p| && p[k] != q[k]
  }

  lemma CloseCodewordsAreEqual(a: Poly, b: Poly, degree: nat)
    requires |a| == |b| && |a| + degree <= 255
    requires |Differences(a + Remainder(a, degree), b + Remainder(b, degree))| <= degree
    ensures a == b
  {
    hide Add, Mul, Exp, Eval, Remainder;
    var p, q := a + Remainder(a, degree), b + Remainder(b, degree);
    var difference := AddPoly(p, q);
    forall i: nat | i < degree
      ensures Eval(difference, Exp(i)) == 0
    {
      CodewordVanishes(a, degree, i);
      CodewordVanishes(b, degree, i);
      EvalAdd(p, q, Exp(i));
      AddLaws(0, 0, 0);
    }
    forall k | 0 <= k < |p|
      ensures difference[k] == 0 <==> p[k] == q[k]
    {
      AddLaws(p[k], q[k], 0);
    }
    SparseVanishingIsZero(difference, degree, Differences(p, q));
    assert a == p[..|a|] == q[..|a|] == b;
  }

  /**
   Error correction: the codewords of two different data blocks differ in more than degree
   positions, so up to degree erasures, or half as many errors, leave the block determined.
   */
  lemma CodewordsAreFarApart(a: Poly, b: Poly, degree: nat)
    requires |a| == |b| && |a| + degree <= 255 && a != b
    ensures |Differences(a + Remainder(a, degree), b + Remainder(b, degree))| > degree
  {
    hide Remainder, Differences;
    if |Differences(a + Remainder(a, degree), b + Remainder(b, degree))| <= degree {
      CloseCodewordsAreEqual(a, b, degree);
    }
  }

  lemma DifferencesTriangle(p: Poly, q: Poly, r: Poly)
    requires |p| == |q| == |r|
    ensures |Differences(p, q)| <= |Differences(p, r)| + |Differences(q, r)|
  {
    var union := Differences(p, r) + Differences(q, r);
    assert Differences(p, q) <= union;
    Pigeonhole.SubsetSize(Differences(p, q), union);
    assert |union| <= |Differences(p, r)| + |Differences(q, r)|;
  }

  /** A received word within half of degree errors of two codewords: they are the same codeword. */
  lemma FewErrorsAreCorrectable(a: Poly, b: Poly, degree: nat, received: Poly)
    requires |a| == |b| && |a| + degree <= 255 && |received| == |a| + degree
    requires 2 * |Differences(a + Remainder(a, degree), received)| <= degree
    requires 2 * |Differences(b + Remainder(b, degree), received)| <= degree
    ensures a == b
  {
    hide Remainder, Differences;
    DifferencesTriangle(a + Remainder(a, degree), b + Remainder(b, degree), received);
    CloseCodewordsAreEqual(a, b, degree);
  }
}
