/** `proc_basis` (solveeq.py:32-38) from exact rationals on: a basis vector
    of the null space, given as rationals, is scaled by the lcm of its
    denominators and divided by the gcd of the resulting numerators, giving
    the smallest integer coefficients with the same ratios. */
module Basis {
  import opened Outcome
  import opened NumberTheory

  /** A `fractions.Fraction` as a numerator over a positive denominator. */
  datatype Rational = Rational(num: int, den: int)

  predicate ValidRationals(b: seq<Rational>) {
    forall i :: 0 <= i < |b| ==> b[i].den > 0
  }

  function Denominators(b: seq<Rational>): seq<nat>
    requires ValidRationals(b)
  {
    seq(|b|, i requires 0 <= i < |b| => b[i].den as nat)
  }

  /** `m = math.lcm(*[x.denominator for x in b])` */
  function Multiplier(b: seq<Rational>): nat
    requires ValidRationals(b)
  {
    LcmSeq(Denominators(b))
  }

  /** `[x * m for x in b]`, as the integers they are: `m` is a multiple of
      every denominator. */
  function Scaled(b: seq<Rational>): seq<int>
    requires ValidRationals(b)
  {
    var m := Multiplier(b);
    seq(|b|, i requires 0 <= i < |b| => b[i].num * (m / b[i].den))
  }

  /** `d = math.gcd(*[x.numerator for x in b])` */
  function Divisor(b: seq<Rational>): nat
    requires ValidRationals(b)
  {
    GcdSeq(Scaled(b))
  }

  /** `proc_basis(b)`.  With no entries nothing is divided and the result
      is empty; otherwise a zero gcd makes `x / d` raise. */
  function ProcBasis(b: seq<Rational>): Result<seq<int>>
    requires ValidRationals(b)
  {
    var scaled := Scaled(b);
    var d := Divisor(b);
    if |b| == 0 then Success([])
    else if d == 0 then Failure(ZeroDivision)
    else Success(DivideAll(scaled, d))
  }

  /** `[x / d for x in ...]` on integers that `d` divides. */
  function DivideAll(xs: seq<int>, d: nat): (r: seq<int>)
    requires d > 0
    ensures |r| == |xs|
  {
    seq(|xs|, i requires 0 <= i < |xs| => xs[i] / d)
  }

  /** Integers as rationals with denominator one. */
  function AsRationals(v: seq<int>): (b: seq<Rational>)
    ensures ValidRationals(b)
  {
    seq(|v|, i requires 0 <= i < |v| => Rational(v[i], 1))
  }

  /** The multiplier is positive and a multiple of every denominator. */
  lemma MultiplierFacts(b: seq<Rational>)
    requires ValidRationals(b)
    ensures Multiplier(b) > 0
    ensures forall i :: 0 <= i < |b| ==> Divides(b[i].den, Multiplier(b))
  {
    var ds := Denominators(b);
    LcmSeqMultiple(ds);
    assert forall i :: 0 <= i < |b| ==> ds[i] == b[i].den;
  }

  /** Scaling multiplies every entry by the multiplier, exactly. */
  lemma ScaledIsExact(b: seq<Rational>, i: nat)
    requires ValidRationals(b) && i < |b|
    ensures Scaled(b)[i] * b[i].den == b[i].num * Multiplier(b)
    ensures Scaled(b)[i] == 0 <==> b[i].num == 0
    ensures Scaled(b)[i] > 0 <==> b[i].num > 0
  {
    MultiplierFacts(b);
    var m := Multiplier(b);
    var den := b[i].den;
    Quotient(den, m);
    var k := m / den;
    assert m == den * k;
    assert k > 0;
    assert Scaled(b)[i] * den == b[i].num * (k * den);
  }

  /** The divisor is zero exactly when every entry is zero. */
  lemma DivisorZero(b: seq<Rational>)
    requires ValidRationals(b)
    ensures Divisor(b) == 0 <==> forall i :: 0 <= i < |b| ==> b[i].num == 0
  {
    GcdSeqZero(Scaled(b));
    forall i | 0 <= i < |b|
      ensures Scaled(b)[i] == 0 <==> b[i].num == 0
    {
      ScaledIsExact(b, i);
    }
  }

  /** The error cases: an empty vector gives the empty list, and a
      non-empty one fails exactly when all its entries are zero. */
  lemma ProcBasisOutcome(b: seq<Rational>)
    requires ValidRationals(b)
    ensures |b| == 0 ==> ProcBasis(b) == Success([])
    ensures ProcBasis(b).Failure? <==> |b| > 0 && forall i :: 0 <= i < |b| ==> b[i].num == 0
    ensures ProcBasis(b).Failure? ==> ProcBasis(b) == Failure(ZeroDivision)
    ensures ProcBasis(b).Success? ==> |ProcBasis(b).value| == |b|
  {
    DivisorZero(b);
  }

  /** The result is the input times the positive rational `m / d`, entry by
      entry, so signs and zeros are kept. */
  lemma Proportional(b: seq<Rational>, i: nat)
    requires ValidRationals(b) && ProcBasis(b).Success? && i < |b|
    ensures Multiplier(b) > 0 && Divisor(b) > 0
    ensures ProcBasis(b).value[i] * Divisor(b) * b[i].den == Multiplier(b) * b[i].num
    ensures ProcBasis(b).value[i] > 0 <==> b[i].num > 0
    ensures ProcBasis(b).value[i] == 0 <==> b[i].num == 0
    ensures ProcBasis(b).value[i] < 0 <==> b[i].num < 0
  {
    MultiplierFacts(b);
    ScaledIsExact(b, i);
    GcdSeqDivides(Scaled(b), i);
    ExactDivision(Scaled(b), Divisor(b), i);
    var out := ProcBasis(b).value[i];
    assert out * Divisor(b) == Scaled(b)[i];
  }

  /** Dividing by a divisor is exact. */
  lemma ExactDivision(xs: seq<int>, d: nat, i: nat)
    requires d > 0 && i < |xs| && Divides(d, xs[i])
    ensures DivideAll(xs, d)[i] * d == xs[i]
  {
    Quotient(d, xs[i]);
    assert DivideAll(xs, d)[i] == xs[i] / d;
  }

  /** Dividing integers by their gcd leaves no common factor. */
  lemma QuotientsCoprime(xs: seq<int>)
    requires GcdSeq(xs) > 0
    ensures GcdSeq(DivideAll(xs, GcdSeq(xs))) == 1
  {
    var g := GcdSeq(xs);
    var q := DivideAll(xs, g);
    var h := GcdSeq(q);
    forall i | 0 <= i < |xs|
      ensures Divides(h * g, xs[i])
    {
      GcdSeqDivides(q, i);
      GcdSeqDivides(xs, i);
      ExactDivision(xs, g, i);
      DividesScaled(h, q[i], g);
    }
    GcdSeqGreatest(h * g, xs);
    DivisorBound(h * g, g);
    FactorAtMostOne(h, g);
  }

  /** The result has no common factor: its gcd is one. */
  lemma Primitive(b: seq<Rational>)
    requires ValidRationals(b) && ProcBasis(b).Success? && |b| > 0
    ensures GcdSeq(ProcBasis(b).value) == 1
  {
    DivisorZero(b);
    QuotientsCoprime(Scaled(b));
  }

  /** Integers have multiplier one and scale to themselves. */
  lemma IntegersScaleToThemselves(v: seq<int>)
    ensures Multiplier(AsRationals(v)) == 1
    ensures Scaled(AsRationals(v)) == v
  {
    var b := AsRationals(v);
    var ds := Denominators(b);
    assert forall i :: 0 <= i < |ds| ==> ds[i] == 1;
    LcmSeqOnes(ds);
    var sc := Scaled(b);
    assert forall i :: 0 <= i < |v| ==> sc[i] == v[i] * (1 / 1);
  }

  lemma DivideByOne(xs: seq<int>)
    ensures DivideAll(xs, 1) == xs
  {
    assert forall i :: 0 <= i < |xs| ==> DivideAll(xs, 1)[i] == xs[i] / 1;
  }

  /** An integer vector without common factor comes back unchanged. */
  lemma IntegersUnchanged(v: seq<int>)
    requires |v| > 0 && GcdSeq(v) == 1
    ensures ProcBasis(AsRationals(v)) == Success(v)
  {
    IntegersScaleToThemselves(v);
    DivideByOne(v);
  }

  /** `proc_basis` is idempotent. */
  lemma Idempotent(b: seq<Rational>)
    requires ValidRationals(b) && ProcBasis(b).Success?
    ensures ProcBasis(AsRationals(ProcBasis(b).value)) == ProcBasis(b)
  {
    if |b| > 0 {
      Primitive(b);
      IntegersUnchanged(ProcBasis(b).value);
    }
  }

  /** `[1/2, 3/2, 2]` gives `[1, 3, 4]`. */
  lemma Example()
    ensures ProcBasis([Rational(1, 2), Rational(3, 2), Rational(2, 1)]) == Success([1, 3, 4])
  {
    var b := [Rational(1, 2), Rational(3, 2), Rational(2, 1)];
    var ds := Denominators(b);
    assert ds == [2, 2, 1];
    assert ds[..0] == [] && ds[..1] == [2] && ds[..2] == [2, 2];
    assert Gcd(1, 2) == 1 && Gcd(2, 2) == 2 && Gcd(2, 1) == 1;
    assert LcmSeq(ds[..1]) == 2;
    assert LcmSeq(ds[..2]) == 2;
    assert Multiplier(b) == 2;
    var sc := Scaled(b);
    assert sc == [1, 3, 4];
    assert sc[..0] == [] && sc[..1] == [1] && sc[..2] == [1, 3];
    assert Gcd(0, 1) == 1 && Gcd(1, 3) == 1 && Gcd(1, 4) == 1;
    assert GcdSeq(sc[..2]) == 1;
    assert Divisor(b) == 1;
    var out := ProcBasis(b).value;
    assert out[0] == 1 && out[1] == 3 && out[2] == 4;
    assert out == [1, 3, 4];
  }
}
