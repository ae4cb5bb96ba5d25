/** `math.gcd` and `math.lcm` of Python, on integers, folded over any
    number of arguments as the variadic built-ins do: `gcd()` is `0`,
    `lcm()` is `1`, and both work on absolute values. */
module NumberTheory {

  function Abs(x: int): nat {
    if x < 0 then -x else x
  }

  /** `d` divides `n`; only `0` is divided by `0`. */
  predicate Divides(d: nat, n: int) {
    if d == 0 then n == 0 else n % d == 0
  }

  function Gcd(a: nat, b: nat): (g: nat)
    ensures a > 0 || b > 0 ==> g > 0
    decreases b
  {
    if b == 0 then a else Gcd(b, a % b)
  }

  function Lcm(a: nat, b: nat): nat {
    if a == 0 || b == 0 then 0
    else
      var q: nat := b / Gcd(a, b);
      ProductOfNaturals(a, q);
      a * q
  }

  /** A positive number times `h` is at most itself only when `h <= 1`. */
  lemma FactorAtMostOne(h: nat, g: nat)
    requires g > 0 && h * g <= g
    ensures h <= 1
  {
    var t := h - 1;
    assert h * g == g + t * g;
  }

  lemma ProductOfNaturals(a: nat, b: nat)
    ensures a * b >= 0
  {
  }

  /** `math.gcd(*xs)` */
  function GcdSeq(xs: seq<int>): nat
    decreases |xs|
  {
    if |xs| == 0 then 0 else Gcd(GcdSeq(xs[..|xs| - 1]), Abs(xs[|xs| - 1]))
  }

  /** `math.lcm(*xs)` */
  function LcmSeq(xs: seq<nat>): nat
    decreases |xs|
  {
    if |xs| == 0 then 1 else Lcm(LcmSeq(xs[..|xs| - 1]), xs[|xs| - 1])
  }

  // ---- divisibility ----

  lemma MultipleIsDivisible(d: nat, k: int)
    ensures Divides(d, d * k)
  {
    if d > 0 {
      var q := (d * k) / d;
      var r := (d * k) % d;
      assert d * k == d * q + r;
      assert d * (k - q) == r;
      MulBetween(d, k - q);
    }
  }

  lemma MulBetween(d: int, t: int)
    requires d > 0 && 0 <= d * t < d
    ensures t == 0
  {
  }

  lemma Quotient(d: nat, n: int)
    requires Divides(d, n)
    ensures n == d * (if d == 0 then 0 else n / d)
  {
  }

  lemma DividesCombination(g: nat, x: int, y: int, s: int)
    requires Divides(g, x) && Divides(g, y)
    ensures Divides(g, x * s + y)
  {
    if g > 0 {
      Quotient(g, x);
      Quotient(g, y);
      var kx, ky := x / g, y / g;
      assert x * s + y == g * (kx * s + ky);
      MultipleIsDivisible(g, kx * s + ky);
    }
  }

  lemma DividesTransitive(a: nat, b: nat, c: int)
    requires Divides(a, b) && Divides(b, c)
    ensures Divides(a, c)
  {
    if a > 0 && b > 0 {
      Quotient(a, b);
      Quotient(b, c);
      assert c == a * ((b / a) * (c / b));
      MultipleIsDivisible(a, (b / a) * (c / b));
    }
  }

  lemma DividesAbs(d: nat, n: int)
    ensures Divides(d, Abs(n)) <==> Divides(d, n)
  {
    if n < 0 {
      if Divides(d, n) {
        DividesCombination(d, n, 0, -1);
      }
      if Divides(d, Abs(n)) {
        DividesCombination(d, Abs(n), 0, -1);
      }
    }
  }

  /** A divisor of a positive number is at most that number. */
  lemma DivisorBound(d: nat, n: int)
    requires Divides(d, n) && n > 0
    ensures 0 < d <= n
  {
    Quotient(d, n);
    var k := n / d;
    assert n == d * k;
    if k > 0 {
      assert d * k >= d * 1;
    }
  }

  /** Multiplying a divisibility by a common factor. */
  lemma DividesScaled(h: nat, x: int, d: nat)
    requires Divides(h, x)
    ensures Divides(h * d, x * d)
  {
    if h > 0 && d > 0 {
      Quotient(h, x);
      assert x * d == (h * d) * (x / h);
      MultipleIsDivisible(h * d, x / h);
    } else if h == 0 {
      assert x == 0;
    }
  }

  // ---- gcd ----

  /** `gcd(a, b)` divides both. */
  lemma {:induction false} GcdDivides(a: nat, b: nat)
    ensures Divides(Gcd(a, b), a) && Divides(Gcd(a, b), b)
    decreases b
  {
    if b > 0 {
      GcdDivides(b, a % b);
      assert a == b * (a / b) + a % b;
      DividesCombination(Gcd(a, b), b, a % b, a / b);
    }
  }

  /** Every common divisor of `a` and `b` divides `gcd(a, b)`. */
  lemma {:induction false} GcdGreatest(c: nat, a: nat, b: nat)
    requires Divides(c, a) && Divides(c, b)
    ensures Divides(c, Gcd(a, b))
    decreases b
  {
    if b > 0 {
      assert a % b == a + b * -(a / b);
      DividesCombination(c, b, a, -(a / b));
      GcdGreatest(c, b, a % b);
    }
  }

  lemma {:induction false} GcdZero(a: nat, b: nat)
    ensures Gcd(a, b) == 0 <==> a == 0 && b == 0
    decreases b
  {
    if b > 0 {
      GcdZero(b, a % b);
    }
  }

  /** `math.gcd(*xs)` divides every argument. */
  lemma {:induction false} GcdSeqDivides(xs: seq<int>, i: nat)
    requires i < |xs|
    ensures Divides(GcdSeq(xs), xs[i])
    decreases |xs|
  {
    var p := xs[..|xs| - 1];
    var last := xs[|xs| - 1];
    GcdDivides(GcdSeq(p), Abs(last));
    if i < |xs| - 1 {
      GcdSeqDivides(p, i);
      assert p[i] == xs[i];
      DividesTransitive(GcdSeq(xs), GcdSeq(p), xs[i]);
    } else {
      DividesAbs(GcdSeq(xs), last);
    }
  }

  /** Every common divisor of the arguments divides `math.gcd(*xs)`. */
  lemma {:induction false} GcdSeqGreatest(c: nat, xs: seq<int>)
    requires forall i :: 0 <= i < |xs| ==> Divides(c, xs[i])
    ensures Divides(c, GcdSeq(xs))
    decreases |xs|
  {
    if |xs| == 0 {
      if c > 0 {
        assert 0 % c == 0;
      }
    } else {
      var p := xs[..|xs| - 1];
      assert forall i :: 0 <= i < |p| ==> p[i] == xs[i];
      GcdSeqGreatest(c, p);
      DividesAbs(c, xs[|xs| - 1]);
      GcdGreatest(c, GcdSeq(p), Abs(xs[|xs| - 1]));
    }
  }

  /** `math.gcd(*xs)` is zero exactly when every argument is. */
  lemma {:induction false} GcdSeqZero(xs: seq<int>)
    ensures GcdSeq(xs) == 0 <==> forall i :: 0 <= i < |xs| ==> xs[i] == 0
    decreases |xs|
  {
    if |xs| > 0 {
      var p := xs[..|xs| - 1];
      GcdSeqZero(p);
      GcdZero(GcdSeq(p), Abs(xs[|xs| - 1]));
      if GcdSeq(xs) != 0 {
        var j := |xs| - 1;
        if forall i :: 0 <= i < |p| ==> p[i] == 0 {
          assert xs[j] != 0;
        } else {
          var i :| 0 <= i < |p| && p[i] != 0;
          assert xs[i] != 0;
        }
      } else {
        assert forall i :: 0 <= i < |p| ==> xs[i] == p[i];
      }
    }
  }

  // ---- lcm ----

  lemma LcmMultiple(a: nat, b: nat)
    requires a > 0 && b > 0
    ensures Lcm(a, b) > 0
    ensures Divides(a, Lcm(a, b)) && Divides(b, Lcm(a, b))
  {
    var g := Gcd(a, b);
    GcdDivides(a, b);
    GcdZero(a, b);
    Quotient(g, a);
    Quotient(g, b);
    var ka, kb := a / g, b / g;
    assert ka > 0 && kb > 0;
    assert Lcm(a, b) == a * kb;
    assert a * kb > 0;
    MultipleIsDivisible(a, kb);
    assert a * kb == b * ka by {
      calc {
        a * kb;
        (g * ka) * kb;
        (g * kb) * ka;
        b * ka;
      }
    }
    MultipleIsDivisible(b, ka);
  }

  /** `math.lcm(*xs)` of positive arguments is positive and a multiple of
      each of them. */
  lemma {:induction false} LcmSeqMultiple(xs: seq<nat>)
    requires forall i :: 0 <= i < |xs| ==> xs[i] > 0
    ensures LcmSeq(xs) > 0
    ensures forall i :: 0 <= i < |xs| ==> Divides(xs[i], LcmSeq(xs))
    decreases |xs|
  {
    if |xs| > 0 {
      var p := xs[..|xs| - 1];
      assert forall i :: 0 <= i < |p| ==> p[i] == xs[i];
      LcmSeqMultiple(p);
      LcmMultiple(LcmSeq(p), xs[|xs| - 1]);
      forall i | 0 <= i < |xs|
        ensures Divides(xs[i], LcmSeq(xs))
      {
        if i < |p| {
          DividesTransitive(xs[i], LcmSeq(p), LcmSeq(xs));
        }
      }
    }
  }

  /** The lcm of ones is one. */
  lemma {:induction false} LcmSeqOnes(xs: seq<nat>)
    requires forall i :: 0 <= i < |xs| ==> xs[i] == 1
    ensures LcmSeq(xs) == 1
    decreases |xs|
  {
    if |xs| > 0 {
      var p := xs[..|xs| - 1];
      assert forall i :: 0 <= i < |p| ==> p[i] == xs[i];
      LcmSeqOnes(p);
      assert Gcd(1, 1) == 1;
    }
  }
}
