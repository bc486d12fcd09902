/** Polynomials over GF(256), the highest coefficient first, and Reed-Solomon generators. */
module Polynomials {
  import opened Galois

  type Poly = seq<Elem>

  function Zeros(n: nat): (p: Poly)
    ensures |p| == n
  {
    seq(n, _ => 0)
  }

  function Plus(p: Poly, q: Poly): (r: Poly)
    requires |p| == |q|
    ensures |r| == |p|
  {
    seq(|p|, i requires 0 <= i < |p| => Add(p[i], q[i]))
  }

  function Scale(c: Elem, p: Poly): (r: Poly)
    ensures |r| == |p|
  {
    seq(|p|, i requires 0 <= i < |p| => Times(c, p[i]))
  }

  /** The product, row by row from the highest coefficient of q. */
  function Product(q: Poly, e: Poly): (r: Poly)
    requires |e| > 0
    ensures |r| == |q| + |e| - 1
  {
    if |q| == 0 then Zeros(|e| - 1)
    else Plus(Scale(q[0], e) + Zeros(|q| - 1), [0] + Product(q[1..], e))
  }

  function Power(x: Elem, k: nat): Elem {
    if k == 0 then 1 else Times(x, Power(x, k - 1))
  }

  function Eval(p: Poly, x: Elem): Elem {
    if |p| == 0 then 0 else Add(Times(p[0], Power(x, |p| - 1)), Eval(p[1..], x))
  }

  // ---- evaluation is linear and multiplicative ----------------------------------------------------

  lemma {:induction false} EvalPlus(p: Poly, q: Poly, x: Elem)
    requires |p| == |q|
    ensures Eval(Plus(p, q), x) == Add(Eval(p, x), Eval(q, x))
  {
    hide Add, Times, Power;
    if |p| == 0 {
      AddLaws(0, 0, 0);
    } else {
      var w := Power(x, |p| - 1);
      EvalPlus(p[1..], q[1..], x);
      assert Plus(p, q)[1..] == Plus(p[1..], q[1..]);
      Distributes(w, p[0], q[0]);
      AddSwap(Times(p[0], w), Times(q[0], w), Eval(p[1..], x), Eval(q[1..], x));
    }
  }

  lemma {:induction false} EvalScale(c: Elem, p: Poly, x: Elem)
    ensures Eval(Scale(c, p), x) == Times(c, Eval(p, x))
  {
    hide Add, Times, Power;
    if |p| == 0 {
      TimesZero(c);
    } else {
      EvalScale(c, p[1..], x);
      assert Scale(c, p)[1..] == Scale(c, p[1..]);
      TimesAssociates(c, p[0], Power(x, |p| - 1));
      Distributes(c, Times(p[0], Power(x, |p| - 1)), Eval(p[1..], x));
    }
  }

  lemma {:induction false} EvalZeros(n: nat, x: Elem)
    ensures Eval(Zeros(n), x) == 0
  {
    hide Add, Times, Power;
    if n > 0 {
      EvalZeros(n - 1, x);
      assert Zeros(n)[1..] == Zeros(n - 1);
      TimesZero(Power(x, n - 1));
      AddLaws(0, 0, 0);
    }
  }

  lemma {:induction false} PowerAdds(x: Elem, m: nat, n: nat)
    ensures Power(x, m + n) == Times(Power(x, m), Power(x, n))
  {
    hide Times;
    if m == 0 {
      TimesOne(Power(x, n));
    } else {
      PowerAdds(x, m - 1, n);
      TimesAssociates(x, Power(x, m - 1), Power(x, n));
    }
  }

  /** Zeros at the low end multiply by a power of x. */
  lemma {:induction false} EvalPadded(p: Poly, n: nat, x: Elem)
    ensures Eval(p + Zeros(n), x) == Times(Eval(p, x), Power(x, n))
  {
    hide Add, Times, Power;
    if |p| == 0 {
      assert p + Zeros(n) == Zeros(n);
      EvalZeros(n, x);
      TimesZero(Power(x, n));
    } else {
      EvalPadded(p[1..], n, x);
      assert (p + Zeros(n))[1..] == p[1..] + Zeros(n);
      PowerAdds(x, |p| - 1, n);
      TimesAssociates(p[0], Power(x, |p| - 1), Power(x, n));
      Distributes(Power(x, n), Times(p[0], Power(x, |p| - 1)), Eval(p[1..], x));
    }
  }

  lemma EvalLeadingZero(p: Poly, x: Elem)
    ensures Eval([0] + p, x) == Eval(p, x)
  {
    hide Add, Times, Power;
    assert ([0] + p)[1..] == p;
    TimesZero(Power(x, |p|));
    AddLaws(Eval(p, x), 0, 0);
  }

  /** A product takes at x the product of the values. */
  lemma {:induction false} EvalProduct(q: Poly, e: Poly, x: Elem)
    requires |e| > 0
    ensures Eval(Product(q, e), x) == Times(Eval(q, x), Eval(e, x))
  {
    hide Add, Times, Power;
    if |q| == 0 {
      EvalZeros(|e| - 1, x);
      TimesZero(Eval(e, x));
    } else {
      var n := |q| - 1;
      EvalPlus(Scale(q[0], e) + Zeros(n), [0] + Product(q[1..], e), x);
      EvalPadded(Scale(q[0], e), n, x);
      EvalScale(q[0], e, x);
      EvalLeadingZero(Product(q[1..], e), x);
      EvalProduct(q[1..], e, x);
      var c, w, v := q[0], Power(x, n), Eval(e, x);
      assert Times(Times(c, v), w) == Times(Times(c, w), v) by {
        TimesAssociates(c, v, w);
        TimesCommutes(v, w);
        TimesAssociates(c, w, v);
      }
      Distributes(v, Times(c, w), Eval(q[1..], x));
    }
  }

  // ---- generators -------------------------------------------------------------------------------

  /** The product of x + alpha^i for i below n. */
  function Generator(n: nat): (g: Poly)
    ensures |g| == n + 1
  {
    if n == 0 then [1] else Product(Generator(n - 1), [1, Alpha(n - 1)])
  }

  lemma {:induction false} ProductByLinear(q: Poly, a: Elem, k: nat)
    requires k <= |q|
    ensures |Product(q, [1, a])| == |q| + 1
    ensures Product(q, [1, a])[k] == Add(if k < |q| then q[k] else 0, if k > 0 then Times(a, q[k - 1]) else 0)
  {
    hide Add, Times;
    AddLaws(0, 0, 0);
    if |q| > 0 {
      var row, rest := Scale(q[0], [1, a]) + Zeros(|q| - 1), [0] + Product(q[1..], [1, a]);
      assert Product(q, [1, a])[k] == Add(row[k], rest[k]);
      TimesOne(q[0]);
      TimesCommutes(1, q[0]);
      TimesCommutes(a, q[0]);
      if k == 0 {
        AddLaws(q[0], 0, 0);
      } else {
        ProductByLinear(q[1..], a, k - 1);
        assert rest[k] == Product(q[1..], [1, a])[k - 1];
        if k == 1 {
          AddLaws(Times(a, q[0]), if 1 < |q| then q[1] else 0, 0);
          AddLaws(if 1 < |q| then q[1] else 0, 0, 0);
        } else {
          AddLaws(rest[k], 0, 0);
        }
      }
    }
  }

  lemma {:induction false} GeneratorRoots(n: nat, i: nat)
    requires i < n
    ensures Eval(Generator(n), Alpha(i)) == 0
  {
    hide Add, Times, Power, Alpha;
    var factor := [1, Alpha(n - 1)];
    EvalProduct(Generator(n - 1), factor, Alpha(i));
    if i < n - 1 {
      GeneratorRoots(n - 1, i);
      TimesZero(Eval(factor, Alpha(i)));
    } else {
      EvalLinear(Alpha(i), Alpha(i));
      AddLaws(Alpha(i), Alpha(i), 0);
      TimesZero(Eval(Generator(n - 1), Alpha(i)));
    }
  }

  lemma EvalLinear(a: Elem, x: Elem)
    ensures Eval([1, a], x) == Add(x, a)
  {
    hide Add, Times;
    assert [1, a][1..] == [a] && [a][1..] == [];
    assert Power(x, 0) == 1 && Power(x, 1) == Times(x, 1);
    TimesCommutes(x, 1);
    TimesCommutes(a, 1);
    TimesOne(x);
    TimesOne(a);
    AddLaws(a, 0, 0);
    assert Eval([a], x) == Add(Times(a, 1), Eval([], x)) == a;
    assert Eval([1, a], x) == Add(Times(1, x), Eval([a], x));
  }

  // ---- no coefficient of a generator is zero -------------------------------------------------------

  /** Coefficient k, counted from the highest; 0 outside the polynomial. */
  ghost function Coefficient(n: nat, k: int): Elem {
    if 0 <= k <= n then Generator(n)[k] else 0
  }

  lemma Pascal(n: nat, k: int)
    ensures Coefficient(n + 1, k) == Add(Coefficient(n, k), Times(Alpha(n), Coefficient(n, k - 1)))
  {
    hide Add, Times, Alpha;
    TimesZero(Alpha(n));
    AddLaws(Coefficient(n, k), 0, 0);
    if 0 <= k <= n + 1 {
      ProductByLinear(Generator(n), Alpha(n), k);
    }
  }

  lemma LeftSide(a: Elem, c: Elem, d: Elem, u: Elem, v: Elem)
    requires Times(d, Add(Times(a, u), 1)) == Times(Times(c, u), Add(v, 1))
    ensures Times(Add(d, Times(Times(u, v), c)), Add(Times(a, u), 1))
         == Times(Times(c, u), Add(1, Times(v, Times(a, u))))
  {
    hide Add, Times;
    var m, w, z := Times(c, u), Add(Times(a, u), 1), Times(v, Times(a, u));
    Distributes(w, d, Times(Times(u, v), c));
    TimesCommutes(Times(u, v), c);
    TimesAssociates(c, u, v);
    TimesAssociates(m, v, w);
    Distributes(m, Add(v, 1), Times(v, w));
    Distributes(v, Times(a, u), 1);
    TimesCommutes(v, 1);
    TimesOne(v);
    AddLaws(z, v, 0);
    AddLaws(1, v, 0);
    AddSwap(1, v, z, v);
    AddLaws(v, v, 0);
    AddLaws(Add(1, z), 0, 0);
  }

  lemma RightSide(a: Elem, b: Elem, c: Elem, u: Elem, v: Elem)
    requires Times(Times(b, u), Add(Times(a, v), 1)) == Times(Times(a, c), Add(u, 1))
    ensures Times(Times(Add(c, Times(Times(u, v), b)), u), Add(Times(a, v), 1))
         == Times(Times(c, u), Add(1, Times(v, Times(a, u))))
  {
    hide Add, Times;
    var m, w, z := Times(c, u), Add(Times(a, v), 1), Times(v, Times(a, u));
    Distributes(u, c, Times(Times(u, v), b));
    Distributes(w, m, Times(Times(Times(u, v), b), u));
    // (u v b) u w = (u v) (b u w) = (u v) (a c) (u + 1) = m (a v) (u + 1)
    TimesAssociates(Times(u, v), b, u);
    TimesAssociates(Times(u, v), Times(b, u), w);
    TimesAssociates(Times(u, v), Times(a, c), Add(u, 1));
    Rearranged(a, c, u, v);
    TimesAssociates(m, Times(a, v), Add(u, 1));
    Distributes(m, w, Times(Times(a, v), Add(u, 1)));
    Distributes(Times(a, v), u, 1);
    TimesCommutes(Times(a, v), 1);
    TimesOne(Times(a, v));
    TimesCommutes(a, v);
    TimesAssociates(v, a, u);
    AddLaws(z, Times(a, v), 0);
    AddLaws(1, Times(a, v), 0);
    AddSwap(1, Times(a, v), z, Times(a, v));
    AddLaws(Times(a, v), Times(a, v), 0);
    AddLaws(Add(1, z), 0, 0);
  }

  lemma Rearranged(a: Elem, c: Elem, u: Elem, v: Elem)
    ensures Times(Times(u, v), Times(a, c)) == Times(Times(c, u), Times(a, v))
  {
    hide Add, Times;
    TimesCommutes(a, c);
    TimesAssociates(Times(u, v), c, a);
    TimesCommutes(Times(u, v), c);
    TimesAssociates(c, u, v);
    TimesAssociates(Times(c, u), v, a);
    TimesCommutes(v, a);
  }

  /** Neighbouring coefficients are in a ratio of powers of alpha less one, as Gaussian binomials are. */
  ghost predicate Ratio(n: nat, k: nat)
    requires 1 <= k <= n + 1
  {
    Times(Coefficient(n, k), Add(Alpha(k), 1))
    == Times(Times(Coefficient(n, k - 1), Alpha(k - 1)), Add(Alpha(n - k + 1), 1))
  }

  lemma PreviousRatio(m: nat, k: nat)
    requires 1 <= k <= m + 1
    requires k > 1 ==> Ratio(m, k - 1)
    ensures Times(Times(Coefficient(m, k - 2), Alpha(k - 1)), Add(Times(Alpha(1), Alpha(m - k + 1)), 1))
         == Times(Times(Alpha(1), Coefficient(m, k - 1)), Add(Alpha(k - 1), 1))
  {
    hide Add, Times, Alpha;
    var a, b, c := Alpha(1), Coefficient(m, k - 2), Coefficient(m, k - 1);
    if k == 1 {
      ZerothPower();
      AddLaws(1, 1, 0);
      TimesZero(Times(a, c));
      TimesZero(Alpha(0));
      TimesZero(Add(Times(a, Alpha(m)), 1));
    } else {
      AlphaAdds(1, m - k + 1);
      AlphaAdds(1, k - 2);
      var t, x := Alpha(k - 2), Add(Alpha(m - k + 2), 1);
      TimesCommutes(a, t);
      TimesAssociates(b, t, a);
      TimesCommutes(Times(b, t), a);
      TimesAssociates(a, Times(b, t), x);
      TimesAssociates(a, c, Add(Alpha(k - 1), 1));
    }
  }

  lemma {:induction false} CoefficientRatio(n: nat, k: nat)
    requires 1 <= k <= n + 1
    ensures Ratio(n, k)
    decreases n
  {
    hide Add, Times, Alpha;
    if k == n + 1 {
      ZerothPower();
      AddLaws(1, 1, 0);
      TimesZero(Add(Alpha(k), 1));
      TimesZero(Times(Coefficient(n, k - 1), Alpha(k - 1)));
    } else {
      var m := n - 1;
      var a, b, c, d := Alpha(1), Coefficient(m, k - 2), Coefficient(m, k - 1), Coefficient(m, k);
      var u, v := Alpha(k - 1), Alpha(m - k + 1);
      AlphaAdds(1, k - 1);
      AlphaAdds(1, m - k + 1);
      AlphaAdds(k - 1, m - k + 1);
      CoefficientRatio(m, k);
      LeftSide(a, c, d, u, v);
      if k > 1 { CoefficientRatio(m, k - 1); }
      PreviousRatio(m, k);
      RightSide(a, b, c, u, v);
      Pascal(m, k);
      Pascal(m, k - 1);
    }
  }

  /** So the generators of up to 254 check bytes have no zero coefficient, and no product below throws. */
  lemma {:induction false} GeneratorNonzero(n: nat, k: nat)
    requires k <= n <= 254
    ensures Generator(n)[k] != 0
  {
    hide Add, Times, Alpha;
    if k == 0 {
      GeneratorLeads(n);
    } else {
      GeneratorNonzero(n, k - 1);
      CoefficientRatio(n, k);
      SmallPowersDiffer(n - k + 1);
      AddCancels(Alpha(n - k + 1), 1);
      AlphaIsNotZero(k - 1);
      NoZeroDivisors(Coefficient(n, k - 1), Alpha(k - 1));
      NoZeroDivisors(Times(Coefficient(n, k - 1), Alpha(k - 1)), Add(Alpha(n - k + 1), 1));
      NoZeroDivisors(Coefficient(n, k), Add(Alpha(k), 1));
    }
  }

  lemma {:induction false} GeneratorLeads(n: nat)
    ensures Generator(n)[0] == 1
  {
    hide Add, Times, Alpha;
    if n > 0 {
      GeneratorLeads(n - 1);
      ProductByLinear(Generator(n - 1), Alpha(n - 1), 0);
      AddLaws(1, 0, 0);
    }
  }
}
