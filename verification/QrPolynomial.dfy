/** qrPolynomial of qrcode.js: products and remainders by logarithms, on arrays of coefficients. */
module QrPolynomial {
  import opened Bytes
  import opened Galois
  import opened Polynomials
  import opened QrMath

  // ---- division, as a specification ---------------------------------------------------------------

  function LeftPad(r: Poly, n: nat): (p: Poly)
    requires |r| <= n
    ensures |p| == n
  {
    Zeros(n - |r|) + r
  }

  /** r is what is left of p after a multiple of e is taken away. */
  ghost predicate Reduces(p: Poly, r: Poly, e: Poly) {
    |e| > 0 && |p| >= |e| - 1 && |r| <= |p|
    && exists q :: |q| == |p| - |e| + 1 && p == Plus(Product(q, e), LeftPad(r, |p|))
  }

  lemma PlusLaws(p: Poly, q: Poly, r: Poly)
    requires |p| == |q| == |r|
    ensures Plus(p, q) == Plus(q, p)
    ensures Plus(Plus(p, q), r) == Plus(p, Plus(q, r))
    ensures Plus(p, Zeros(|p|)) == p && Plus(Zeros(|p|), p) == p && Plus(p, p) == Zeros(|p|)
  {
    hide Add;
    forall i | 0 <= i < |p|
      ensures Plus(p, q)[i] == Plus(q, p)[i] && Plus(Plus(p, q), r)[i] == Plus(p, Plus(q, r))[i]
      ensures Plus(p, Zeros(|p|))[i] == p[i] && Plus(Zeros(|p|), p)[i] == p[i] && Plus(p, p)[i] == 0
    {
      AddLaws(p[i], q[i], r[i]);
    }
  }

  lemma ScaleByZero(e: Poly)
    ensures Scale(0, e) == Zeros(|e|)
  {
    hide Times;
    forall i | 0 <= i < |e| ensures Scale(0, e)[i] == 0 {
      TimesZero(e[i]);
    }
  }

  lemma ProductLeadingZero(q: Poly, e: Poly)
    requires |e| > 0
    ensures Product([0] + q, e) == [0] + Product(q, e)
  {
    hide Times, Add;
    ScaleByZero(e);
    assert ([0] + q)[1..] == q;
    assert Scale(0, e) + Zeros(|q|) == Zeros(|q| + |e|);
    PlusLaws([0] + Product(q, e), Zeros(|q| + |e|), Zeros(|q| + |e|));
  }

  lemma ReducesItself(r: Poly, e: Poly)
    requires |e| > 0 && |r| <= |e| - 1
    ensures Reduces(LeftPad(r, |e| - 1), r, e)
  {
    hide Add;
    var p := LeftPad(r, |e| - 1);
    PlusLaws(p, p, p);
    assert Product([], e) == Zeros(|e| - 1);
  }

  lemma ReducesShifted(p: Poly, r: Poly, e: Poly)
    requires Reduces(p, r, e)
    ensures Reduces([0] + p, r, e)
  {
    hide Add, Product;
    var q :| |q| == |p| - |e| + 1 && p == Plus(Product(q, e), LeftPad(r, |p|));
    ProductLeadingZero(q, e);
    assert LeftPad(r, |p| + 1) == [0] + LeftPad(r, |p|);
    AddLaws(0, 0, 0);
    assert [0] + p == Plus(Product([0] + q, e), LeftPad(r, |p| + 1));
  }

  lemma {:induction false} ReducesPadded(p: Poly, r: Poly, e: Poly, n: nat)
    requires Reduces(p, r, e)
    ensures Reduces(Zeros(n) + p, r, e)
  {
    hide Reduces;
    if n == 0 {
      assert Zeros(0) + p == p;
    } else {
      ReducesPadded(p, r, e, n - 1);
      ReducesShifted(Zeros(n - 1) + p, r, e);
      assert Zeros(n) + p == [0] + (Zeros(n - 1) + p);
    }
  }

  lemma PlusLeadingZero(s: Poly, t: Poly)
    requires |s| == |t|
    ensures [0] + Plus(s, t) == Plus([0] + s, [0] + t)
  {
    hide Add;
    AddLaws(0, 0, 0);
  }

  lemma ProductCons(c: Elem, q: Poly, e: Poly)
    requires |e| > 0
    ensures Product([c] + q, e) == Plus(Scale(c, e) + Zeros(|q|), [0] + Product(q, e))
  {
    hide Scale, Plus, Zeros;
    assert ([c] + q)[1..] == q;
  }

  lemma PadCons(r: Poly, n: nat)
    requires |r| <= n
    ensures LeftPad(r, n + 1) == [0] + LeftPad(r, n)
  {
  }

  /** One step of long division: what cancels the leading coefficient joins the quotient. */
  lemma DivisionStep(p: Poly, num: Poly, r: Poly, e: Poly, c: Elem)
    requires |e| > 0 && |num| == |p| >= |e| && num[0] == 0
    requires num == Plus(p, Scale(c, e) + Zeros(|p| - |e|))
    requires Reduces(num[1..], r, e)
    ensures Reduces(p, r, e)
  {
    hide Scale, Plus, Zeros, Product, LeftPad;
    var rest := num[1..];
    var q :| |q| == |rest| - |e| + 1 && rest == Plus(Product(q, e), LeftPad(r, |rest|));
    assert num == [0] + rest;
    PlusLeadingZero(Product(q, e), LeftPad(r, |rest|));
    PadCons(r, |rest|);
    ProductCons(c, q, e);
    MovedAcross(p, Scale(c, e) + Zeros(|q|), num, [0] + Product(q, e), LeftPad(r, |p|));
  }

  lemma MovedAcross(p: Poly, row: Poly, num: Poly, tail: Poly, pad: Poly)
    requires |p| == |row| == |num| == |tail| == |pad|
    requires num == Plus(p, row) && num == Plus(tail, pad)
    ensures p == Plus(Plus(row, tail), pad)
  {
    PlusLaws(p, row, row);
    PlusLaws(row, tail, pad);
    PlusLaws(row, num, num);
    hide Plus, Zeros;
    assert Plus(num, row) == p;
  }

  // ---- the constructor ------------------------------------------------------------------------------

  function Strip(p: Poly): (r: Poly)
    ensures |r| <= |p| && (|r| > 0 ==> r[0] != 0)
    ensures p == LeftPad(r, |p|)
  {
    if |p| > 0 && p[0] == 0 then Strip(p[1..]) else p
  }

  lemma {:induction false} StripOffset(p: Poly, offset: nat)
    requires offset <= |p| && (forall i | 0 <= i < offset :: p[i] == 0) && (offset < |p| ==> p[offset] != 0)
    ensures Strip(p) == p[offset..]
  {
    if offset > 0 {
      StripOffset(p[1..], offset - 1);
      assert p[1..][offset - 1..] == p[offset..];
    }
  }

  lemma StripShorter(p: Poly)
    requires |p| > 0 && p[0] == 0
    ensures |Strip(p)| < |p|
  {
    assert Strip(p) == Strip(p[1..]);
  }

  lemma ZerosJoin(m: nat, n: nat, s: Poly)
    ensures Zeros(m) + (Zeros(n) + s) == Zeros(m + n) + s
    ensures (Zeros(n + 1) + s)[1..] == Zeros(n) + s
  {
  }

  /** Drops leading zeros and appends `shift` places, whose holes count as 0. */
  method NewPolynomial(num: seq<Elem>, shift: nat) returns (p: seq<Elem>)
    ensures p == Strip(num) + Zeros(shift)
  {
    var offset := 0;
    while offset < |num| && num[offset] == 0
      invariant 0 <= offset <= |num| && forall i | 0 <= i < offset :: num[i] == 0
    {
      offset := offset + 1;
    }
    var a := new Elem[|num| - offset + shift](_ => 0);
    for i := 0 to |num| - offset
      invariant forall k | 0 <= k < i :: a[k] == num[k + offset]
      invariant forall k | i <= k < a.Length :: a[k] == 0
    {
      a[i] := num[i + offset];
    }
    StripOffset(num, offset);
    p := a[..];
  }

  // ---- products ----------------------------------------------------------------------------------

  lemma SnocRows(row: Poly, rest: Poly, low: Poly)
    requires |row| == |rest| && |low| == |row| + 1
    ensures Plus(row + [0], Plus(rest + [0], low)) == Plus(Plus(row, rest) + [0], low)
  {
    hide Add;
    AddLaws(0, 0, 0);
    PlusLaws(row + [0], rest + [0], low);
    assert Plus(row + [0], rest + [0]) == Plus(row, rest) + [0];
  }

  lemma SnocTail(p: Poly, n: nat, row: Poly)
    requires |p| + 1 == n + |row|
    ensures [0] + Plus(p + [0], Zeros(n) + row) == Plus(([0] + p) + [0], Zeros(n + 1) + row)
  {
    hide Add;
    AddLaws(0, 0, 0);
  }

  lemma ZeroEnds(p: Poly, n: nat)
    ensures p + Zeros(0) == p == Zeros(0) + p
    ensures [0] + Zeros(n) == Zeros(n + 1) == Zeros(n) + [0]
  {
  }

  lemma EmptyProductIs(e: Poly)
    requires |e| > 0
    ensures Product([], e) == Zeros(|e| - 1)
  {
  }

  lemma SnocFirst(c: Elem, e: Poly)
    requires |e| > 0
    ensures Product([] + [c], e) == Plus(Product([], e) + [0], Zeros(0) + Scale(c, e))
  {
    hide Add, Times, Product, Scale, Plus, Zeros;
    assert [c] + [] == [] + [c];
    ProductCons(c, [], e);
    EmptyProductIs(e);
    ZeroEnds(Scale(c, e), |e| - 1);
    PlusLaws(Scale(c, e), Zeros(|e|), Zeros(|e|));
  }

  lemma ZerosSnoc(p: Poly, n: nat)
    ensures p + Zeros(n + 1) == (p + Zeros(n)) + [0]
  {
  }

  lemma {:induction false} ProductSnoc(q: Poly, c: Elem, e: Poly)
    requires |e| > 0
    ensures Product(q + [c], e) == Plus(Product(q, e) + [0], Zeros(|q|) + Scale(c, e))
  {
    hide Add, Times, Product, Scale, Plus, Zeros;
    if |q| == 0 {
      assert q == [];
      SnocFirst(c, e);
    } else {
      var t := q[1..];
      ProductSnoc(t, c, e);
      assert q == [q[0]] + t && q + [c] == [q[0]] + (t + [c]);
      ProductCons(q[0], t + [c], e);
      ProductCons(q[0], t, e);
      SnocTail(Product(t, e), |t|, Scale(c, e));
      ZerosSnoc(Scale(q[0], e), |t|);
      SnocRows(Scale(q[0], e) + Zeros(|t|), [0] + Product(t, e), Zeros(|q|) + Scale(c, e));
    }
  }

  lemma EmptyProduct(e: Poly, n: nat)
    requires |e| > 0
    ensures Product([], e) + Zeros(n) == Zeros(n + |e| - 1)
  {
  }

  /** Multiplies coefficient by coefficient; glog throws when one of them is 0. */
  method Multiply(m: Tables, a: seq<Elem>, e: seq<Elem>) returns (r: Option<seq<Elem>>)
    requires m.Valid() && |a| > 0 && |e| > 0
    ensures r.None? <==> 0 in a || 0 in e
    ensures r.Some? ==> r.value == Strip(Product(a, e))
  {
    hide Add, Times, Alpha, Product, Strip, RowXored, Scale;
    var num := new Elem[|a| + |e| - 1](_ => 0);
    assert a[..0] == [];
    EmptyProduct(e, |a|);
    assert num[..] == Zeros(|a| + |e| - 1);
    for i := 0 to |a|
      invariant m.Valid()
      invariant num[..] == Product(a[..i], e) + Zeros(|a| - i)
      invariant 0 !in a[..i] && (i > 0 ==> 0 !in e)
    {
      ghost var base, row := num[..], Scale(a[i], e);
      RowStarts(base, row, i);
      for j := 0 to |e|
        invariant m.Valid()
        invariant j > 0 ==> a[i] != 0
        invariant 0 !in e[..j]
        invariant RowXored(base, row, i, j, num[..])
      {
        var t := m.Product(a[i], e[j]);
        if t.None? { return None; }
        ScaleAt(a[i], e, j);
        RowNext(base, row, i, j, num[..]);
        num[i + j] := Add(num[i + j], t.value);
        TakeNext(e, j);
      }
      assert e[..|e|] == e;
      RowAdded(a[..i], a[i], e, base, num[..], |a| - i - 1);
      TakeNext(a, i);
    }
    assert a[..|a|] == a && Product(a, e) + Zeros(0) == Product(a, e);
    var p := NewPolynomial(num[..], 0);
    r := Some(p);
  }

  lemma TakeNext<T>(a: seq<T>, i: nat)
    requires i < |a|
    ensures a[..i + 1] == a[..i] + [a[i]]
  {
  }

  /** The first j entries of the row are added to the coefficients from i on. */
  ghost predicate RowXored(base: Poly, row: Poly, i: nat, j: nat, num: Poly) {
    |num| == |base| && j <= |row| && i + |row| <= |num|
    && forall k | 0 <= k < |num| :: num[k] == if i <= k < i + j then Add(base[k], row[k - i]) else base[k]
  }

  lemma RowStarts(base: Poly, row: Poly, i: nat)
    requires i + |row| <= |base|
    ensures RowXored(base, row, i, 0, base)
  {
  }

  lemma RowNext(base: Poly, row: Poly, i: nat, j: nat, num: Poly)
    requires RowXored(base, row, i, j, num) && j < |row|
    ensures i + j < |num| == |base| && RowXored(base, row, i, j + 1, num[i + j := Add(num[i + j], row[j])])
  {
    hide Add;
  }

  lemma ScaleAt(c: Elem, e: Poly, j: nat)
    requires j < |e|
    ensures |Scale(c, e)| == |e| && Scale(c, e)[j] == Times(c, e[j])
  {
  }

  lemma RowAdded(q: Poly, c: Elem, e: Poly, base: Poly, num: Poly, rest: nat)
    requires |e| > 0 && base == Product(q, e) + Zeros(rest + 1)
    requires RowXored(base, Scale(c, e), |q|, |e|, num)
    ensures num == Product(q + [c], e) + Zeros(rest)
  {
    hide Product, Scale, Zeros, RowXored, Plus, Add;
    ProductSnoc(q, c, e);
    RowPlaced(Product(q, e), base, num, Scale(c, e), |q|, |e|, rest);
  }

  lemma RowPlaced(p: Poly, base: Poly, num: Poly, row: Poly, i: nat, n: nat, rest: nat)
    requires |p| + 1 == i + n && |row| == n && base == p + Zeros(rest + 1)
    requires RowXored(base, row, i, n, num)
    ensures num == Plus(p + [0], Zeros(i) + row) + Zeros(rest)
  {
    hide Add;
    var sum := Plus(p + [0], Zeros(i) + row);
    forall k | 0 <= k < |num| ensures num[k] == (sum + Zeros(rest))[k] {
      AddLaws(base[k], 0, 0);
    }
  }

  // ---- remainders ----------------------------------------------------------------------------------

  /** The remainder by e: each step cancels the leading coefficient, so the recursion ends. */
  method Mod(m: Tables, p: seq<Elem>, e: seq<Elem>) returns (r: Option<seq<Elem>>)
    requires m.Valid() && |e| > 0 && (|p| >= |e| ==> p[0] != 0)
    ensures r.None? <==> |p| >= |e| && 0 in e
    ensures r.Some? ==> |r.value| < |e| && (|p| < |e| ==> r.value == p)
    ensures r.Some? && |p| >= |e| - 1 ==> Reduces(p, r.value, e)
    decreases |p|
  {
    hide Add, Times, Alpha, Strip, Reduces, Scale, Plus, Product, Cancelled;
    if |p| - |e| < 0 {
      if |p| == |e| - 1 {
        assert LeftPad(p, |p|) == p;
        ReducesItself(p, e);
      }
      return Some(p);
    }
    var first := m.Glog(p[0]);
    var lead := m.Glog(e[0]);
    if lead.None? { return None; }
    var ratio := first.value - lead.value;
    ghost var c := Alpha(ratio % 255);
    var num := new Elem[|p|](i requires 0 <= i < |p| => p[i]);
    assert num[..] == p;
    CancelsNone(p, e, c);
    for i := 0 to |e|
      invariant m.Valid() && 0 !in e[..i]
      invariant Cancelled(num[..], p, e, c, i)
    {
      var l := m.Glog(e[i]);
      if l.None? { return None; }
      var t := m.Gexp(l.value + ratio);
      Exponents(l.value, ratio);
      CancelsNext(num[..], p, e, c, i);
      num[i] := Add(num[i], t);
      TakeNext(e, i);
    }
    assert e[..|e|] == e;
    Cancels(first.value, lead.value);
    ghost var whole := num[..];
    Subtracted(p, whole, e, c);
    LeadCancelled(whole, p, e, c);
    var next := NewPolynomial(num[..], 0);
    assert next == Strip(whole);
    StripShorter(whole);
    r := Mod(m, next, e);
    if r.Some? {
      RemainderOfRest(whole, next, r.value, e);
      DivisionStep(p, whole, r.value, e, c);
    }
  }

  lemma Exponents(l: nat, ratio: int)
    requires l < 255
    ensures Alpha((l + ratio) % 255) == Times(Alpha(ratio % 255), Alpha(l))
  {
    hide Times, Alpha;
    AlphaAdds(ratio % 255, l);
    AlphaModulo(ratio % 255 + l);
    assert (ratio % 255 + l) % 255 == (l + ratio) % 255;
  }

  lemma Cancels(first: nat, lead: nat)
    requires first < 255 && lead < 255
    ensures Add(Alpha(first), Times(Alpha((first - lead) % 255), Alpha(lead))) == 0
  {
    hide Times, Alpha, Add;
    Exponents(lead, first - lead);
    AddLaws(Alpha(first), Alpha(first), 0);
  }

  /** The first `i` coefficients of `p` have had `c` times those of `e` taken away. */
  ghost predicate Cancelled(num: Poly, p: Poly, e: Poly, c: Elem, i: nat) {
    |num| == |p| && i <= |e| <= |p|
    && forall k | 0 <= k < |p| :: num[k] == if k < i then Add(p[k], Times(c, e[k])) else p[k]
  }

  lemma CancelsNone(p: Poly, e: Poly, c: Elem)
    requires |e| <= |p|
    ensures Cancelled(p, p, e, c, 0)
  {
  }

  lemma CancelsNext(num: Poly, p: Poly, e: Poly, c: Elem, i: nat)
    requires Cancelled(num, p, e, c, i) && i < |e|
    ensures Cancelled(num[i := Add(num[i], Times(c, e[i]))], p, e, c, i + 1)
  {
    hide Add, Times;
  }

  lemma LeadCancelled(num: Poly, p: Poly, e: Poly, c: Elem)
    requires Cancelled(num, p, e, c, |e|) && |e| > 0
    ensures |num| == |p| && num[0] == Add(p[0], Times(c, e[0]))
  {
  }

  lemma Subtracted(p: Poly, num: Poly, e: Poly, c: Elem)
    requires Cancelled(num, p, e, c, |e|)
    ensures num == Plus(p, Scale(c, e) + Zeros(|p| - |e|))
  {
    hide Times, Add;
    forall k | 0 <= k < |p| ensures num[k] == Plus(p, Scale(c, e) + Zeros(|p| - |e|))[k] {
      AddLaws(p[k], 0, 0);
    }
  }

  lemma PadIs(r: Poly, n: nat)
    requires |r| <= n
    ensures LeftPad(r, n) == Zeros(n - |r|) + r
  {
  }

  lemma ShortRemainder(r: Poly, e: Poly, k: nat)
    requires |r| < |e|
    ensures Reduces(Zeros(k + |e| - 1 - |r|) + r, r, e)
  {
    hide Reduces, Zeros, LeftPad;
    PadIs(r, |e| - 1);
    ReducesItself(r, e);
    ReducesPadded(LeftPad(r, |e| - 1), r, e, k);
    ZerosJoin(k, |e| - 1 - |r|, r);
  }

  /** Stripped zeros do not change what the remainder is. */
  lemma RemainderOfRest(num: Poly, next: Poly, r: Poly, e: Poly)
    requires |num| >= |e| > 0 && next == Strip(num) && |next| < |num| && |r| < |e|
    requires (|next| >= |e| - 1 ==> Reduces(next, r, e)) && (|next| < |e| ==> r == next)
    ensures Reduces(num[1..], r, e)
  {
    hide Reduces, Strip, Zeros, LeftPad;
    var n := |num| - 1 - |next|;
    PadIs(next, |num|);
    ZerosJoin(0, n, next);
    if |next| >= |e| - 1 {
      ReducesPadded(next, r, e, n);
    } else {
      ShortRemainder(next, e, |num| - |e|);
    }
  }

  // ---- the generator ---------------------------------------------------------------------------------

  /** getErrorCorrectPolynomial: the generator, for every length below 255. */
  method ErrorCorrectPolynomial(m: Tables, length: nat) returns (r: Option<seq<Elem>>)
    requires m.Valid()
    ensures r.Some? ==> r.value == Generator(length)
    ensures length <= 254 ==> r.Some? && 0 !in r.value
  {
    hide Add, Times, Alpha;
    var a := NewPolynomial([1], 0);
    GeneratorStripped(0);
    for i := 0 to length
      invariant m.Valid() && a == Generator(i)
    {
      var x := m.Gexp(i);
      AlphaModulo(i);
      AlphaIsNotZero(i);
      var factor := NewPolynomial([1, x], 0);
      assert factor == [1, Alpha(i)];
      var p := Multiply(m, a, factor);
      if length <= 254 {
        forall k | 0 <= k < |a| ensures a[k] != 0 { GeneratorNonzero(i, k); }
      }
      if p.None? { return None; }
      GeneratorStripped(i + 1);
      a := p.value;
    }
    r := Some(a);
    if length <= 254 {
      forall k | 0 <= k < |a| ensures a[k] != 0 { GeneratorNonzero(length, k); }
    }
  }

  lemma GeneratorStripped(n: nat)
    ensures Strip(Generator(n)) == Generator(n)
  {
    hide Add, Times, Alpha;
    GeneratorLeads(n);
  }
}
