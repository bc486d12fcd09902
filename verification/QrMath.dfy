/** QRMath of qrcode.js: the exponent and logarithm tables of GF(256). */
module QrMath {
  import opened Bytes
  import opened Galois

  lemma {:induction false} ShiftedOne(i: nat)
    requires i < 8
    ensures 1 as bv8 << i == Alpha(i)
  {
    if i == 0 {
      assert 1 as bv8 << 0 == 1;
    } else {
      ShiftedOne(i - 1);
      var b: bv8 := 1 << (i - 1);
      assert b << 1 == 1 << i && b & 0x80 == 0;
      AddLaws(b << 1, 0, 0);
    }
  }

  /** The recurrence over the table: entry i from the entries 4, 5, 6 and 8 before it. */
  lemma NextPower(i: nat)
    requires i >= 8
    ensures Alpha(i) == Add(Add(Add(Alpha(i - 4), Alpha(i - 5)), Alpha(i - 6)), Alpha(i - 8))
  {
    hide TimesAlpha, Add;
    Reduction(Alpha(i - 8));
    ShiftedAdds(8, i - 8, 1);
    ShiftedAdds(4, i - 8, 1);
    ShiftedAdds(3, i - 8, 1);
    ShiftedAdds(2, i - 8, 1);
  }

  class Tables {
    const exp: array<Elem>
    const log: array<int>

    ghost predicate Valid()
      reads exp, log
    {
      exp.Length == log.Length == 256 && exp.Length != 0
      && (forall i | 0 <= i < 256 :: exp[i] == Alpha(i))
      && (forall x | x != 0 :: Index(x) < 256 && 0 <= log[Index(x)] < 255 && Alpha(log[Index(x)]) == x)
    }

    /** Fills both tables; the logarithm table ends up holding a logarithm of every nonzero element. */
    constructor ()
      ensures Valid() && fresh(exp) && fresh(log)
    {
      exp := new Elem[256](_ => 0);
      log := new int[256](_ => 0);
      new;
      hide TimesAlpha, Add, Alpha;
      for i := 0 to 8
        invariant forall k | 0 <= k < i :: exp[k] == Alpha(k)
      {
        ShiftedOne(i);
        exp[i] := 1 << i;
      }
      for i := 8 to 256
        invariant forall k | 0 <= k < i :: exp[k] == Alpha(k)
      {
        NextPower(i);
        exp[i] := Add(Add(Add(exp[i - 4], exp[i - 5]), exp[i - 6]), exp[i - 8]);
      }
      FillLogs();
    }

    method FillLogs()
      requires exp as object != log as object
      requires exp.Length == log.Length == 256 && forall i | 0 <= i < 256 :: exp[i] == Alpha(i)
      modifies log
      ensures Valid()
    {
      hide TimesAlpha, Add, Alpha;
      for i := 0 to 255
        invariant forall k | 0 <= k < 256 :: exp[k] == Alpha(k)
        invariant forall k | 0 <= k < i :: Index(Alpha(k)) < 256 && log[Index(Alpha(k))] == k
      {
        forall k | 0 <= k < i ensures Index(Alpha(k)) != Index(Alpha(i)) {
          if Index(Alpha(k)) == Index(Alpha(i)) {
            IndexInjective(Alpha(k), Alpha(i));
            AlphaInjective(k, i);
          }
        }
        log[Index(exp[i])] := i;
      }
      forall x | x != 0 ensures Index(x) < 256 && 0 <= log[Index(x)] < 255 && Alpha(log[Index(x)]) == x {
        LogExists(x);
      }
    }

    /** glog throws on 0; otherwise a logarithm. */
    method Glog(n: Elem) returns (r: Option<int>)
      requires Valid()
      ensures r.None? <==> n == 0
      ensures r.Some? ==> 0 <= r.value < 255 && Alpha(r.value) == n
    {
      if n < 1 { return None; }
      r := Some(log[Index(n)]);
    }

    /** gexp takes any integer exponent: powers of alpha repeat every 255. */
    method Gexp(n: int) returns (r: Elem)
      requires Valid()
      ensures r == Alpha(n % 255)
    {
      hide Alpha;
      var k := n;
      while k < 0
        invariant k % 255 == n % 255
        decreases -k
      {
        k := k + 255;
      }
      while k >= 256
        invariant k % 255 == n % 255 && k >= 0
      {
        k := k - 255;
      }
      AlphaModulo(k);
      r := exp[k];
    }

    /** The product through the tables, as qrPolynomial forms it; none when a factor is 0 and glog throws. */
    method Product(x: Elem, y: Elem) returns (r: Option<Elem>)
      requires Valid()
      ensures r.None? <==> x == 0 || y == 0
      ensures r.Some? ==> r.value == Times(x, y)
    {
      hide Alpha, Times;
      var i := Glog(x);
      if i.None? { return None; }
      var j := Glog(y);
      if j.None? { return None; }
      var v := Gexp(i.value + j.value);
      AlphaAdds(i.value, j.value);
      AlphaModulo(i.value + j.value);
      r := Some(v);
    }
  }
}
