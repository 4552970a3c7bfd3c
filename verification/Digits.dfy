/** Numbers as digit strings in a base, least significant digit first. */
module Digits {
  function Power(base: nat, k: nat): (p: nat)
    ensures base >= 1 ==> p >= 1
  {
    if k == 0 then 1 else base * Power(base, k - 1)
  }

  predicate Below(ds: seq<nat>, base: nat) {
    forall i :: 0 <= i < |ds| ==> ds[i] < base
  }

  function Num(ds: seq<nat>, base: nat): nat {
    if ds == [] then 0 else ds[0] + base * Num(ds[1..], base)
  }

  lemma MulMono(a: int, b: int, c: nat)
    requires a <= b
    ensures c * a <= c * b
  {}

  lemma {:induction false} NumBound(ds: seq<nat>, base: nat)
    requires Below(ds, base)
    ensures Num(ds, base) < Power(base, |ds|)
  {
    if ds != [] {
      NumBound(ds[1..], base);
      MulMono(Num(ds[1..], base) + 1, Power(base, |ds| - 1), base);
      assert base * (Num(ds[1..], base) + 1) == base * Num(ds[1..], base) + base;
    }
  }

  lemma {:induction false} NumSnoc(ds: seq<nat>, d: nat, base: nat)
    ensures Num(ds + [d], base) == Num(ds, base) + d * Power(base, |ds|)
  {
    if ds == [] {
      assert Num([d], base) == d + base * Num([], base);
      assert base * 0 == 0;
    } else {
      NumSnoc(ds[1..], d, base);
      assert (ds + [d])[1..] == ds[1..] + [d];
      Distribute(base, Num(ds[1..], base), d, Power(base, |ds| - 1));
    }
  }

  lemma Distribute(base: nat, n: nat, d: nat, p: nat)
    ensures base * (n + d * p) == base * n + d * (base * p)
  {}

  // ---- order ----

  /** Compare from the most significant digit down. */
  predicate LexLeq(a: seq<nat>, b: seq<nat>)
    requires |a| == |b|
  {
    a == [] ||
    var k := |a| - 1;
    a[k] < b[k] || (a[k] == b[k] && LexLeq(a[..k], b[..k]))
  }

  /** For digits below the base that is the order of the numbers. */
  lemma {:induction false} LexIsNumeric(a: seq<nat>, b: seq<nat>, base: nat)
    requires |a| == |b| && Below(a, base) && Below(b, base)
    ensures LexLeq(a, b) <==> Num(a, base) <= Num(b, base)
  {
    if a != [] {
      var k := |a| - 1;
      var p := Power(base, k);
      LexIsNumeric(a[..k], b[..k], base);
      NumSnoc(a[..k], a[k], base);
      NumSnoc(b[..k], b[k], base);
      assert a[..k] + [a[k]] == a && b[..k] + [b[k]] == b;
      NumBound(a[..k], base);
      NumBound(b[..k], base);
      if a[k] < b[k] {
        TopDigitDecides(Num(a[..k], base), a[k], Num(b[..k], base), b[k], p);
      } else if b[k] < a[k] {
        TopDigitDecides(Num(b[..k], base), b[k], Num(a[..k], base), a[k], p);
      }
    }
  }

  lemma TopDigitDecides(x: nat, d: nat, y: nat, e: nat, p: nat)
    requires x < p && d < e
    ensures x + d * p < y + e * p
  {
    MulMono(d + 1, e, p);
    assert p * (d + 1) == d * p + p && p * e == e * p;
  }

  // ---- uniqueness ----

  predicate Minimal(ds: seq<nat>) {
    ds == [] || ds[|ds| - 1] != 0
  }

  lemma DigitAndRest(d: nat, n: nat, base: nat)
    requires d < base
    ensures (d + base * n) % base == d && (d + base * n) / base == n
  {
    var x := d + base * n;
    var q, r := x / base, x % base;
    assert x == base * q + r;
    assert base * (q - n) == base * q - base * n;
    OnlyZero(base, q - n);
  }

  lemma OnlyZero(base: nat, k: int)
    requires 0 - base < base * k < base
    ensures k == 0
  {
    if k >= 1 { MulMono(1, k, base); }
    if k <= -1 { MulMono(k, -1, base); }
  }

  /** The low digits of a number. */
  function DigitsOf(n: nat, k: nat, base: nat): (ds: seq<nat>)
    requires base >= 1
    ensures |ds| == k && Below(ds, base)
  {
    if k == 0 then [] else [n % base] + DigitsOf(n / base, k - 1, base)
  }

  lemma {:induction false} DigitsOfNum(ds: seq<nat>, base: nat)
    requires base >= 1 && Below(ds, base)
    ensures DigitsOf(Num(ds, base), |ds|, base) == ds
  {
    if ds != [] {
      DigitsOfNum(ds[1..], base);
      DigitAndRest(ds[0], Num(ds[1..], base), base);
    }
  }

  lemma {:induction false} NumOfDigits(n: nat, k: nat, base: nat)
    requires base >= 1 && n < Power(base, k)
    ensures Num(DigitsOf(n, k, base), base) == n
  {
    hide Power, Num, DigitsOf;
    if k == 0 {
      NumEmpty(base);
      DigitsNone(n, base);
    } else {
      NextBelow(n, k, base);
      NumOfDigits(n / base, k - 1, base);
      DigitsHead(n, k, base);
      Rejoin(n, base, Num(DigitsOf(n / base, k - 1, base), base));
    }
  }

  lemma NextBelow(n: nat, k: nat, base: nat)
    requires base >= 1 && k > 0 && n < Power(base, k)
    ensures n / base < Power(base, k - 1)
  {
    hide Power;
    PowerNext(base, k - 1);
    DivBelow(n, Power(base, k - 1), base);
  }

  lemma Rejoin(n: nat, base: nat, rest: nat)
    requires base >= 1 && rest == n / base
    ensures n % base + base * rest == n
  {}

  lemma DigitsNone(n: nat, base: nat)
    requires base >= 1
    ensures DigitsOf(n, 0, base) == []
  {}

  lemma DigitsHead(n: nat, k: nat, base: nat)
    requires base >= 1 && k > 0
    ensures Num(DigitsOf(n, k, base), base) == n % base + base * Num(DigitsOf(n / base, k - 1, base), base)
  {
    assert DigitsOf(n, k, base) == [n % base] + DigitsOf(n / base, k - 1, base);
    assert DigitsOf(n, k, base)[1..] == DigitsOf(n / base, k - 1, base);
  }

  lemma DivBelow(n: nat, p: nat, base: nat)
    requires base >= 1 && n < base * p
    ensures n / base < p
    ensures n == n % base + base * (n / base)
  {
    if n / base >= p { MulMono(p, n / base, base); }
  }

  /** A number has one minimal digit string. */
  lemma {:induction false} MinimalUnique(a: seq<nat>, b: seq<nat>, base: nat)
    requires base >= 1 && Below(a, base) && Below(b, base) && Minimal(a) && Minimal(b)
    requires Num(a, base) == Num(b, base)
    ensures a == b
  {
    if a == [] {
      ZeroIsEmpty(b, base);
    } else if b == [] {
      ZeroIsEmpty(a, base);
    } else {
      DigitAndRest(a[0], Num(a[1..], base), base);
      DigitAndRest(b[0], Num(b[1..], base), base);
      assert Num(a[1..], base) == Num(b[1..], base);
      MinimalUnique(a[1..], b[1..], base);
      assert a == [a[0]] + a[1..] && b == [b[0]] + b[1..];
    }
  }

  lemma {:induction false} ZeroIsEmpty(ds: seq<nat>, base: nat)
    requires base >= 1 && Below(ds, base) && Minimal(ds) && Num(ds, base) == 0
    ensures ds == []
  {
    if ds != [] {
      DigitAndRest(ds[0], Num(ds[1..], base), base);
      ZeroIsEmpty(ds[1..], base);
    }
  }

  lemma NumEmpty(base: nat)
    ensures Num([], base) == 0 && Power(base, 0) == 1
  {}

  lemma NumHead(ds: seq<nat>, j: nat, base: nat)
    requires j < |ds|
    ensures Num(ds[j..], base) == ds[j] + base * Num(ds[j + 1..], base)
  {
    assert ds[j..][1..] == ds[j + 1..];
  }

  lemma PowerNext(base: nat, k: nat)
    ensures Power(base, k + 1) == base * Power(base, k)
  {}
}
