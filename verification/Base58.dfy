/** base58btc and CIDv0: two digit-vector conversions with in-place carries, and when they undo
    each other. */
module Base58 {
  import opened Digits
  import opened Hashing
  import opened Wrappers

  // ---- the conversion both directions perform ----

  function Rev(xs: seq<nat>): (r: seq<nat>)
    ensures |r| == |xs|
  {
    if xs == [] then [] else [xs[|xs| - 1]] + Rev(xs[..|xs| - 1])
  }

  function LeadingZeros(xs: seq<nat>): (z: nat)
    ensures z <= |xs|
    ensures z < |xs| ==> xs[z] != 0
    ensures forall i :: 0 <= i < z ==> xs[i] == 0
  {
    if xs == [] || xs[0] != 0 then 0
    else
      var z := LeadingZeros(xs[1..]);
      assert forall i :: 1 <= i < |xs| ==> xs[i] == xs[1..][i - 1];
      1 + z
  }

  function Zeros(k: nat): (zs: seq<nat>)
    ensures |zs| == k
  {
    if k == 0 then [] else [0] + Zeros(k - 1)
  }

  /** The digit vector the loops keep: at least one digit, no leading zero beyond it. */
  predicate Canonical(ds: seq<nat>) {
    ds != [] && (|ds| == 1 || ds[|ds| - 1] != 0)
  }

  function CanonDigits(n: nat, base: nat): (ds: seq<nat>)
    requires base >= 2
    ensures Canonical(ds) && Below(ds, base) && Num(ds, base) == n
  {
    if n < base then [n]
    else
      DivBelow(n, n, base);
      var rest := CanonDigits(n / base, base);
      var ds := [n % base] + rest;
      assert ds[1..] == rest;
      HighPartNonzero(n, base, rest);
      ds
  }

  lemma HighPartNonzero(n: nat, base: nat, rest: seq<nat>)
    requires base >= 2 && n >= base && Canonical(rest) && Num(rest, base) == n / base
    ensures rest[|rest| - 1] != 0
  {
    if |rest| == 1 {
      assert Num(rest, base) == rest[0] + base * Num(rest[1..], base);
      assert base * 0 == 0;
      assert n == n % base + base * (n / base);
    }
  }

  /** Digits of base `a` to digits of base `b`, most significant first: each leading zero becomes
      one leading zero, then comes the number. */
  function Convert(xs: seq<nat>, a: nat, b: nat): seq<nat>
    requires b >= 2
  {
    Zeros(LeadingZeros(xs)) + Rev(CanonDigits(Num(Rev(xs), a), b))
  }

  // ---- reversal ----

  lemma {:induction false} RevAppend(xs: seq<nat>, ys: seq<nat>)
    ensures Rev(xs + ys) == Rev(ys) + Rev(xs)
    decreases |ys|
  {
    hide Rev;
    if ys == [] {
      assert xs + ys == xs;
      RevNone();
    } else {
      var k := |ys| - 1;
      RevAppend(xs, ys[..k]);
      RevSnoc(xs + ys[..k], ys[k]);
      RevSnoc(ys[..k], ys[k]);
      assert xs + ys == xs + ys[..k] + [ys[k]] && ys == ys[..k] + [ys[k]];
    }
  }

  lemma RevNone()
    ensures Rev([]) == []
  {}

  lemma RevSnoc(xs: seq<nat>, x: nat)
    ensures Rev(xs + [x]) == [x] + Rev(xs)
  {
    assert (xs + [x])[..|xs|] == xs;
  }

  lemma {:induction false} RevRev(xs: seq<nat>)
    ensures Rev(Rev(xs)) == xs
  {
    if xs != [] {
      var k := |xs| - 1;
      RevRev(xs[..k]);
      RevAppend([xs[k]], Rev(xs[..k]));
      assert Rev([xs[k]]) == [xs[k]] + Rev([]);
      assert xs == xs[..k] + [xs[k]];
    }
  }

  lemma {:induction false} RevBelow(xs: seq<nat>, base: nat)
    requires Below(xs, base)
    ensures Below(Rev(xs), base)
  {
    if xs != [] { RevBelow(xs[..|xs| - 1], base); }
  }

  lemma {:induction false} RevLast(xs: seq<nat>)
    requires xs != []
    ensures Rev(xs)[|xs| - 1] == xs[0]
  {
    if |xs| > 1 { RevLast(xs[..|xs| - 1]); }
  }

  lemma RevZeros(z: nat)
    requires z >= 1
    ensures Rev(Zeros(z)) == Rev(Zeros(z - 1)) + [0]
  {
    RevAppend([0], Zeros(z - 1));
    assert Rev([0]) == [0] + Rev([]);
  }

  lemma {:induction false} NumTrailingZeros(ds: seq<nat>, z: nat, base: nat)
    ensures Num(ds + Rev(Zeros(z)), base) == Num(ds, base)
    decreases z
  {
    hide Num, Power;
    if z == 0 {
      assert ds + Rev(Zeros(0)) == ds;
    } else {
      hide Rev, Zeros;
      RevZeros(z);
      var inner := ds + Rev(Zeros(z - 1));
      NumTrailingZeros(ds, z - 1, base);
      NumSnoc(inner, 0, base);
      assert ds + Rev(Zeros(z)) == inner + [0];
    }
  }

  lemma {:induction false} SplitLeading(xs: seq<nat>)
    ensures xs == Zeros(LeadingZeros(xs)) + xs[LeadingZeros(xs)..]
  {
    hide Zeros, LeadingZeros;
    LeadingStep(xs);
    if xs == [] || xs[0] != 0 {
      ZerosCons(0);
    } else {
      var rest, z := xs[1..], LeadingZeros(xs[1..]);
      SplitLeading(rest);
      ZerosCons(z);
      ConsSplit(xs, Zeros(z), rest[z..]);
      assert xs[z + 1..] == rest[z..];
    }
  }

  lemma LeadingStep(xs: seq<nat>)
    ensures LeadingZeros(xs) == if xs == [] || xs[0] != 0 then 0 else 1 + LeadingZeros(xs[1..])
  {}

  lemma ConsSplit(xs: seq<nat>, a: seq<nat>, b: seq<nat>)
    requires xs != [] && xs[0] == 0 && xs[1..] == a + b
    ensures xs == [0] + a + b
  {
    assert xs == [xs[0]] + xs[1..];
  }

  lemma ZerosCons(z: nat)
    ensures Zeros(0) == [] && Zeros(z + 1) == [0] + Zeros(z)
  {}

  /** Leading zeros do not change the number. */
  lemma NumIgnoresLeading(z: nat, ys: seq<nat>, base: nat)
    ensures Num(Rev(Zeros(z) + ys), base) == Num(Rev(ys), base)
  {
    RevAppend(Zeros(z), ys);
    NumTrailingZeros(Rev(ys), z, base);
  }

  lemma {:induction false} LeadingOf(z: nat, ys: seq<nat>)
    requires ys != [] && ys[0] != 0
    ensures LeadingZeros(Zeros(z) + ys) == z
  {
    if z == 0 {
      assert Zeros(0) + ys == ys;
    } else {
      LeadingOf(z - 1, ys);
      assert (Zeros(z) + ys)[1..] == Zeros(z - 1) + ys;
    }
  }

  lemma CanonIsUnique(ds: seq<nat>, base: nat)
    requires base >= 2 && Below(ds, base) && ds != [] && ds[|ds| - 1] != 0
    ensures CanonDigits(Num(ds, base), base) == ds
  {
    hide CanonDigits, Num;
    NonzeroNum(ds, base);
    var cs := CanonDigits(Num(ds, base), base);
    TopDigitNonzero(cs, base);
    MinimalUnique(cs, ds, base);
  }

  lemma {:induction false} NonzeroNum(ds: seq<nat>, base: nat)
    requires base >= 2 && ds != [] && ds[|ds| - 1] != 0
    ensures Num(ds, base) > 0
  {
    if |ds| > 1 {
      NonzeroNum(ds[1..], base);
      MulMono(1, Num(ds[1..], base), base);
    }
  }

  predicate HasNonzero(xs: seq<nat>) {
    exists i :: 0 <= i < |xs| && xs[i] != 0
  }

  /** Converting `z` zeros and a number that starts with a nonzero digit. */
  lemma ConvertSplit(z: nat, ys: seq<nat>, a: nat, b: nat)
    requires a >= 2 && b >= 2 && Below(ys, a) && ys != [] && ys[0] != 0
    ensures var ds := CanonDigits(Num(Rev(ys), a), b);
      && Convert(Zeros(z) + ys, a, b) == Zeros(z) + Rev(ds)
      && Rev(ds) != [] && Rev(ds)[0] != 0 && Below(Rev(ds), b)
      && Num(ds, b) == Num(Rev(ys), a)
  {
    LeadingOf(z, ys);
    NumIgnoresLeading(z, ys, a);
    var v := Num(Rev(ys), a);
    RevLast(ys);
    NonzeroNum(Rev(ys), a);
    var ds := CanonDigits(v, b);
    RevBelow(ds, b);
    TopDigitNonzero(ds, b);
    assert Rev(ds)[0] == ds[|ds| - 1];
  }

  lemma TopDigitNonzero(ds: seq<nat>, base: nat)
    requires Canonical(ds) && Num(ds, base) > 0
    ensures ds[|ds| - 1] != 0
  {
    if |ds| == 1 {
      assert Num(ds, base) == ds[0] + base * Num(ds[1..], base);
      assert base * 0 == 0;
    }
  }

  /** There and back gives the same digits if and only if one of them is not zero. */
  lemma ConvertRoundTrip(xs: seq<nat>, a: nat, b: nat)
    requires a >= 2 && b >= 2 && Below(xs, a)
    ensures Convert(Convert(xs, a, b), b, a) == xs <==> HasNonzero(xs)
  {
    hide Convert, Rev, Num, CanonDigits;
    SplitLeading(xs);
    var z := LeadingZeros(xs);
    if z < |xs| {
      var ys := xs[z..];
      assert xs[z] != 0;
      ConvertSplit(z, ys, a, b);
      var ds := CanonDigits(Num(Rev(ys), a), b);
      ConvertSplit(z, Rev(ds), b, a);
      RevRev(ds);
      RevBelow(ys, a);
      RevLast(ys);
      CanonIsUnique(Rev(ys), a);
      RevRev(ys);
    } else {
      ConvertGrowsOnZeros(xs, a, b);
      ConvertGrowsOnZeros(Convert(xs, a, b), b, a);
    }
  }

  /** A string of zeros comes back one zero longer. */
  lemma ConvertGrowsOnZeros(xs: seq<nat>, a: nat, b: nat)
    requires a >= 2 && b >= 2 && LeadingZeros(xs) == |xs|
    ensures |Convert(xs, a, b)| == |xs| + 1
    ensures LeadingZeros(Convert(xs, a, b)) == |xs| + 1
  {
    SplitLeading(xs);
    NumIgnoresLeading(|xs|, [], a);
    assert xs == Zeros(|xs|) + [];
    assert Num(Rev([]), a) == 0;
    assert CanonDigits(0, b) == [0];
    assert Rev([0]) == [0] + Rev([]);
    var c := Convert(xs, a, b);
    assert c == Zeros(|xs|) + [0];
    ZerosAt(|xs|);
  }

  lemma {:induction false} ZerosAt(k: nat)
    ensures forall i :: 0 <= i < k ==> Zeros(k)[i] == 0
  {
    if k > 0 { ZerosAt(k - 1); }
  }

  // ---- the carry loops ----

  lemma CarryStep(low: nat, p: nat, carry: nat, mul: nat, d: nat, rest: nat, base: nat)
    requires base >= 1
    ensures var x := carry + mul * d;
      low + p * (carry + mul * (d + base * rest)) == low + (x % base) * p + (base * p) * (x / base + mul * rest)
  {
    var x := carry + mul * d;
    var q, r := x / base, x % base;
    assert x == base * q + r;
    assert mul * (d + base * rest) == mul * d + base * (mul * rest);
    var m := mul * rest;
    assert carry + mul * (d + base * rest) == r + base * (q + m);
    assert p * (r + base * (q + m)) == r * p + (base * p) * (q + m);
  }

  function OutDigit(carry: nat, mul: nat, d: nat, base: nat): (r: nat)
    requires base >= 1
    ensures r < base
  {
    (carry + mul * d) % base
  }

  function OutCarry(carry: nat, mul: nat, d: nat, base: nat): nat
    requires base >= 1
  {
    (carry + mul * d) / base
  }

  lemma CarryBound(carry: nat, mul: nat, d: nat, base: nat)
    requires carry < mul && d < base
    ensures OutCarry(carry, mul, d, base) < mul
  {
    MulMono(d, base - 1, mul);
    assert mul * (base - 1) == base * mul - mul;
    DivBelow(carry + mul * d, mul, base);
  }

  /** The number still represented: digits done, carry, and digits to come. */
  function Pending(low: nat, p: nat, carry: nat, mul: nat, rest: nat): nat {
    low + p * (carry + mul * rest)
  }

  lemma DigitDone(ds: seq<nat>, out: seq<nat>, carry: nat, mul: nat, base: nat)
    requires base >= 2 && |out| < |ds|
    ensures var j := |out|;
      Represented(out + [OutDigit(carry, mul, ds[j], base)], OutCarry(carry, mul, ds[j], base), mul, ds[j + 1..], base)
        == Represented(out, carry, mul, ds[j..], base)
  {
    hide Num, Power;
    var j := |out|;
    var x := carry + mul * ds[j];
    CarryStep(Num(out, base), Power(base, j), carry, mul, ds[j], Num(ds[j + 1..], base), base);
    NumHead(ds, j, base);
    NumSnoc(out, x % base, base);
    PowerNext(base, j);
  }

  /** Whatever is still to come, after the digits in `out`. */
  ghost function Represented(out: seq<nat>, carry: nat, mul: nat, rest: seq<nat>, base: nat): nat {
    Pending(Num(out, base), Power(base, |out|), carry, mul, Num(rest, base))
  }

  /** The carry through the existing digits; it stays below `mul`, well inside 32 bits. */
  method CarryThrough(ds: seq<nat>, mul: nat, add: nat, base: nat) returns (out: seq<nat>, carry: nat)
    requires base >= 2 && add < mul && Below(ds, base)
    ensures |out| == |ds| && Below(out, base) && carry < mul
    ensures Represented(out, carry, mul, [], base) == Represented([], add, mul, ds, base)
  {
    hide Represented, OutDigit, OutCarry;
    carry := add;
    out := [];
    assert ds[0..] == ds;
    for j := 0 to |ds|
      invariant |out| == j && Below(out, base) && carry < mul
      invariant Represented(out, carry, mul, ds[j..], base) == Represented([], add, mul, ds, base)
    {
      DigitDone(ds, out, carry, mul, base);
      CarryBound(carry, mul, ds[j], base);
      out := out + [OutDigit(carry, mul, ds[j], base)];
      carry := OutCarry(carry, mul, ds[j], base);
    }
    assert ds[|ds|..] == [];
  }

  /** The digits a remaining carry adds. */
  method PushCarry(ds: seq<nat>, carry: nat, mul: nat, base: nat) returns (out: seq<nat>)
    requires base >= 2 && ds != [] && Below(ds, base) && (carry == 0 ==> Canonical(ds))
    ensures Below(out, base) && Canonical(out)
    ensures Represented(out, 0, mul, [], base) == Represented(ds, carry, mul, [], base)
  {
    hide Represented, Canonical;
    out := ds;
    var left: nat := carry;
    while left > 0
      invariant Below(out, base) && out != []
      invariant left == 0 ==> Canonical(out)
      invariant Represented(out, left, mul, [], base) == Represented(ds, carry, mul, [], base)
    {
      PushStep(out, left, mul, base);
      out := out + [left % base];
      left := left / base;
    }
  }

  /** `ds * mul + add` in place. */
  method MulAdd(ds: seq<nat>, mul: nat, add: nat, base: nat) returns (out: seq<nat>)
    requires base >= 2 && add < mul && Below(ds, base) && Canonical(ds)
    ensures Below(out, base) && Canonical(out)
    ensures Num(out, base) == Num(ds, base) * mul + add
  {
    assert ds != [];
    hide Num, Represented, Canonical;
    var carried, carry := CarryThrough(ds, mul, add, base);
    PendingStart(ds, mul, add, base);
    if carry == 0 { StaysCanonical(ds, carried, mul, add, base); }
    out := PushCarry(carried, carry, mul, base);
    PendingDone(out, mul, base);
  }

  lemma PendingStart(ds: seq<nat>, mul: nat, add: nat, base: nat)
    ensures Represented([], add, mul, ds, base) == Num(ds, base) * mul + add
  {}

  lemma PendingDone(out: seq<nat>, mul: nat, base: nat)
    ensures Represented(out, 0, mul, [], base) == Num(out, base)
  {
    NumEmpty(base);
    assert mul * 0 == 0 && Power(base, |out|) * 0 == 0;
  }

  lemma PushStep(out: seq<nat>, carry: nat, mul: nat, base: nat)
    requires base >= 2 && carry > 0 && out != []
    ensures Represented(out + [carry % base], carry / base, mul, [], base) == Represented(out, carry, mul, [], base)
    ensures carry / base < carry
    ensures carry / base == 0 ==> Canonical(out + [carry % base])
  {
    hide Num, Power;
    NumEmpty(base);
    assert mul * 0 == 0;
    NumSnoc(out, carry % base, base);
    PowerNext(base, |out|);
    PushArith(carry, Power(base, |out|), base);
  }

  lemma PushArith(carry: nat, p: nat, base: nat)
    requires base >= 2 && carry > 0
    ensures (carry % base) * p + (base * p) * (carry / base) == p * carry
    ensures carry / base < carry
    ensures carry / base == 0 ==> carry % base != 0
  {
    var q, r := carry / base, carry % base;
    assert carry == base * q + r;
    Digits.Distribute(p, r, q, base);
    assert p * (r + q * base) == p * r + q * (p * base);
    MulMono(2, base, q);
  }

  /** With no carry left the top digit is still not zero: the number did not shrink. */
  lemma StaysCanonical(ds: seq<nat>, out: seq<nat>, mul: nat, add: nat, base: nat)
    requires base >= 2 && mul >= 1 && Canonical(ds) && |out| == |ds| && Below(out, base)
    requires Represented(out, 0, mul, [], base) == Num(ds, base) * mul + add
    ensures Canonical(out)
  {
    hide Num, Power, Represented;
    PendingDone(out, mul, base);
    var k := |ds| - 1;
    if k > 0 && out[k] == 0 {
      NumSnoc(out[..k], out[k], base);
      assert out == out[..k] + [out[k]];
      NumBound(out[..k], base);
      NumSnoc(ds[..k], ds[k], base);
      assert ds == ds[..k] + [ds[k]];
      MulMono(1, ds[k], Power(base, k));
      MulMono(1, mul, Num(ds, base));
    }
  }

  /** The digit vector after all of `xs`: the number, canonically. */
  method Accumulate(xs: seq<nat>, a: nat, b: nat) returns (digits: seq<nat>)
    requires a >= 2 && b >= 2 && Below(xs, a)
    ensures digits == CanonDigits(Num(Rev(xs), a), b)
  {
    hide Num, CanonDigits, Canonical;
    NumEmpty(a);
    digits := [0];
    assert xs[..0] == [];
    ZeroDigit(b);
    for i := 0 to |xs|
      invariant Canonical(digits) && Below(digits, b)
      invariant Num(digits, b) == Num(Rev(xs[..i]), a)
    {
      AccumulateStep(xs, i, a);
      digits := MulAdd(digits, a, xs[i], b);
    }
    assert xs[..|xs|] == xs;
    CanonOf(digits, b);
  }

  lemma ZeroDigit(b: nat)
    requires b >= 2
    ensures Canonical([0]) && Below([0], b) && Num([0], b) == 0
  {
    assert Num([0], b) == 0 + b * Num([], b);
    assert b * 0 == 0;
  }

  lemma AccumulateStep(xs: seq<nat>, i: nat, a: nat)
    requires i < |xs|
    ensures Num(Rev(xs[..i + 1]), a) == Num(Rev(xs[..i]), a) * a + xs[i]
  {
    assert xs[..i + 1][..i] == xs[..i];
    assert Rev(xs[..i + 1])[1..] == Rev(xs[..i]);
  }

  lemma CanonOf(ds: seq<nat>, base: nat)
    requires base >= 2 && Below(ds, base) && Canonical(ds)
    ensures ds == CanonDigits(Num(ds, base), base)
  {
    if ds[|ds| - 1] != 0 {
      CanonIsUnique(ds, base);
    } else {
      assert ds == [0];
      ZeroDigit(base);
    }
  }

  // ---- base58btc ----

  /** The alphabet: digits without 0, capitals without I and O, small letters without l. */
  function DigitChar(d: nat): char
    requires d < 58
  {
    (if d < 9 then 49 + d
     else if d < 17 then 65 + (d - 9)
     else if d < 22 then 74 + (d - 17)
     else if d < 33 then 80 + (d - 22)
     else if d < 44 then 97 + (d - 33)
     else 109 + (d - 44)) as char
  }

  /** The decoding table: every byte outside the alphabet is refused. */
  function CharDigit(c: char): (d: Option<nat>)
    ensures d.Some? ==> d.value < 58 && DigitChar(d.value) == c
  {
    var n := c as int;
    if 49 <= n <= 57 then Some(n - 49)
    else if 65 <= n <= 72 then Some(n - 65 + 9)
    else if 74 <= n <= 78 then Some(n - 74 + 17)
    else if 80 <= n <= 90 then Some(n - 80 + 22)
    else if 97 <= n <= 107 then Some(n - 97 + 33)
    else if 109 <= n <= 122 then Some(n - 109 + 44)
    else None
  }

  lemma CharRoundTrip(d: nat)
    requires d < 58
    ensures CharDigit(DigitChar(d)) == Some(d)
  {}

  function Chars(ds: seq<nat>): (s: string)
    requires Below(ds, 58)
    ensures |s| == |ds|
  {
    seq(|ds|, i requires 0 <= i < |ds| => DigitChar(ds[i]))
  }

  function CharDigits(s: string): (r: Option<seq<nat>>)
    ensures r.Some? <==> forall i :: 0 <= i < |s| ==> CharDigit(s[i]).Some?
    ensures r.Some? ==> Below(r.value, 58) && |r.value| == |s| && forall i :: 0 <= i < |s| ==> CharDigit(s[i]) == Some(r.value[i])
  {
    if forall i :: 0 <= i < |s| ==> CharDigit(s[i]).Some?
    then Some(seq(|s|, i requires 0 <= i < |s| => CharDigit(s[i]).value))
    else None
  }

  lemma ConvertBelow(xs: seq<nat>, a: nat, b: nat)
    requires b >= 2
    ensures Below(Convert(xs, a, b), b)
  {
    hide Num, CanonDigits;
    RevBelow(CanonDigits(Num(Rev(xs), a), b), b);
    ZerosAt(LeadingZeros(xs));
  }

  function Encode(input: seq<Byte>): string {
    ConvertBelow(input, 256, 58);
    Chars(Convert(input, 256, 58))
  }

  function Decode(s: string): Option<seq<Byte>> {
    match CharDigits(s)
    case None => None
    case Some(ds) =>
      ConvertBelow(ds, 58, 256);
      Some(Convert(ds, 58, 256))
  }

  method Base58Encode(input: seq<Byte>) returns (out: string)
    ensures out == Encode(input)
  {
    hide Num, CanonDigits, Rev;
    var digits := Accumulate(input, 256, 58);
    RevBelow(digits, 58);
    ConvertBelow(input, 256, 58);
    out := Chars(Zeros(LeadingZeros(input)) + Rev(digits));
  }

  method Base58Decode(s: string) returns (out: Option<seq<Byte>>)
    ensures out == Decode(s)
  {
    hide Num, CanonDigits, Rev;
    var ds := CharDigits(s);
    if ds.None? {
      return None;
    }
    var bytes := Accumulate(ds.value, 58, 256);
    ConvertBelow(ds.value, 58, 256);
    out := Some(Zeros(LeadingZeros(ds.value)) + Rev(bytes));
  }

  lemma CharsBack(ds: seq<nat>)
    requires Below(ds, 58)
    ensures CharDigits(Chars(ds)) == Some(ds)
  {
    forall i | 0 <= i < |ds|
      ensures CharDigit(Chars(ds)[i]) == Some(ds[i])
    {
      CharRoundTrip(ds[i]);
    }
    var r := CharDigits(Chars(ds));
    assert r.Some? && r.value == ds;
  }

  /** Decoding an encoding gives the bytes back if and only if one of them is not zero. */
  lemma DecodeOfEncode(input: seq<Byte>)
    ensures Decode(Encode(input)) == Some(input) <==> HasNonzero(input)
  {
    hide Convert, CharDigits, Chars;
    ConvertBelow(input, 256, 58);
    CharsBack(Convert(input, 256, 58));
    ConvertRoundTrip(input, 256, 58);
  }

  /** Encoding a decoding gives the text back if and only if it has a character other than '1'. */
  lemma EncodeOfDecode(s: string)
    requires Decode(s).Some?
    ensures Encode(Decode(s).value) == s <==> exists i :: 0 <= i < |s| && s[i] != '1'
  {
    hide Convert;
    var ds := CharDigits(s).value;
    ConvertBelow(ds, 58, 256);
    ConvertRoundTrip(ds, 58, 256);
    OnesAreZeros(s, ds);
    ConvertBelow(Convert(ds, 58, 256), 256, 58);
    CharsInjective(Convert(Convert(ds, 58, 256), 256, 58), ds, s);
  }

  lemma OnesAreZeros(s: string, ds: seq<nat>)
    requires CharDigits(s) == Some(ds)
    ensures HasNonzero(ds) <==> exists i :: 0 <= i < |s| && s[i] != '1'
  {
    forall i | 0 <= i < |s|
      ensures s[i] == '1' <==> ds[i] == 0
    {
      assert CharDigit(s[i]) == Some(ds[i]);
    }
    if HasNonzero(ds) {
      var i :| 0 <= i < |ds| && ds[i] != 0;
      assert s[i] != '1';
    }
    if i :| 0 <= i < |s| && s[i] != '1' {
      assert ds[i] != 0;
    }
  }

  lemma CharsInjective(xs: seq<nat>, ds: seq<nat>, s: string)
    requires Below(xs, 58) && CharDigits(s) == Some(ds)
    ensures Chars(xs) == s <==> xs == ds
  {
    hide CharDigits, Chars;
    CharsBack(xs);
    if xs == ds { CharsOfDigits(s, ds); }
  }

  lemma CharsOfDigits(s: string, ds: seq<nat>)
    requires CharDigits(s) == Some(ds)
    ensures Chars(ds) == s
  {
    forall i | 0 <= i < |s|
      ensures Chars(ds)[i] == s[i]
    {
      assert CharDigit(s[i]) == Some(ds[i]);
    }
  }

  // ---- CIDv0 ----

  type Multihash = m: seq<Byte> | |m| == 34 witness seq(34, _ => 0)

  predicate IsSha256Multihash(bytes: seq<Byte>) {
    |bytes| == 34 && bytes[0] == 0x12 && bytes[1] == 0x20
  }

  function CidToMultihash(cid: string): Result<Multihash> {
    match Decode(cid)
    case None => Err
    case Some(bytes) => if IsSha256Multihash(bytes) then Ok(bytes) else Err
  }

  function MultihashToCid(m: Multihash): string {
    Encode(m)
  }

  /** Every sha2-256 multihash survives the trip through its CIDv0 text. */
  lemma CidRoundTrip(m: Multihash)
    requires IsSha256Multihash(m)
    ensures CidToMultihash(MultihashToCid(m)) == Ok(m)
  {
    hide Decode, Encode;
    assert HasNonzero(m) by { assert m[0] != 0; }
    DecodeOfEncode(m);
  }

  /** A text accepted as a CIDv0 is the only text of its multihash. */
  lemma CidIsCanonical(cid: string)
    requires CidToMultihash(cid).Ok?
    ensures MultihashToCid(CidToMultihash(cid).value) == cid
  {
    hide Encode, Convert;
    var m := CidToMultihash(cid).value;
    if forall i :: 0 <= i < |cid| ==> cid[i] == '1' {
      var ds := CharDigits(cid).value;
      OnesAreZeros(cid, ds);
      ConvertGrowsOnZeros(ds, 58, 256);
    }
    EncodeOfDecode(cid);
  }
}
