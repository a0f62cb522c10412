/** Change of base on digit strings, with leading zeros kept one for one. Base58btc encoding and
    decoding are this one operation in opposite directions. */
module Radix {

  // ----- numbers as digits, least significant first -----

  predicate InBase(ds: seq<nat>, q: nat) {
    forall i :: 0 <= i < |ds| ==> ds[i] < q
  }

  function ToNat(ds: seq<nat>, q: nat): nat {
    if ds == [] then 0 else ds[0] + q * ToNat(ds[1..], q)
  }

  function FromNat(n: nat, q: nat): seq<nat>
    requires q >= 2
    decreases n
  {
    if n == 0 then [] else [n % q] + FromNat(n / q, q)
  }

  /** The accumulator's form of a number: zero is the single digit 0. */
  function Digits(n: nat, q: nat): seq<nat>
    requires q >= 2
  {
    if n == 0 then [0] else FromNat(n, q)
  }

  /** One pass of the inner loops: multiply by `p`, add `carry`, and push what is left over. */
  function MulAdd(ds: seq<nat>, p: nat, carry: nat, q: nat): seq<nat>
    requires q >= 2
  {
    if ds == [] then FromNat(carry, q)
    else [(carry + ds[0] * p) % q] + MulAdd(ds[1..], p, (carry + ds[0] * p) / q, q)
  }

  lemma DivMod(n: nat, q: nat)
    requires q >= 2
    ensures n == n % q + q * (n / q) && n % q < q
    ensures n > 0 ==> n / q < n
  {
  }

  lemma {:induction false} FromNatValue(n: nat, q: nat)
    requires q >= 2
    ensures ToNat(FromNat(n, q), q) == n && InBase(FromNat(n, q), q)
    ensures n > 0 ==> FromNat(n, q) != [] && FromNat(n, q)[|FromNat(n, q)| - 1] != 0
    decreases n
  {
    if n > 0 {
      DivMod(n, q);
      FromNatValue(n / q, q);
      assert FromNat(n, q)[1..] == FromNat(n / q, q);
      if n / q == 0 {
        assert FromNat(n, q) == [n % q];
      }
    }
  }

  lemma {:induction false} MulAddValue(ds: seq<nat>, p: nat, carry: nat, q: nat)
    requires q >= 2
    ensures ToNat(MulAdd(ds, p, carry, q), q) == carry + p * ToNat(ds, q)
    ensures InBase(MulAdd(ds, p, carry, q), q)
    decreases |ds|
  {
    if ds == [] {
      FromNatValue(carry, q);
    } else {
      var c := carry + ds[0] * p;
      DivMod(c, q);
      MulAddValue(ds[1..], p, c / q, q);
      var rest := MulAdd(ds[1..], p, c / q, q);
      assert MulAdd(ds, p, carry, q)[1..] == rest;
      Unfold(c, p, q, ds[0], carry, ToNat(ds[1..], q), ToNat(rest, q));
    }
  }

  lemma Unfold(c: nat, p: nat, q: nat, d: nat, carry: nat, t: nat, r: nat)
    requires q >= 2 && c == carry + d * p && r == c / q + p * t && c == c % q + q * (c / q)
    ensures c % q + q * r == carry + p * (d + q * t)
  {
    assert q * r == q * (c / q) + q * (p * t);
    assert q * (p * t) == p * (q * t);
    assert p * (d + q * t) == p * d + p * (q * t);
  }

  // ----- one number, one canonical form -----

  /** Digits in range, no superfluous leading zero. */
  ghost predicate Canonical(ds: seq<nat>, q: nat) {
    |ds| >= 1 && InBase(ds, q) && (|ds| > 1 ==> ds[|ds| - 1] != 0)
  }

  lemma {:induction false} PositiveValue(ds: seq<nat>, q: nat)
    requires q >= 2 && InBase(ds, q) && |ds| >= 1 && ds[|ds| - 1] != 0
    ensures ToNat(ds, q) > 0
  {
    if |ds| > 1 {
      PositiveValue(ds[1..], q);
      assert q * ToNat(ds[1..], q) > 0;
    } else {
      assert ToNat(ds[1..], q) == 0;
    }
  }

  lemma MultipleOutOfRange(q: nat, z: int)
    ensures z >= 1 ==> q * z >= q
    ensures z <= -1 ==> q * z + q <= 0
  {
  }

  lemma DigitAndRest(d: nat, t: nat, q: nat)
    requires q >= 2 && d < q
    ensures (d + q * t) % q == d && (d + q * t) / q == t
  {
    var n := d + q * t;
    var e, r := n / q, n % q;
    assert n == r + q * e && r < q by {
      DivMod(n, q);
    }
    assert q * (e - t) == q * e - q * t;
    MultipleOutOfRange(q, e - t);
  }

  lemma {:induction false} NonZeroTopIsUnique(ds: seq<nat>, q: nat)
    requires q >= 2 && InBase(ds, q) && |ds| >= 1 && ds[|ds| - 1] != 0
    ensures ds == FromNat(ToNat(ds, q), q)
  {
    PositiveValue(ds, q);
    DigitAndRest(ds[0], ToNat(ds[1..], q), q);
    assert ds == [ds[0]] + ds[1..];
    if |ds| > 1 {
      NonZeroTopIsUnique(ds[1..], q);
    } else {
      assert ds[1..] == [] && FromNat(0, q) == [];
    }
  }

  /** A canonical digit string is the accumulator's form of its value. */
  lemma CanonicalIsDigits(ds: seq<nat>, q: nat)
    requires q >= 2 && Canonical(ds, q)
    ensures ds == Digits(ToNat(ds, q), q)
  {
    if ds[|ds| - 1] != 0 {
      NonZeroTopIsUnique(ds, q);
      PositiveValue(ds, q);
    } else {
      assert ds == [0] && ToNat(ds[1..], q) == 0;
    }
  }

  lemma DigitsCanonical(n: nat, q: nat)
    requires q >= 2
    ensures Canonical(Digits(n, q), q) && ToNat(Digits(n, q), q) == n
  {
    FromNatValue(n, q);
    if n == 0 {
      assert ToNat([0][1..], q) == 0;
    }
  }

  lemma MulAddUnfold(ds: seq<nat>, p: nat, carry: nat, q: nat)
    requires q >= 2 && ds != []
    ensures var c := carry + ds[0] * p; MulAdd(ds, p, carry, q) == [c % q] + MulAdd(ds[1..], p, c / q, q)
  {
  }

  lemma MulAddLast(p: nat, carry: nat, q: nat)
    requires q >= 2
    ensures InBase(MulAdd([], p, carry, q), q)
    ensures var ds := MulAdd([], p, carry, q); ds != [] ==> ds[|ds| - 1] != 0
  {
    FromNatValue(carry, q);
  }

  lemma {:induction false} MulAddCanonical(ds: seq<nat>, p: nat, carry: nat, q: nat)
    requires q >= 2 && p >= 1 && Canonical(ds, q)
    ensures Canonical(MulAdd(ds, p, carry, q), q)
    decreases |ds|
  {
    hide ToNat, MulAdd;
    MulAddUnfold(ds, p, carry, q);
    MulAddValue(ds, p, carry, q);
    var c: nat := carry + ds[0] * p;
    var rest := MulAdd(ds[1..], p, c / q, q);
    if |ds| == 1 {
      assert ds[1..] == [];
      MulAddLast(p, c / q, q);
    } else {
      MulAddCanonical(ds[1..], p, c / q, q);
      MulAddValue(ds[1..], p, c / q, q);
      PositiveValue(ds[1..], q);
      ProductPositive(p, ToNat(ds[1..], q));
      PositiveTop(rest, q);
    }
  }

  lemma ProductPositive(x: nat, y: nat)
    requires x >= 1 && y >= 1
    ensures x * y >= 1
  {
  }

  /** The top digit of a positive canonical number is not zero. */
  lemma PositiveTop(ds: seq<nat>, q: nat)
    requires Canonical(ds, q) && ToNat(ds, q) > 0
    ensures ds[|ds| - 1] != 0
  {
    if |ds| == 1 {
      assert ds[1..] == [];
    }
  }

  /** The accumulator step on canonical digits is arithmetic. */
  lemma StepIsArithmetic(n: nat, p: nat, x: nat, q: nat)
    requires q >= 2 && p >= 1
    ensures MulAdd(Digits(n, q), p, x, q) == Digits(p * n + x, q)
  {
    DigitsCanonical(n, q);
    MulAddCanonical(Digits(n, q), p, x, q);
    MulAddValue(Digits(n, q), p, x, q);
    CanonicalIsDigits(MulAdd(Digits(n, q), p, x, q), q);
  }

  // ----- changing base, most significant digit first -----

  function Reverse(ds: seq<nat>): (r: seq<nat>)
    ensures |r| == |ds|
    ensures forall i :: 0 <= i < |ds| ==> r[i] == ds[|ds| - 1 - i]
  {
    if ds == [] then [] else Reverse(ds[1..]) + [ds[0]]
  }

  /** Value of digits written most significant first. */
  function Value(ds: seq<nat>, p: nat): nat {
    if ds == [] then 0 else p * Value(ds[..|ds| - 1], p) + ds[|ds| - 1]
  }

  function LeadingZeros(ds: seq<nat>): (k: nat)
    ensures k <= |ds|
    ensures forall i :: 0 <= i < k ==> ds[i] == 0
    ensures k < |ds| ==> ds[k] != 0
  {
    if ds == [] || ds[0] != 0 then 0 else 1 + LeadingZeros(ds[1..])
  }

  function Zeros(n: nat): seq<nat> {
    seq(n, _ => 0)
  }

  /** Rewrite digits from base `p` in base `q`: leading zeros are kept one for one, and the value is
      written with at least one digit. */
  function Rebase(ds: seq<nat>, p: nat, q: nat): seq<nat>
    requires q >= 2
  {
    Zeros(LeadingZeros(ds)) + Reverse(Digits(Value(ds, p), q))
  }

  lemma {:induction false} ValueIsToNat(ds: seq<nat>, p: nat)
    ensures Value(ds, p) == ToNat(Reverse(ds), p)
    decreases |ds|
  {
    if ds != [] {
      var n := |ds| - 1;
      ValueIsToNat(ds[..n], p);
      var r := Reverse(ds);
      assert r[0] == ds[n] && r[1..] == Reverse(ds[..n]);
    }
  }

  lemma {:induction false} ValueSkipsZeros(k: nat, ds: seq<nat>, p: nat)
    ensures Value(Zeros(k) + ds, p) == Value(ds, p)
    decreases |ds|, k
  {
    var all := Zeros(k) + ds;
    if ds != [] {
      assert all[..|all| - 1] == Zeros(k) + ds[..|ds| - 1];
      ValueSkipsZeros(k, ds[..|ds| - 1], p);
    } else if k > 0 {
      assert all[..|all| - 1] == Zeros(k - 1) + [];
      ValueSkipsZeros(k - 1, [], p);
    }
  }

  predicate HasNonZero(ds: seq<nat>) {
    exists i :: 0 <= i < |ds| && ds[i] != 0
  }

  lemma ReverseTwice(ds: seq<nat>)
    ensures Reverse(Reverse(ds)) == ds
  {
  }

  /** Digits with a non-zero top are the big-endian form of their value. */
  lemma TopIsDigits(ds: seq<nat>, p: nat)
    requires p >= 2 && InBase(ds, p) && |ds| >= 1 && ds[0] != 0
    ensures Value(ds, p) > 0
    ensures Reverse(Digits(Value(ds, p), p)) == ds
  {
    hide Value, ToNat, FromNat;
    ValueIsToNat(ds, p);
    var le := Reverse(ds);
    assert le[|le| - 1] == ds[0];
    PositiveValue(le, p);
    NonZeroTopIsUnique(le, p);
    ReverseTwice(ds);
  }

  lemma ZeroPrefix(ds: seq<nat>, k: nat)
    requires k <= |ds| && forall i :: 0 <= i < k ==> ds[i] == 0
    ensures ds[..k] == Zeros(k)
  {
  }

  /** Splitting off the leading zeros leaves digits whose top is non-zero. */
  lemma SplitZeros(ds: seq<nat>)
    requires HasNonZero(ds)
    ensures var k := LeadingZeros(ds); k < |ds| && ds == Zeros(k) + ds[k..] && ds[k] != 0
  {
    hide LeadingZeros, Zeros;
    var k := LeadingZeros(ds);
    ZeroPrefix(ds, k);
    assert ds == ds[..k] + ds[k..];
  }

  lemma DigitsTop(n: nat, q: nat)
    requires q >= 2 && n > 0
    ensures var be := Reverse(Digits(n, q)); |be| >= 1 && be[0] != 0 && InBase(be, q) && Value(be, q) == n
  {
    FromNatValue(n, q);
    var be := Reverse(Digits(n, q));
    ValueIsToNat(be, q);
    ReverseTwice(Digits(n, q));
  }

  lemma LeadingZerosOf(k: nat, ds: seq<nat>)
    requires |ds| >= 1 && ds[0] != 0
    ensures LeadingZeros(Zeros(k) + ds) == k
  {
    var all := Zeros(k) + ds;
    assert all[k] != 0;
    assert forall i :: 0 <= i < k ==> all[i] == 0;
  }

  /** Digits with a non-zero digit survive the trip to another base and back. */
  lemma RebaseBack(ds: seq<nat>, p: nat, q: nat)
    requires p >= 2 && q >= 2 && InBase(ds, p) && HasNonZero(ds)
    ensures InBase(Rebase(ds, p, q), q) && HasNonZero(Rebase(ds, p, q))
    ensures Rebase(Rebase(ds, p, q), q, p) == ds
  {
    hide Value, Digits, Reverse, LeadingZeros;
    var k := LeadingZeros(ds);
    SplitZeros(ds);
    var top := ds[k..];
    TopIsDigits(top, p);
    ValueSkipsZeros(k, top, p);
    var n := Value(ds, p);
    var be := Reverse(Digits(n, q));
    DigitsTop(n, q);
    var out := Zeros(k) + be;
    assert out == Rebase(ds, p, q);
    assert out[k] != 0;
    LeadingZerosOf(k, be);
    ValueSkipsZeros(k, be, q);
  }

  lemma RebaseInBase(ds: seq<nat>, p: nat, q: nat)
    requires q >= 2
    ensures InBase(Rebase(ds, p, q), q)
  {
    hide Value, LeadingZeros, Reverse, FromNat;
    DigitsCanonical(Value(ds, p), q);
  }

  lemma {:induction false} ZeroValue(ds: seq<nat>, p: nat)
    requires !HasNonZero(ds)
    ensures Value(ds, p) == 0
    decreases |ds|
  {
    if ds != [] {
      var init := ds[..|ds| - 1];
      assert forall i :: 0 <= i < |init| ==> init[i] == ds[i];
      ZeroValue(init, p);
      assert ds[|ds| - 1] == 0;
    }
  }

  /** An all-zero input gains a digit on every trip. */
  lemma RebaseZeros(ds: seq<nat>, p: nat, q: nat)
    requires q >= 2 && !HasNonZero(ds)
    ensures Rebase(ds, p, q) == Zeros(|ds| + 1)
  {
    ZeroValue(ds, p);
    assert LeadingZeros(ds) == |ds|;
    assert Reverse([0]) == [0];
  }

  lemma ZerosAreZero(n: nat)
    ensures !HasNonZero(Zeros(n)) && |Zeros(n)| == n
  {
  }

  /** Changing base keeps the number, and the leading zeros of any input that is not all zeros. */
  lemma RebaseValue(ds: seq<nat>, p: nat, q: nat)
    requires q >= 2
    ensures Value(Rebase(ds, p, q), q) == Value(ds, p)
    ensures Value(ds, p) > 0 ==> LeadingZeros(Rebase(ds, p, q)) == LeadingZeros(ds)
  {
    hide Value, Reverse, LeadingZeros, Digits;
    var n, k := Value(ds, p), LeadingZeros(ds);
    var be := Reverse(Digits(n, q));
    ValueSkipsZeros(k, be, q);
    if n > 0 {
      DigitsTop(n, q);
      LeadingZerosOf(k, be);
    } else {
      ZeroDigits(q);
    }
  }

  lemma ZeroDigits(q: nat)
    requires q >= 2
    ensures Value(Reverse(Digits(0, q)), q) == 0
  {
    assert Reverse([0]) == [0] && [0][..0] == [];
  }

  /** The trip there and back is the identity exactly on inputs with a non-zero digit. */
  lemma RebaseBackIff(ds: seq<nat>, p: nat, q: nat)
    requires p >= 2 && q >= 2 && InBase(ds, p)
    ensures Rebase(Rebase(ds, p, q), q, p) == ds <==> HasNonZero(ds)
  {
    if HasNonZero(ds) {
      RebaseBack(ds, p, q);
    } else {
      RebaseZeros(ds, p, q);
      ZerosAreZero(|ds| + 1);
      RebaseZeros(Zeros(|ds| + 1), q, p);
      ZerosAreZero(|ds| + 2);
    }
  }

  // ----- the leading digits of a number of known size -----

  function Pow(q: nat, k: nat): nat {
    if k == 0 then 1 else q * Pow(q, k - 1)
  }

  /** Dividing by `q`, `k` times: what is left of `n` above its lowest `k` digits. */
  function Shift(n: nat, q: nat, k: nat): nat
    requires q >= 2
    decreases k
  {
    if k == 0 then n else Shift(n / q, q, k - 1)
  }

  lemma {:induction false} ValueBelowPow(ds: seq<nat>, p: nat)
    requires p >= 2 && InBase(ds, p)
    ensures Value(ds, p) < Pow(p, |ds|)
    decreases |ds|
  {
    if ds != [] {
      var init := ds[..|ds| - 1];
      ValueBelowPow(init, p);
      MultipleOutOfRange(p, Pow(p, |init|) - Value(init, p));
      assert p * (Pow(p, |init|) - Value(init, p)) == p * Pow(p, |init|) - p * Value(init, p);
    }
  }

  lemma {:induction false} ValueOfConcat(a: seq<nat>, b: seq<nat>, p: nat)
    ensures Value(a + b, p) == Value(a, p) * Pow(p, |b|) + Value(b, p)
    decreases |b|
  {
    if b == [] {
      assert a + b == a;
    } else {
      var init := b[..|b| - 1];
      ValueOfConcat(a, init, p);
      assert (a + b)[..|a + b| - 1] == a + init;
      Regroup(p, Value(a, p), Pow(p, |init|), Value(init, p));
    }
  }

  lemma Regroup(p: nat, v: nat, w: nat, x: nat)
    ensures p * (v * w + x) == v * (p * w) + p * x
  {
    Spread(p, v * w, x);
    Swap(p, v, w);
  }

  lemma Swap(x: int, y: int, z: int)
    ensures x * (y * z) == y * (x * z)
  {
  }

  lemma Spread(x: int, y: int, z: int)
    ensures x * (y + z) == x * y + x * z
  {
  }

  lemma Times(x: int, y: int, z: int)
    requires x >= 0 && y <= z
    ensures x * y <= x * z
  {
  }

  lemma ShiftStep(m: nat, s: nat, w: nat, n: nat, q: nat)
    requires q >= 2 && m == n / q && s * w <= m < (s + 1) * w
    ensures s * (q * w) <= n < (s + 1) * (q * w)
  {
    DivMod(n, q);
    Swap(s, q, w);
    Swap(s + 1, q, w);
    Times(q, s * w, m);
    Times(q, m + 1, (s + 1) * w);
    Spread(q, m, 1);
  }

  lemma {:induction false} ShiftBounds(n: nat, q: nat, k: nat)
    requires q >= 2
    ensures Shift(n, q, k) * Pow(q, k) <= n < (Shift(n, q, k) + 1) * Pow(q, k)
    decreases k
  {
    if k > 0 {
      ShiftBounds(n / q, q, k - 1);
      ShiftStep(n / q, Shift(n / q, q, k - 1), Pow(q, k - 1), n, q);
    }
  }

  lemma {:induction false} ShiftIsTop(n: nat, q: nat, k: nat)
    requires q >= 2 && Shift(n, q, k) > 0
    ensures |FromNat(n, q)| >= k
    ensures FromNat(n, q)[k..] == FromNat(Shift(n, q, k), q)
    decreases k
  {
    if k > 0 {
      ShiftZero(q, k);
      ShiftIsTop(n / q, q, k - 1);
      assert FromNat(n, q)[k..] == FromNat(n / q, q)[k - 1..];
    }
  }

  lemma {:induction false} ShiftZero(q: nat, k: nat)
    requires q >= 2
    ensures Shift(0, q, k) == 0
    decreases k
  {
    if k > 0 {
      ShiftZero(q, k - 1);
    }
  }
}
