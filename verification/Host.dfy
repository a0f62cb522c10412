/** The Soroban host as the contracts see it: addresses, machine integers, results that
    revert, per-caller nonces, and sums over storage maps. */
module Host {

  datatype Option<+T> = None | Some(value: T)

  datatype Result<+T, +E> = Ok(value: T) | Err(error: E)

  datatype Address = Address(key: nat)

  type Symbol = string
  type Hash = seq<nat>

  predicate AllZero(h: Hash) {
    forall i :: 0 <= i < |h| ==> h[i] == 0
  }

  // ----- machine integers -----

  const I128_MAX: int := 0x7FFF_FFFF_FFFF_FFFF_FFFF_FFFF_FFFF_FFFF
  const I128_MIN: int := -0x8000_0000_0000_0000_0000_0000_0000_0000
  const U64_MAX: int := 0xFFFF_FFFF_FFFF_FFFF
  const U32_MAX: int := 0xFFFF_FFFF

  predicate Fits(x: int) {
    I128_MIN <= x <= I128_MAX
  }

  function Saturate(x: int): int {
    if x > I128_MAX then I128_MAX else if x < I128_MIN then I128_MIN else x
  }

  function SaturatingAddU64(a: nat, b: nat): (r: nat)
    ensures r <= U64_MAX || r == a
  {
    if a + b > U64_MAX then if a > U64_MAX then a else U64_MAX else a + b
  }

  /** Rust's `/` on signed integers: truncation toward zero. */
  function TruncDiv(a: int, b: int): int
    requires b > 0
  {
    if a >= 0 then a / b else -((-a) / b)
  }

  // ----- atomic calls -----

  /** A contract call is atomic: when its transition yields Ok the new storage is committed
      and the value returned; when it yields Err every write is rolled back. */
  ghost predicate Settles<S, V, E>(transition: Result<(S, V), E>, before: S, after: S, r: Result<V, E>) {
    match transition
    case Ok((s, v)) => after == s && r == Ok(v)
    case Err(e) => after == before && r == Err(e)
  }

  /** The storage a call leaves. */
  function Committed<S, V, E>(s: S, r: Result<(S, V), E>): S {
    if r.Ok? then r.value.0 else s
  }

  // ----- nonces -----

  type Nonces = map<Address, nat>

  function NonceOf(n: Nonces, a: Address): nat {
    if a in n then n[a] else 0
  }

  /** Replay protection: the supplied nonce must be the stored one, which then moves up by one. */
  function UseNonce<E>(n: Nonces, a: Address, nonce: nat, invalid: E, trap: E): Result<Nonces, E> {
    if nonce != NonceOf(n, a) then Err(invalid)
    else if nonce >= U64_MAX then Err(trap)
    else Ok(n[a := nonce + 1])
  }

  /** The nonce a call must carry: the stored one, with room for its successor in u64. */
  predicate GoodNonce(n: Nonces, a: Address, nonce: nat) {
    nonce == NonceOf(n, a) && nonce < 0xFFFF_FFFF_FFFF_FFFF
  }

  /** An accepted call moves its caller's nonce up by one and nobody else's. */
  ghost predicate SpendsNonce(before: Nonces, after: Nonces, caller: Address) {
    forall a :: NonceOf(after, a) == NonceOf(before, a) + if a == caller then 1 else 0
  }

  lemma NonceRule<E>(n: Nonces, a: Address, nonce: nat, invalid: E, trap: E)
    ensures UseNonce(n, a, nonce, invalid, trap).Ok? <==> GoodNonce(n, a, nonce)
    ensures UseNonce(n, a, nonce, invalid, trap).Ok? ==> SpendsNonce(n, UseNonce(n, a, nonce, invalid, trap).value, a)
  {
  }

  // ----- integer-valued storage maps; an absent entry reads as zero -----

  function Get<K>(m: map<K, int>, k: K): int {
    if k in m then m[k] else 0
  }

  /** An index list; an absent entry reads as empty. */
  function ListAt<K>(m: map<K, seq<nat>>, k: K): seq<nat> {
    if k in m then m[k] else []
  }

  predicate NonNegative<K>(m: map<K, int>) {
    forall k :: k in m ==> m[k] >= 0
  }

  /** Pointwise addition of two maps. */
  function Add<K>(m: map<K, int>, d: map<K, int>): map<K, int> {
    map k | k in m.Keys + d.Keys :: Get(m, k) + Get(d, k)
  }

  /** The sum of all values. */
  ghost function Sum<K>(m: map<K, int>): int
    decreases |m|
  {
    if m == map[] then 0
    else
      var k :| k in m;
      m[k] + Sum(m - {k})
  }

  lemma {:induction false} SumRemove<K>(m: map<K, int>, k: K)
    requires k in m
    ensures Sum(m) == m[k] + Sum(m - {k})
    decreases |m|
  {
    var j :| j in m && Sum(m) == m[j] + Sum(m - {j});
    if j != k {
      SumRemove(m - {j}, k);
      SumRemove(m - {k}, j);
      assert m - {j} - {k} == m - {k} - {j};
    }
  }

  lemma SumUpdate<K>(m: map<K, int>, k: K, v: int)
    ensures Sum(m[k := v]) == Sum(m) - Get(m, k) + v
  {
    SumRemove(m[k := v], k);
    assert m[k := v] - {k} == m - {k};
    if k in m {
      SumRemove(m, k);
    } else {
      assert m - {k} == m;
    }
  }

  /** Adding one more entry to the addend. */
  lemma AddOne<K>(m: map<K, int>, d: map<K, int>, k: K, v: int)
    requires k !in d
    ensures Add(m, d[k := v]) == Add(m, d)[k := Get(m, k) + v]
    ensures Get(Add(m, d), k) == Get(m, k)
  {
  }

  lemma SumAddOne<K>(m: map<K, int>, d: map<K, int>, k: K, v: int)
    requires k !in d
    ensures Sum(Add(m, d[k := v])) == Sum(Add(m, d)) + v
  {
    AddOne(m, d, k, v);
    SumUpdate(Add(m, d), k, Get(m, k) + v);
  }

  lemma {:induction false} SumAdd<K>(m: map<K, int>, d: map<K, int>)
    ensures Sum(Add(m, d)) == Sum(m) + Sum(d)
    decreases |d|
  {
    if d == map[] {
      assert Add(m, d) == m;
    } else {
      var k :| k in d;
      var e := d - {k};
      assert e[k := d[k]] == d;
      SumRemove(d, k);
      SumAdd(m, e);
      SumAddOne(m, e, k, d[k]);
    }
  }

  lemma {:induction false} SumNonNegative<K>(m: map<K, int>)
    requires NonNegative(m)
    ensures Sum(m) >= 0
    ensures forall k :: k in m ==> m[k] <= Sum(m)
    decreases |m|
  {
    forall k | k in m
      ensures m[k] <= Sum(m)
    {
      SumRemove(m, k);
      SumNonNegative(m - {k});
    }
    if m != map[] {
      var k :| k in m;
      assert 0 <= m[k] <= Sum(m);
    }
  }

  function NonZero<K>(m: map<K, int>): map<K, int> {
    map k | k in m && m[k] != 0 :: m[k]
  }

  /** Zero entries do not count. */
  lemma {:induction false} SumNonZero<K>(m: map<K, int>)
    ensures Sum(m) == Sum(NonZero(m))
    decreases |m|
  {
    if m == map[] {
      assert NonZero(m) == map[];
    } else {
      var k :| k in m;
      SumRemove(m, k);
      SumNonZero(m - {k});
      NonZeroRemove(m, k);
      hide NonZero;
      if m[k] != 0 {
        SumRemove(NonZero(m), k);
      }
    }
  }

  lemma NonZeroRemove<K>(m: map<K, int>, k: K)
    requires k in m
    ensures m[k] != 0 ==> k in NonZero(m) && NonZero(m)[k] == m[k] && NonZero(m) - {k} == NonZero(m - {k})
    ensures m[k] == 0 ==> NonZero(m) == NonZero(m - {k})
  {
    if m[k] != 0 {
      assert NonZero(m) - {k} == NonZero(m - {k});
    } else {
      assert NonZero(m) == NonZero(m - {k});
    }
  }

  /** Maps with the same readings have the same sum. */
  lemma SumByReadings<K(!new)>(m: map<K, int>, n: map<K, int>)
    requires forall k :: Get(m, k) == Get(n, k)
    ensures Sum(m) == Sum(n)
  {
    SumNonZero(m);
    SumNonZero(n);
    assert NonZero(m) == NonZero(n) by {
      forall k
        ensures k in NonZero(m) <==> k in NonZero(n)
        ensures k in NonZero(m) ==> NonZero(m)[k] == NonZero(n)[k]
      {
        assert Get(m, k) == Get(n, k);
      }
    }
  }
}
