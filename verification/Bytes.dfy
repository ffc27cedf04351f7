/** Results shared by every component. */
module Wrappers {
  datatype Option<+T> = None | Some(value: T)

  datatype Result<+T, +E> = Ok(value: T) | Err(error: E) {
    predicate IsFailure() { Err? }
    function PropagateFailure<U>(): Result<U, E>
      requires Err?
    { Err(error) }
    function Extract(): T
      requires Ok?
    { value }
  }
}

/** Fixed-width little- and big-endian integers over byte strings. */
module Bytes {
  type byte = x: int | 0 <= x < 256

  const U64_MAX: nat := 0xffff_ffff_ffff_ffff
  const U32_MAX: nat := 0xffff_ffff

  type u64 = x: nat | x <= U64_MAX
  type u32 = x: nat | x <= U32_MAX

  function Pow256(n: nat): (p: nat)
    ensures p > 0
  {
    if n == 0 then 1 else 256 * Pow256(n - 1)
  }

  lemma Pow256Values()
    ensures Pow256(0) == 1 && Pow256(1) == 0x100 && Pow256(2) == 0x1_0000
    ensures Pow256(3) == 0x100_0000 && Pow256(4) == 0x1_0000_0000
    ensures Pow256(5) == 0x100_0000_0000 && Pow256(6) == 0x1_0000_0000_0000
    ensures Pow256(7) == 0x100_0000_0000_0000 && Pow256(8) == U64_MAX + 1
  {
    assert Pow256(2) == 0x1_0000;
    assert Pow256(4) == 0x1_0000_0000;
    assert Pow256(6) == 0x1_0000_0000_0000;
  }

  lemma {:induction false} Pow256Add(a: nat, b: nat)
    ensures Pow256(a + b) == Pow256(a) * Pow256(b)
  {
    if a > 0 {
      Pow256Add(a - 1, b);
    }
  }

  lemma {:induction false} Pow256Monotone(a: nat, b: nat)
    requires a <= b
    ensures Pow256(a) <= Pow256(b)
  {
    if a < b {
      Pow256Monotone(a, b - 1);
    }
  }

  /** The low `n` bytes of `v`, least significant first (`to_le_bytes`). */
  function LE(v: nat, n: nat): (b: seq<byte>)
    ensures |b| == n
  {
    if n == 0 then [] else [v % 256] + LE(v / 256, n - 1)
  }

  /** The integer a little-endian byte string denotes (`from_le_bytes`). */
  function FromLE(b: seq<byte>): nat {
    if b == [] then 0 else b[0] + 256 * FromLE(b[1..])
  }

  lemma {:induction false} FromLEBound(b: seq<byte>)
    ensures FromLE(b) < Pow256(|b|)
  {
    if b != [] {
      FromLEBound(b[1..]);
    }
  }

  lemma {:induction false} FromLEOfLE(v: nat, n: nat)
    requires v < Pow256(n)
    ensures FromLE(LE(v, n)) == v
  {
    if n > 0 {
      FromLEOfLE(v / 256, n - 1);
      assert LE(v, n)[1..] == LE(v / 256, n - 1);
    }
  }

  lemma {:induction false} LEOfFromLE(b: seq<byte>)
    ensures LE(FromLE(b), |b|) == b
  {
    if b != [] {
      LEOfFromLE(b[1..]);
    }
  }

  lemma {:induction false} LEPrefix(v: nat, n: nat, m: nat)
    requires m <= n
    ensures LE(v, n)[..m] == LE(v, m)
  {
    if m > 0 {
      LEPrefix(v / 256, n - 1, m - 1);
      assert LE(v, n)[..m] == [v % 256] + LE(v / 256, n - 1)[..m - 1];
    }
  }

  /** Multiples of `256^n` are invisible to the low `n` bytes. */
  lemma {:induction false} LEDropsHighBytes(v: nat, k: nat, n: nat)
    ensures LE(v + k * Pow256(n), n) == LE(v, n)
  {
    if n > 0 {
      var p := Pow256(n - 1);
      assert v + k * Pow256(n) == v + 256 * (k * p);
      LEDropsHighBytes(v / 256, k, n - 1);
    }
  }

  /** `to_be_bytes`. */
  function BE(v: nat, n: nat): (b: seq<byte>)
    ensures |b| == n
  {
    if n == 0 then [] else BE(v / 256, n - 1) + [v % 256]
  }

  lemma {:induction false} BEInjective(v: nat, w: nat, n: nat)
    requires v < Pow256(n) && w < Pow256(n)
    requires BE(v, n) == BE(w, n)
    ensures v == w
  {
    if n > 0 {
      assert BE(v, n)[..n - 1] == BE(v / 256, n - 1);
      assert BE(w, n)[..n - 1] == BE(w / 256, n - 1);
      assert BE(v, n)[n - 1] == v % 256 && BE(w, n)[n - 1] == w % 256;
      BEInjective(v / 256, w / 256, n - 1);
    }
  }
}
