/**
 The 64-bit FNV-1a checksum of a checkpoint payload (section 2, "FNV Basics", of
 draft-eastlake-fnv): per byte, xor into the hash, then multiply modulo 2^64.
 */
module Checksum {
  import opened Common

  const FNV_OFFSET_BASIS: int := 14695981039346656037
  const FNV_PRIME: int := 1099511628211

  /** The inverse of the prime modulo 2^64: it exists because the prime is odd. */
  const FNV_PRIME_INVERSE: int := 14886173955864302971

  function Power2(n: nat): nat {
    if n == 0 then 1 else 2 * Power2(n - 1)
  }

  /** Bitwise exclusive or of the low `n` bits. */
  function Xor(a: nat, b: nat, n: nat): (c: nat)
    ensures c < Power2(n)
  {
    if n == 0 then 0 else 2 * Xor(a / 2, b / 2, n - 1) + (a + b) % 2
  }

  function XorByte(a: byte, b: byte): (c: byte) {
    assert Power2(8) == 4 * Power2(6) && Power2(6) == 4 * Power2(4) && Power2(4) == 4 * Power2(2);
    Xor(a, b, 8)
  }

  /** `hash ^= byte` only touches the low eight bits; `hash *= prime` wraps. */
  function Mix(hash: u64, b: byte): u64 {
    XorLow(hash, b) * FNV_PRIME % U64_LIMIT
  }

  function Hash(start: u64, data: Bytes): u64 {
    if data == [] then start else Mix(Hash(start, data[..|data| - 1]), data[|data| - 1])
  }

  function Fnv1a(data: Bytes): u64 {
    Hash(FNV_OFFSET_BASIS, data)
  }

  method Checksum(data: Bytes, begin: nat, size: nat) returns (hash: u64)
    requires begin + size <= |data|
    ensures hash == Fnv1a(data[begin..begin + size])
  {
    hash := FNV_OFFSET_BASIS;
    for i := 0 to size
      invariant hash == Fnv1a(data[begin..begin + i])
    {
      assert data[begin..begin + i + 1][..i] == data[begin..begin + i];
      hash := Mix(hash, data[begin + i]);
    }
  }

  lemma {:induction false} XorInjective(a: nat, b: nat, a': nat, b': nat, n: nat)
    requires Xor(a, b, n) == Xor(a', b', n)
    requires a == a' || b == b'
    requires a < Power2(n) && b < Power2(n) && a' < Power2(n) && b' < Power2(n)
    ensures a == a' && b == b'
  {
    if n > 0 {
      SameBit(Xor(a / 2, b / 2, n - 1), (a + b) % 2, Xor(a' / 2, b' / 2, n - 1), (a' + b') % 2);
      XorInjective(a / 2, b / 2, a' / 2, b' / 2, n - 1);
      if a == a' { SameParity(a, b, b'); } else { SameParity(b, a, a'); }
    }
  }

  lemma SameBit(high: nat, low: nat, high': nat, low': nat)
    requires low < 2 && low' < 2 && 2 * high + low == 2 * high' + low'
    ensures high == high' && low == low'
  {
  }

  lemma SameParity(a: nat, b: nat, b': nat)
    requires (a + b) % 2 == (a + b') % 2 && b / 2 == b' / 2
    ensures b == b'
  {
    assert (a + b) - (a + b') == b - b';
  }

  lemma XorByteInjective(a: byte, b: byte, a': byte, b': byte)
    requires XorByte(a, b) == XorByte(a', b')
    requires a == a' || b == b'
    ensures a == a' && b == b'
  {
    assert Power2(8) == 4 * Power2(6) && Power2(6) == 4 * Power2(4) && Power2(4) == 4 * Power2(2);
    XorInjective(a, b, a', b', 8);
  }

  /** Multiplying by the prime loses nothing: the product determines the factor. */
  lemma MultiplyInjective(x: u64, y: u64)
    requires x * FNV_PRIME % U64_LIMIT == y * FNV_PRIME % U64_LIMIT
    ensures x == y
  {
    var k := FNV_PRIME * FNV_PRIME_INVERSE / U64_LIMIT;
    assert FNV_PRIME * FNV_PRIME_INVERSE == k * U64_LIMIT + 1;
    var qx, qy := x * FNV_PRIME / U64_LIMIT, y * FNV_PRIME / U64_LIMIT;
    var r := x * FNV_PRIME % U64_LIMIT;
    assert x * FNV_PRIME == qx * U64_LIMIT + r && y * FNV_PRIME == qy * U64_LIMIT + r;
    var d := x - y;
    assert d * FNV_PRIME == (qx - qy) * U64_LIMIT;
    assert d == ((qx - qy) * FNV_PRIME_INVERSE - d * k) * U64_LIMIT;
  }

  /** The hash with `b` xored into its low byte. */
  function XorLow(hash: u64, b: byte): u64 {
    hash - hash % 256 + XorByte(hash % 256, b)
  }

  lemma XorLowInjective(h: u64, b: byte, h': u64, b': byte)
    requires XorLow(h, b) == XorLow(h', b')
    requires h == h' || b == b'
    ensures h == h' && b == b'
  {
    SameParts(h / 256, XorByte(h % 256, b), h' / 256, XorByte(h' % 256, b'));
    XorByteInjective(h % 256, b, h' % 256, b');
  }

  /** One round keeps two different hashes, or two different bytes, apart. */
  lemma MixInjective(h: u64, b: byte, h': u64, b': byte)
    requires Mix(h, b) == Mix(h', b')
    requires h == h' || b == b'
    ensures h == h' && b == b'
  {
    MultiplyInjective(XorLow(h, b), XorLow(h', b'));
    XorLowInjective(h, b, h', b');
  }

  lemma SameParts(high: nat, low: byte, high': nat, low': byte)
    requires 256 * high + low == 256 * high' + low'
    ensures high == high' && low == low'
  {
  }

  /** A difference in the hash survives every later byte. */
  lemma {:induction false} HashInjective(h: u64, h': u64, tail: Bytes)
    requires h != h'
    ensures Hash(h, tail) != Hash(h', tail)
  {
    if tail != [] {
      var front, last := tail[..|tail| - 1], tail[|tail| - 1];
      HashInjective(h, h', front);
      if Hash(h, tail) == Hash(h', tail) {
        MixInjective(Hash(h, front), last, Hash(h', front), last);
      }
    }
  }

  lemma {:induction false} HashConcat(h: u64, a: Bytes, b: Bytes)
    ensures Hash(h, a + b) == Hash(Hash(h, a), b)
  {
    if b == [] {
      assert a + b == a;
    } else {
      var front := b[..|b| - 1];
      HashConcat(h, a, front);
      assert (a + b)[..|a + b| - 1] == a + front;
    }
  }

  /** Changing any one byte changes the checksum. */
  lemma OneByteChange(data: Bytes, i: nat, b: byte)
    requires i < |data| && b != data[i]
    ensures Fnv1a(data[i := b]) != Fnv1a(data)
  {
    var before, after := data[..i], data[i + 1..];
    assert data == before + [data[i]] + after;
    assert data[i := b] == before + [b] + after;
    var h := Fnv1a(before);
    HashConcat(FNV_OFFSET_BASIS, before + [data[i]], after);
    HashConcat(FNV_OFFSET_BASIS, before + [b], after);
    HashConcat(FNV_OFFSET_BASIS, before, [data[i]]);
    HashConcat(FNV_OFFSET_BASIS, before, [b]);
    OneByteHash(h, data[i]);
    OneByteHash(h, b);
    if Mix(h, b) == Mix(h, data[i]) {
      MixInjective(h, b, h, data[i]);
    }
    HashInjective(Mix(h, b), Mix(h, data[i]), after);
  }

  lemma OneByteHash(h: u64, b: byte)
    ensures Hash(h, [b]) == Mix(h, b)
  {
    assert [b][..0] == [];
  }
}
