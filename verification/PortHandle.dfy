/** Web MIDI port handles: the 64-bit FNV-1a hash of the browser's port id. */
module PortHandle {
  import opened Bytes

  const FNV_OFFSET: int := 0xcbf2_9ce4_8422_2325
  const FNV_PRIME: int := 0x0000_0100_0000_01b3

  /** The inverse of the prime modulo 2^64. */
  const PRIME_INVERSE: int := 0xce96_5057_aff6_957b

  /** Bitwise exclusive or of natural numbers. */
  function Xor(a: nat, b: nat): nat {
    if a == 0 && b == 0 then 0 else 2 * Xor(a / 2, b / 2) + (a % 2 + b % 2) % 2
  }

  function Pow2(k: nat): nat {
    if k == 0 then 1 else 2 * Pow2(k - 1)
  }

  lemma XorZero()
    ensures Xor(0, 0) == 0
  {
  }

  lemma XorParts(a: nat, b: nat)
    ensures Xor(a, b) / 2 == Xor(a / 2, b / 2) && Xor(a, b) % 2 == (a % 2 + b % 2) % 2
  {
  }

  lemma {:induction false} XorCancels(a: nat, b: nat)
    ensures Xor(Xor(a, b), b) == a
  {
    hide Xor;
    XorParts(a, b);
    XorParts(Xor(a, b), b);
    if a == 0 && b == 0 {
      XorZero();
    } else {
      XorCancels(a / 2, b / 2);
    }
  }

  lemma {:induction false} XorCommutes(a: nat, b: nat)
    ensures Xor(a, b) == Xor(b, a)
  {
    if a != 0 || b != 0 {
      XorCommutes(a / 2, b / 2);
    }
  }

  lemma {:induction false} XorBound(a: nat, b: nat, k: nat)
    requires a < Pow2(k) && b < Pow2(k)
    ensures Xor(a, b) < Pow2(k)
    decreases k
  {
    if k == 0 {
    } else {
      XorBound(a / 2, b / 2, k - 1);
    }
  }

  lemma Pow2Plus4(k: nat)
    ensures Pow2(k + 4) == 16 * Pow2(k)
  {
    assert Pow2(k + 2) == 2 * Pow2(k + 1) == 4 * Pow2(k);
    assert Pow2(k + 4) == 2 * Pow2(k + 3) == 4 * Pow2(k + 2);
  }

  lemma Pow2Plus16(k: nat)
    ensures Pow2(k + 16) == 0x1_0000 * Pow2(k)
  {
    Pow2Plus4(k);
    Pow2Plus4(k + 4);
    Pow2Plus4(k + 8);
    Pow2Plus4(k + 12);
  }

  lemma Pow2Of64()
    ensures Pow2(64) == TWO_64
  {
    assert Pow2(0) == 1;
    hide Pow2;
    Pow2Plus16(0);
    Pow2Plus16(16);
    Pow2Plus16(32);
    Pow2Plus16(48);
  }

  /** One loop round: exclusive-or a byte in, then multiply, wrapping at 2^64. */
  function Round(hash: U64, b: Byte): U64 {
    Xor(hash, b) * FNV_PRIME % TWO_64
  }

  function Hash(hash: U64, id: seq<Byte>): U64
    decreases id
  {
    if id == [] then hash else Hash(Round(hash, id[0]), id[1..])
  }

  /** The bit of weight 2^k. */
  function Bit(n: nat, k: nat): nat {
    if k == 0 then n % 2 else Bit(n / 2, k - 1)
  }

  /** Exclusive or, bit by bit: a bit is set when it is set in one of the two and not in the other. */
  lemma {:induction false} XorBits(a: nat, b: nat, k: nat)
    ensures Bit(Xor(a, b), k) == 1 <==> Bit(a, k) != Bit(b, k)
    decreases k
  {
    XorParts(a, b);
    if k == 0 {
    } else {
      hide Xor;
      XorBits(a / 2, b / 2, k - 1);
    }
  }

  lemma Halves(n: nat, bit: nat)
    requires bit < 2
    ensures (2 * n + bit) / 2 == n && (2 * n + bit) % 2 == bit
  {
  }

  lemma XorTwice(a: nat, b: nat, x: nat, y: nat)
    requires x < 2 && y < 2
    ensures Xor(2 * a + x, 2 * b + y) == 2 * Xor(a, b) + (x + y) % 2
  {
    hide Xor;
    XorParts(2 * a + x, 2 * b + y);
    Halves(a, x);
    Halves(b, y);
  }

  function Shifted(n: nat, k: nat): nat {
    if k == 0 then n else 2 * Shifted(n, k - 1)
  }

  lemma LowBitsTwice(high: nat, low: nat, b: nat, x: nat, y: nat)
    requires Xor(high + low, b) == high + Xor(low, b) && x < 2 && y < 2
    ensures Xor(2 * high + (2 * low + x), 2 * b + y) == 2 * high + Xor(2 * low + x, 2 * b + y)
  {
    hide Xor;
    XorTwice(high + low, b, x, y);
    XorTwice(low, b, x, y);
  }

  /** Low bits touch low bits only: everything above them is carried over. */
  lemma {:induction false} XorLowBits(high: nat, low: nat, b: nat, k: nat)
    requires low < Pow2(k) && b < Pow2(k)
    ensures Xor(Shifted(high, k) + low, b) == Shifted(high, k) + Xor(low, b)
    decreases k
  {
    if k == 0 {
      XorNothing(high);
      XorZero();
    } else {
      hide Xor;
      XorLowBits(high, low / 2, b / 2, k - 1);
      LowBitsTwice(Shifted(high, k - 1), low / 2, b / 2, low % 2, b % 2);
    }
  }

  lemma {:induction false} XorNothing(a: nat)
    ensures Xor(a, 0) == a
  {
    if a == 0 {
    } else {
      XorNothing(a / 2);
    }
  }

  lemma {:induction false} ShiftedIs(n: nat, k: nat)
    ensures Shifted(n, k) == Pow2(k) * n
  {
    if k == 0 {
    } else {
      ShiftedIs(n, k - 1);
      assert 2 * (Pow2(k - 1) * n) == 2 * Pow2(k - 1) * n;
    }
  }

  lemma Pow2Of8()
    ensures Pow2(8) == 256
  {
    assert Pow2(0) == 1;
    hide Pow2;
    Pow2Plus4(0);
    Pow2Plus4(4);
  }

  lemma XorByte(hash: nat, b: Byte)
    ensures Xor(hash, b) == hash / 256 * 256 + Xor(hash % 256, b) && Xor(hash % 256, b) < 256
  {
    hide Xor, Pow2, Shifted;
    Pow2Of8();
    ShiftedIs(hash / 256, 8);
    XorLowBits(hash / 256, hash % 256, b, 8);
    XorBound(hash % 256, b, 8);
  }

  lemma XorsOfA()
    ensures Xor(0x25, 0x61) == 0x44
  {
    assert Xor(0x0, 0x1) == 0x1 && Xor(0x2, 0x6) == 0x4 && Xor(0x9, 0x18) == 0x11;
  }

  lemma XorsOfFoo()
    ensures Xor(0x25, 0x66) == 0x43 && Xor(0xd9, 0x6f) == 0xb6 && Xor(0x42, 0x6f) == 0x2d
  {
    assert Xor(0x0, 0x1) == 0x1 && Xor(0x2, 0x6) == 0x4 && Xor(0x9, 0x19) == 0x10;
    assert Xor(0x3, 0x1) == 0x2 && Xor(0xd, 0x6) == 0xb && Xor(0x36, 0x1b) == 0x2d;
    assert Xor(0x1, 0x1) == 0x0 && Xor(0x4, 0x6) == 0x2 && Xor(0x10, 0x1b) == 0xb;
  }

  lemma XorsOfBar()
    ensures Xor(0x77, 0x62) == 0x15 && Xor(0xaf, 0x61) == 0xce && Xor(0x0a, 0x72) == 0x78
  {
    assert Xor(0x1, 0x1) == 0x0 && Xor(0x7, 0x6) == 0x1 && Xor(0x1d, 0x18) == 0x5;
    assert Xor(0x2, 0x1) == 0x3 && Xor(0xa, 0x6) == 0xc && Xor(0x2b, 0x18) == 0x33;
    assert Xor(0x0, 0x1) == 0x1 && Xor(0x0, 0x7) == 0x7 && Xor(0x2, 0x1c) == 0x1e;
  }

  /** One round at byte k, given what becomes of the low byte. */
  lemma HashStep(hash: U64, id: seq<Byte>, k: nat, mixed: U64, next: U64)
    requires k < |id|
    requires mixed / 256 == hash / 256 && mixed % 256 == Xor(hash % 256, id[k])
    requires next == mixed * FNV_PRIME % TWO_64
    ensures Hash(hash, id[k..]) == Hash(next, id[k + 1..])
  {
    hide Xor;
    XorByte(hash, id[k]);
    assert id[k..][1..] == id[k + 1..];
  }

  lemma HashOfA(id: seq<Byte>)
    requires id == [0x61]
    ensures Hash(FNV_OFFSET, id) == 0xaf63_dc4c_8601_ec8c
  {
    hide Xor, Hash;
    XorsOfA();
    HashStep(FNV_OFFSET, id, 0, 0xcbf2_9ce4_8422_2344, 0xaf63_dc4c_8601_ec8c);
    HashNothing(0xaf63_dc4c_8601_ec8c);
    assert id[0..] == id && id[1..] == [];
  }

  lemma HashOfFoo(id: seq<Byte>)
    requires |id| == 6 && id[..3] == [0x66, 0x6f, 0x6f]
    ensures Hash(FNV_OFFSET, id[0..]) == Hash(0xdcb2_7518_fed9_d577, id[3..])
  {
    hide Xor, Hash;
    XorsOfFoo();
    assert id[0] == id[..3][0] && id[1] == id[..3][1] && id[2] == id[..3][2];
    HashStep(0xcbf2_9ce4_8422_2325, id, 0, 0xcbf2_9ce4_8422_2343, 0xaf63_db4c_8601_ead9);
    HashStep(0xaf63_db4c_8601_ead9, id, 1, 0xaf63_db4c_8601_eab6, 0x0898_5907_b541_d342);
    HashStep(0x0898_5907_b541_d342, id, 2, 0x0898_5907_b541_d32d, 0xdcb2_7518_fed9_d577);
  }

  lemma HashOfBar(id: seq<Byte>)
    requires |id| == 6 && id[3..] == [0x62, 0x61, 0x72]
    ensures Hash(0xdcb2_7518_fed9_d577, id[3..]) == Hash(0x8594_4171_f739_67e8, [])
  {
    hide Xor, Hash;
    XorsOfBar();
    assert id[3] == id[3..][0] && id[4] == id[3..][1] && id[5] == id[3..][2];
    HashStep(0xdcb2_7518_fed9_d577, id, 3, 0xdcb2_7518_fed9_d515, 0xdd12_0e79_0c25_12af);
    HashStep(0xdd12_0e79_0c25_12af, id, 4, 0xdd12_0e79_0c25_12ce, 0xcac1_65af_a2fe_f40a);
    HashStep(0xcac1_65af_a2fe_f40a, id, 5, 0xcac1_65af_a2fe_f478, 0x8594_4171_f739_67e8);
    assert id[6..] == [];
  }

  lemma HashOfFoobar(id: seq<Byte>)
    requires id == [0x66, 0x6f, 0x6f, 0x62, 0x61, 0x72]
    ensures Hash(FNV_OFFSET, id) == 0x8594_4171_f739_67e8
  {
    hide Xor, Hash;
    HashOfFoo(id);
    HashOfBar(id);
    HashNothing(0x8594_4171_f739_67e8);
    assert id[0..] == id;
  }

  /** The published FNV-1a values of the empty id, of "a" and of "foobar". */
  lemma PublishedHandles(id: seq<Byte>)
    ensures id == [] ==> Hash(FNV_OFFSET, id) == 0xcbf2_9ce4_8422_2325
    ensures id == [0x61] ==> Hash(FNV_OFFSET, id) == 0xaf63_dc4c_8601_ec8c
    ensures id == [0x66, 0x6f, 0x6f, 0x62, 0x61, 0x72] ==> Hash(FNV_OFFSET, id) == 0x8594_4171_f739_67e8
  {
    hide Hash;
    HashNothing(FNV_OFFSET);
    if id == [0x61] {
      HashOfA(id);
    } else if id == [0x66, 0x6f, 0x6f, 0x62, 0x61, 0x72] {
      HashOfFoobar(id);
    }
  }

  lemma HashNothing(hash: U64)
    ensures Hash(hash, []) == hash
  {
  }

  /** The handle of a port id. */
  method ComputeHandle(id: seq<Byte>) returns (hash: U64)
    ensures hash == Hash(FNV_OFFSET, id)
    ensures id == [] ==> hash == 0xcbf2_9ce4_8422_2325
    ensures id == [0x61] ==> hash == 0xaf63_dc4c_8601_ec8c // "a"
    ensures id == [0x66, 0x6f, 0x6f, 0x62, 0x61, 0x72] ==> hash == 0x8594_4171_f739_67e8 // "foobar"
  {
    PublishedHandles(id);
    hash := FNV_OFFSET;
    var i := 0;
    while i < |id|
      invariant 0 <= i <= |id|
      invariant Hash(hash, id[i..]) == Hash(FNV_OFFSET, id)
    {
      assert id[i..][1..] == id[i + 1..];
      var mixed := Xor(hash, id[i]);
      hash := mixed * FNV_PRIME % TWO_64;
      i := i + 1;
    }
  }

  /** Multiplying by the odd prime loses nothing: the inverse undoes it. */
  lemma PrimeInvertible(x: int)
    requires 0 <= x < TWO_64
    ensures (x * FNV_PRIME % TWO_64) * PRIME_INVERSE % TWO_64 == x
  {
    var q := x * FNV_PRIME / TWO_64;
    var k := FNV_PRIME * PRIME_INVERSE / TWO_64;
    assert FNV_PRIME * PRIME_INVERSE == k * TWO_64 + 1;
    assert (x * FNV_PRIME % TWO_64) * PRIME_INVERSE == (x * k - q * PRIME_INVERSE) * TWO_64 + x;
  }

  lemma XorInRange(hash: U64, b: Byte)
    ensures Xor(hash, b) < TWO_64
  {
    Pow2Of64();
    XorBound(hash, b, 64);
  }

  /** A round can be undone, given either of its inputs: it is a bijection on the hash, and on the byte. */
  lemma RoundInjective(h1: U64, b1: Byte, h2: U64, b2: Byte)
    requires Round(h1, b1) == Round(h2, b2)
    ensures b1 == b2 <==> h1 == h2
  {
    XorInRange(h1, b1);
    XorInRange(h2, b2);
    PrimeInvertible(Xor(h1, b1));
    PrimeInvertible(Xor(h2, b2));
    if b1 == b2 {
      XorCancels(h1, b1);
      XorCancels(h2, b2);
    }
    if h1 == h2 {
      XorCommutes(h1, b1);
      XorCommutes(h2, b2);
      XorCancels(b1, h1);
      XorCancels(b2, h2);
    }
  }

  /** Reading the same bytes keeps different hashes different. */
  lemma {:induction false} SameTail(h1: U64, h2: U64, tail: seq<Byte>)
    ensures Hash(h1, tail) == Hash(h2, tail) <==> h1 == h2
    decreases tail
  {
    if tail == [] {
    } else {
      SameTail(Round(h1, tail[0]), Round(h2, tail[0]), tail[1..]);
      if Round(h1, tail[0]) == Round(h2, tail[0]) {
        RoundInjective(h1, tail[0], h2, tail[0]);
      }
    }
  }

  lemma {:induction false} HashConcat(hash: U64, p: seq<Byte>, q: seq<Byte>)
    ensures Hash(hash, p + q) == Hash(Hash(hash, p), q)
    decreases p
  {
    if p == [] {
      assert p + q == q;
    } else {
      assert (p + q)[1..] == p[1..] + q;
      HashConcat(Round(hash, p[0]), p[1..], q);
    }
  }

  /** Ids that end alike collide exactly when what comes before collides already. */
  lemma CommonSuffix(p: seq<Byte>, q: seq<Byte>, tail: seq<Byte>)
    ensures Hash(FNV_OFFSET, p + tail) == Hash(FNV_OFFSET, q + tail) <==> Hash(FNV_OFFSET, p) == Hash(FNV_OFFSET, q)
  {
    HashConcat(FNV_OFFSET, p, tail);
    HashConcat(FNV_OFFSET, q, tail);
    SameTail(Hash(FNV_OFFSET, p), Hash(FNV_OFFSET, q), tail);
  }

  /**
    The last byte: the inverse prime undoes the last multiplication, and what is left differs from the handle of the id
    without that byte in the low byte only, by exclusive or with it.
    */
  lemma LastByte(p: seq<Byte>, b: Byte)
    ensures var before, mixed := Hash(FNV_OFFSET, p), PRIME_INVERSE * Hash(FNV_OFFSET, p + [b]) % TWO_64;
            && mixed / 256 == before / 256
            && forall k :: Bit(mixed % 256, k) == 1 <==> Bit(before % 256, k) != Bit(b, k)
  {
    hide Bit, Xor;
    var h := Hash(FNV_OFFSET, p);
    HashConcat(FNV_OFFSET, p, [b]);
    assert Hash(h, [b]) == Round(h, b);
    XorInRange(h, b);
    PrimeInvertible(Xor(h, b));
    XorByte(h, b);
    forall k
      ensures Bit(Xor(h % 256, b), k) == 1 <==> Bit(h % 256, k) != Bit(b, k)
    {
      XorBits(h % 256, b, k);
    }
  }

  /** Ids of equal length that differ in exactly one byte never have the same handle. */
  lemma OneByteApart(id1: seq<Byte>, id2: seq<Byte>, k: nat)
    requires |id1| == |id2| && k < |id1|
    requires id1[k] != id2[k]
    requires forall i | 0 <= i < |id1| && i != k :: id1[i] == id2[i]
    ensures Hash(FNV_OFFSET, id1) != Hash(FNV_OFFSET, id2)
  {
    var head, tail := id1[..k], id1[k + 1..];
    assert id1 == head + [id1[k]] + tail;
    assert id2 == head + [id2[k]] + tail;
    CommonSuffix(head + [id1[k]], head + [id2[k]], tail);
    HashConcat(FNV_OFFSET, head, [id1[k]]);
    HashConcat(FNV_OFFSET, head, [id2[k]]);
    var h := Hash(FNV_OFFSET, head);
    assert Hash(h, [id1[k]]) == Round(h, id1[k]) && Hash(h, [id2[k]]) == Round(h, id2[k]);
    if Round(h, id1[k]) == Round(h, id2[k]) {
      RoundInjective(h, id1[k], h, id2[k]);
    }
  }
}
