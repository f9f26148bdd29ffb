/** Octets and fixed-width integers as QDataStream lays them out. */
module Bytes {

  type byte = x: int | 0 <= x < 256

  /** 256 to the power w: one more than the largest unsigned integer of w octets. */
  function Pow256(w: nat): (r: nat)
    ensures 0 < r
  {
    if w == 0 then 1 else 256 * Pow256(w - 1)
  }

  lemma Pow256Values()
    ensures Pow256(1) == 0x100
    ensures Pow256(2) == 0x1_0000
    ensures Pow256(4) == 0x1_0000_0000
    ensures Pow256(8) == 0x1_0000_0000_0000_0000
  {
    assert Pow256(3) == 256 * Pow256(2);
    assert Pow256(5) == 256 * Pow256(4);
    assert Pow256(6) == 256 * Pow256(5);
    assert Pow256(7) == 256 * Pow256(6);
  }

  lemma SplitOctet(b: byte, v: nat)
    ensures (b + 256 * v) % 256 == b && (b + 256 * v) / 256 == v
  {
  }

  // ---------------------------------------------------------------- big-endian

  /** The low w octets of v, most significant first (QDataStream's default order). */
  function Big(w: nat, v: nat): (s: seq<byte>)
    ensures |s| == w
  {
    if w == 0 then [] else Big(w - 1, v / 256) + [v % 256]
  }

  function FromBig(s: seq<byte>): nat {
    if s == [] then 0 else 256 * FromBig(s[..|s| - 1]) + s[|s| - 1]
  }

  lemma {:induction false} FromBigBound(s: seq<byte>)
    ensures FromBig(s) < Pow256(|s|)
  {
    if s != [] {
      FromBigBound(s[..|s| - 1]);
    }
  }

  lemma {:induction false} BigRoundTrip(w: nat, v: nat)
    requires v < Pow256(w)
    ensures FromBig(Big(w, v)) == v
  {
    if w > 0 {
      BigRoundTrip(w - 1, v / 256);
      assert Big(w, v)[..w - 1] == Big(w - 1, v / 256);
    }
  }

  lemma {:induction false} BigOfFromBig(s: seq<byte>)
    ensures Big(|s|, FromBig(s)) == s
  {
    if s != [] {
      BigOfFromBig(s[..|s| - 1]);
      SplitOctet(s[|s| - 1], FromBig(s[..|s| - 1]));
      assert s == s[..|s| - 1] + [s[|s| - 1]];
    }
  }

  // ------------------------------------------------------------- little-endian

  /** The low w octets of v, least significant first (setByteOrder(LittleEndian)). */
  function Little(w: nat, v: nat): (s: seq<byte>)
    ensures |s| == w
  {
    if w == 0 then [] else [v % 256] + Little(w - 1, v / 256)
  }

  function FromLittle(s: seq<byte>): nat {
    if s == [] then 0 else s[0] + 256 * FromLittle(s[1..])
  }

  lemma {:induction false} FromLittleBound(s: seq<byte>)
    ensures FromLittle(s) < Pow256(|s|)
  {
    if s != [] {
      FromLittleBound(s[1..]);
    }
  }

  lemma {:induction false} LittleRoundTrip(w: nat, v: nat)
    requires v < Pow256(w)
    ensures FromLittle(Little(w, v)) == v
  {
    if w > 0 {
      LittleRoundTrip(w - 1, v / 256);
      assert Little(w, v)[1..] == Little(w - 1, v / 256);
    }
  }

  lemma {:induction false} LittleOfFromLittle(s: seq<byte>)
    ensures Little(|s|, FromLittle(s)) == s
  {
    if s != [] {
      LittleOfFromLittle(s[1..]);
      SplitOctet(s[0], FromLittle(s[1..]));
      assert s == [s[0]] + s[1..];
    }
  }

  /** Big-endian and little-endian, octet by octet. */
  lemma BigOrder(a: byte, b: byte, c: byte, d: byte)
    ensures Big(2, 0x100 * a + b) == [a, b] && Big(4, 0x100_0000 * a + 0x1_0000 * b + 0x100 * c + d) == [a, b, c, d]
  {
    hide Big, Pow256;
    BigOfFromBig([a, b]);
    BigOfFromBig([a, b, c, d]);
    assert [a][..0] == [] && [a, b][..1] == [a] && [a, b, c][..2] == [a, b] && [a, b, c, d][..3] == [a, b, c];
    assert FromBig([]) == 0;
    assert FromBig([a]) == a;
    assert FromBig([a, b]) == 0x100 * FromBig([a]) + b;
    assert FromBig([a, b, c]) == 0x100 * FromBig([a, b]) + c;
  }

  lemma LittleOrder(a: byte, b: byte, c: byte, d: byte)
    ensures Little(2, a + 0x100 * b) == [a, b]
    ensures Little(4, a + 0x100 * b + 0x1_0000 * c + 0x100_0000 * d) == [a, b, c, d]
  {
    hide Little, Pow256;
    LittleOfFromLittle([a, b]);
    LittleOfFromLittle([a, b, c, d]);
    assert [a, b][1..] == [b] && [a, b, c, d][1..] == [b, c, d] && [b, c, d][1..] == [c, d] && [c, d][1..] == [d];
    assert FromLittle([]) == 0 && [b][1..] == [] && [d][1..] == [];
    assert FromLittle([b]) == b && FromLittle([d]) == d;
    assert FromLittle([c, d]) == c + 0x100 * FromLittle([d]);
    assert FromLittle([b, c, d]) == b + 0x100 * FromLittle([c, d]);
  }

  // ---------------------------------------------------------- two's complement

  /** The w-octet two's complement image of an integer (wraps like a C++ cast). */
  function Unsigned(w: nat, i: int): (u: nat)
    ensures u < Pow256(w)
  {
    i % Pow256(w)
  }

  function Signed(w: nat, u: nat): int {
    if 2 * u < Pow256(w) then u else u - Pow256(w)
  }

  predicate FitsSigned(w: nat, i: int) {
    && 2 * i < Pow256(w)
    && 0 <= 2 * i + Pow256(w)
  }

  lemma ModSmall(i: int, m: int)
    requires 0 < m
    ensures 0 <= i < m ==> i % m == i
    ensures i < 0 <= i + m ==> i % m == i + m
  {
  }

  lemma SignedRoundTrip(w: nat, i: int)
    requires FitsSigned(w, i)
    ensures Signed(w, Unsigned(w, i)) == i
  {
    ModSmall(i, Pow256(w));
  }

  /** What is left of an integer that becomes a C++ int. */
  function Int32(i: int): int {
    Signed(4, Unsigned(4, i))
  }

  lemma Int32InRange(i: int)
    requires 0 <= i < 0x8000_0000
    ensures Int32(i) == i
  {
    Pow256Values();
    SignedRoundTrip(4, i);
  }

  // ------------------------------------------------------------ stream cursors

  function Zeros(n: nat): (z: seq<byte>)
    ensures |z| == n && forall i | 0 <= i < n :: z[i] == 0
  {
    if n == 0 then [] else [0] + Zeros(n - 1)
  }

  /** What a short or full read of w octets leaves: QDataStream yields 0 on a short read and
      has then consumed whatever was left. */
  function TakeBig(w: nat, s: seq<byte>): (r: (nat, seq<byte>)) {
    if |s| < w then (0, []) else (FromBig(s[..w]), s[w..])
  }

  function TakeLittle(w: nat, s: seq<byte>): (r: (nat, seq<byte>)) {
    if |s| < w then (0, []) else (FromLittle(s[..w]), s[w..])
  }

  lemma TakeLittleBound(w: nat, s: seq<byte>)
    ensures TakeLittle(w, s).0 < Pow256(w)
  {
    if w <= |s| {
      FromLittleBound(s[..w]);
    }
  }

  lemma TakeBigOf(w: nat, v: nat, rest: seq<byte>)
    requires v < Pow256(w)
    ensures TakeBig(w, Big(w, v) + rest) == (v, rest)
  {
    BigRoundTrip(w, v);
    assert (Big(w, v) + rest)[..w] == Big(w, v);
    assert (Big(w, v) + rest)[w..] == rest;
  }

  lemma TakeLittleOf(w: nat, v: nat, rest: seq<byte>)
    requires v < Pow256(w)
    ensures TakeLittle(w, Little(w, v) + rest) == (v, rest)
  {
    LittleRoundTrip(w, v);
    assert (Little(w, v) + rest)[..w] == Little(w, v);
    assert (Little(w, v) + rest)[w..] == rest;
  }
}
