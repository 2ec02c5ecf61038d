/** Bytes and the big-endian integers that both ends of the wire use. */
module Bytes {

  type Byte = b: int | 0 <= b < 256

  const TWO_16 := 0x1_0000
  const TWO_31 := 0x8000_0000
  const TWO_32 := 0x1_0000_0000
  const TWO_64 := 0x1_0000_0000_0000_0000

  type Word64 = n: int | 0 <= n < TWO_64

  /** The body of a frame, as the server handles it. */
  type Packet = seq<Byte>

  function Pow256(width: nat): (p: nat)
    ensures p > 0
  {
    if width == 0 then 1 else 256 * Pow256(width - 1)
  }

  lemma Pow256Values()
    ensures Pow256(2) == TWO_16 && Pow256(4) == TWO_32 && Pow256(8) == TWO_64
  {
    assert Pow256(2) == TWO_16;
    assert Pow256(4) == 256 * (256 * Pow256(2));
    assert Pow256(6) == 256 * (256 * Pow256(4));
    assert Pow256(8) == 256 * (256 * Pow256(6));
  }

  /** The `width` bytes of `v`, most significant first. */
  function BigEndian(width: nat, v: nat): (s: seq<Byte>)
    requires v < Pow256(width)
    ensures |s| == width
  {
    if width == 0 then [] else BigEndian(width - 1, v / 256) + [v % 256]
  }

  /** The number a big-endian byte string stands for. */
  function FromBigEndian(s: seq<Byte>): (v: nat)
    ensures v < Pow256(|s|)
  {
    if s == [] then 0 else FromBigEndian(s[..|s| - 1]) * 256 + s[|s| - 1]
  }

  lemma {:induction false} DecodeEncode(width: nat, v: nat)
    requires v < Pow256(width)
    ensures FromBigEndian(BigEndian(width, v)) == v
  {
    if width > 0 {
      DecodeEncode(width - 1, v / 256);
      var s := BigEndian(width, v);
      assert s[..|s| - 1] == BigEndian(width - 1, v / 256);
    }
  }

  lemma {:induction false} EncodeDecode(s: seq<Byte>)
    ensures BigEndian(|s|, FromBigEndian(s)) == s
  {
    if s != [] {
      EncodeDecode(s[..|s| - 1]);
      var v := FromBigEndian(s);
      assert v / 256 == FromBigEndian(s[..|s| - 1]) && v % 256 == s[|s| - 1];
      assert s == s[..|s| - 1] + [s[|s| - 1]];
    }
  }

  // ---- The order of the bytes --------------------------------------------------------------------

  lemma {:induction false} Times(a: nat, b: nat, d: nat)
    requires a < b
    ensures a * d + d <= b * d
    decreases b
  {
    assert b * d == (b - 1) * d + d;
    if a < b - 1 {
      Times(a, b - 1, d);
    }
  }

  lemma QuotientIs(n: nat, d: nat, q: nat, r: nat)
    requires d > 0 && r < d && n == q * d + r
    ensures n / d == q
  {
    var k, m := n / d, n % d;
    assert n == k * d + m && m < d;
    if k < q {
      Times(k, q, d);
    } else if q < k {
      Times(q, k, d);
    }
  }

  /** Dividing twice is dividing once. */
  lemma DivideTwice(v: nat, p: nat)
    requires p > 0
    ensures v / 256 / p == v / (256 * p)
  {
    var w, u := v / 256, v % 256;
    var q, t := w / p, w % p;
    assert w == q * p + t;
    assert q * (256 * p) == 256 * (q * p);
    QuotientIs(v, 256 * p, q, 256 * t + u);
  }

  /** Position `i` holds the digit of weight 256 to the power `width - 1 - i`: the most significant byte comes first. */
  lemma {:induction false} BigEndianAt(width: nat, v: nat, i: nat)
    requires v < Pow256(width) && i < width
    ensures BigEndian(width, v)[i] == v / Pow256(width - 1 - i) % 256
  {
    var front := BigEndian(width - 1, v / 256);
    assert BigEndian(width, v) == front + [v % 256];
    if i < width - 1 {
      BigEndianAt(width - 1, v / 256, i);
      DivideTwice(v, Pow256(width - 2 - i));
      assert Pow256(width - 1 - i) == 256 * Pow256(width - 2 - i);
    } else {
      assert Pow256(0) == 1;
    }
  }

  lemma Regroup(b: nat, p: nat)
    ensures b * p * 256 == b * (256 * p)
  {
  }

  /** The first byte is the one of greatest weight. */
  lemma {:induction false} FromBigEndianFirst(b: Byte, s: seq<Byte>)
    ensures FromBigEndian([b] + s) == b * Pow256(|s|) + FromBigEndian(s)
  {
    if s == [] {
      assert [b] + s == [b] && [b][..0] == [];
    } else {
      var k := |s| - 1;
      FromBigEndianFirst(b, s[..k]);
      assert ([b] + s)[..k + 1] == [b] + s[..k];
      assert FromBigEndian([b] + s) == FromBigEndian([b] + s[..k]) * 256 + s[k];
      Regroup(b, Pow256(k));
    }
  }

  /** Two bytes of a 16-bit number; the caller's value is already cut to 16 bits. */
  function U16(v: nat): (s: seq<Byte>)
    requires v < TWO_16
    ensures |s| == 2 && FromBigEndian(s) == v
  {
    Pow256Values();
    DecodeEncode(2, v);
    BigEndian(2, v)
  }

  function U32(v: nat): (s: seq<Byte>)
    requires v < TWO_32
    ensures |s| == 4 && FromBigEndian(s) == v
  {
    Pow256Values();
    DecodeEncode(4, v);
    BigEndian(4, v)
  }

  function U64(v: Word64): (s: seq<Byte>)
    ensures |s| == 8 && FromBigEndian(s) == v
  {
    Pow256Values();
    DecodeEncode(8, v);
    BigEndian(8, v)
  }

  lemma FixedWidths(s: seq<Byte>)
    ensures |s| == 2 ==> FromBigEndian(s) < TWO_16 && U16(FromBigEndian(s)) == s
    ensures |s| == 4 ==> FromBigEndian(s) < TWO_32 && U32(FromBigEndian(s)) == s
    ensures |s| == 8 ==> FromBigEndian(s) < TWO_64 && U64(FromBigEndian(s)) == s
  {
    Pow256Values();
    EncodeDecode(s);
  }

  lemma LittlePowers()
    ensures Pow256(0) == 1 && Pow256(1) == 256 && Pow256(2) == TWO_16 && Pow256(3) == 0x100_0000
  {
    assert Pow256(1) == 256 * Pow256(0);
    assert Pow256(2) == 256 * Pow256(1);
    assert Pow256(3) == 256 * Pow256(2);
  }

  /** The widths on the wire, byte by byte: what `htons`, `htonl` and `htobe64` leave in memory. */
  lemma NetworkShort(v: nat)
    requires v < TWO_16
    ensures U16(v) == [v / 256, v % 256]
  {
    hide BigEndian;
    Pow256Values();
    LittlePowers();
    BigEndianAt(2, v, 0);
    BigEndianAt(2, v, 1);
  }

  lemma NetworkLong(v: nat)
    requires v < TWO_32
    ensures U32(v) == [v / 0x100_0000, v / TWO_16 % 256, v / 256 % 256, v % 256]
  {
    hide BigEndian, Pow256;
    Pow256Values();
    LittlePowers();
    BigEndianAt(4, v, 0);
    BigEndianAt(4, v, 1);
    BigEndianAt(4, v, 2);
    BigEndianAt(4, v, 3);
  }

  lemma NetworkQuad(v: Word64, i: nat)
    requires i < 8
    ensures U64(v)[i] == v / Pow256(7 - i) % 256
  {
    hide BigEndian;
    Pow256Values();
    BigEndianAt(8, v, i);
  }
}
