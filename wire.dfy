/**
 * Fixed-width big-endian integers, the primitives every packet field is
 * written with. A field of width n holds the n low-order bytes of the value,
 * so a negative value is written in two's complement and a value too wide
 * for the field wraps around.
 */
module Wire {

  type Byte = b: int | 0 <= b < 256

  function Pow256(n: nat): (p: nat)
    ensures p >= 1
  {
    if n == 0 then 1 else 256 * Pow256(n - 1)
  }

  /** The n low-order bytes of v, most significant first. */
  function WriteBE(v: int, n: nat): (r: seq<Byte>)
    ensures |r| == n
    decreases n
  {
    if n == 0 then [] else WriteBE(v / 256, n - 1) + [v % 256]
  }

  /** The unsigned value of a big-endian byte string. */
  function ReadBE(s: seq<Byte>): (v: nat)
    ensures v < Pow256(|s|)
  {
    if s == [] then 0
    else
      var hi := ReadBE(s[..|s| - 1]);
      assert hi * 256 + s[|s| - 1] < Pow256(|s|) by {
        assert hi <= Pow256(|s| - 1) - 1;
        assert hi * 256 <= Pow256(|s| - 1) * 256 - 256;
      }
      hi * 256 + s[|s| - 1]
  }

  /** The two's-complement value of a big-endian byte string. */
  function ReadSigned(s: seq<Byte>): (v: int)
    ensures -(Pow256(|s|) as int) <= 2 * v < Pow256(|s|)
  {
    var u := ReadBE(s);
    if 2 * u >= Pow256(|s|) then u - Pow256(|s|) else u
  }

  /** Quotient and remainder are the unique pair with 0 <= r < m. */
  lemma DivModUnique(v: int, m: int, q: int, r: int)
    requires m > 0 && 0 <= r < m && v == m * q + r
    ensures v / m == q && v % m == r
  {
    var q0, r0 := v / m, v % m;
    assert v == m * q0 + r0;
    var d := q - q0;
    assert m * d == r0 - r by {
      assert m * q - m * q0 == m * d;
    }
    if d >= 1 {
      MulAtLeast(m, d);
    } else if d <= -1 {
      MulAtMost(m, d);
    }
  }

  lemma MulAtLeast(m: int, d: int)
    requires m > 0 && d >= 1
    ensures m * d >= m
  {
    assert m * d == m * (d - 1) + m;
  }

  lemma MulAtMost(m: int, d: int)
    requires m > 0 && d <= -1
    ensures m * d <= -m
  {
    assert m * d == m * (d + 1) - m;
  }

  /** Splitting off the last byte: v modulo 256 * p from v / 256 modulo p. */
  lemma ModByteSplit(v: int, p: nat)
    requires p >= 1
    ensures v % (256 * p) == (v / 256) % p * 256 + v % 256
  {
    var q, b, r := (v / 256) / p, (v / 256) % p, v % 256;
    assert v / 256 == p * q + b;
    assert v == 256 * (v / 256) + r;
    assert v == (256 * p) * q + (256 * b + r) by {
      assert 256 * (p * q + b) == (256 * p) * q + 256 * b;
    }
    assert 256 * b <= 256 * p - 256 by {
      assert b <= p - 1;
    }
    DivModUnique(v, 256 * p, q, 256 * b + r);
  }

  /** Reading back what WriteBE wrote gives the value modulo the field's range. */
  lemma {:induction false} ReadWriteBE(v: int, n: nat)
    ensures ReadBE(WriteBE(v, n)) == v % Pow256(n)
    decreases n
  {
    if n == 0 {
      DivModUnique(v, 1, v, 0);
    } else {
      var w := WriteBE(v / 256, n - 1);
      var s := w + [v % 256];
      assert s[..|s| - 1] == w;
      ReadWriteBE(v / 256, n - 1);
      ModByteSplit(v, Pow256(n - 1));
    }
  }

  /**
   * Binary::readInt: four bytes as a big-endian signed 32-bit integer,
   * written out without recursion.
   */
  function ReadInt(s: seq<Byte>): (r: int)
    requires |s| == 4
    ensures -0x8000_0000 <= r < 0x8000_0000
  {
    var u: int := ((s[0] as int * 256 + s[1]) * 256 + s[2]) * 256 + s[3];
    if u >= 0x8000_0000 then u - 0x1_0000_0000 else u
  }

  /** readInt is the two's-complement reading of its four bytes. */
  lemma ReadIntSigned(s: seq<Byte>)
    requires |s| == 4
    ensures ReadInt(s) == ReadSigned(s)
  {
    assert s[..3][..2] == s[..2] && s[..2][..1] == s[..1] && s[..1][..0] == [];
    assert ReadBE(s[..1]) == s[0];
    assert ReadBE(s[..2]) == s[0] as int * 256 + s[1];
    assert ReadBE(s[..3]) == (s[0] as int * 256 + s[1]) * 256 + s[2];
    assert Pow256(4) == 0x1_0000_0000;
  }

  /** A value that fits in n bytes as a signed integer reads back unchanged. */
  lemma ReadSignedWriteBE(v: int, n: nat)
    requires -(Pow256(n) as int) <= 2 * v < Pow256(n)
    ensures ReadSigned(WriteBE(v, n)) == v
  {
    ReadWriteBE(v, n);
    var p := Pow256(n);
    if v >= 0 {
      DivModUnique(v, p, 0, v);
    } else {
      DivModUnique(v, p, -1, v + p);
    }
  }

  /** A value that fits in n bytes as an unsigned integer reads back unchanged. */
  lemma ReadUnsignedWriteBE(v: int, n: nat)
    requires 0 <= v < Pow256(n)
    ensures ReadBE(WriteBE(v, n)) == v
  {
    ReadWriteBE(v, n);
    DivModUnique(v, Pow256(n), 0, v);
  }

  /** Regrouping appends to a buffer. */
  lemma AppendAssoc<T>(r: seq<T>, a: seq<T>, b: seq<T>)
    ensures r + a + b == r + (a + b)
  {
  }

  /** A slice of a suffix is a slice of the whole. */
  lemma SliceOfSuffix(s: seq<Byte>, a: nat, b: nat, c: nat)
    requires b <= c && a + c <= |s|
    ensures s[a..][b..c] == s[a + b..a + c]
  {
  }

  /**
   * PHP's substr($s, $start, $length) for a start and a length that are not
   * negative: the part of s that exists from start on, at most length bytes.
   */
  function Substr(s: seq<Byte>, start: nat, length: nat): (r: seq<Byte>)
    ensures |r| <= length
    ensures start + length <= |s| ==> r == s[start..start + length]
    ensures start + length > |s| ==> |r| == if start <= |s| then |s| - start else 0
  {
    var from := if start <= |s| then start else |s|;
    var to := if start + length <= |s| then start + length else |s|;
    s[from..to]
  }
}
