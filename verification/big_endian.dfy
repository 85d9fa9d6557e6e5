/**
 * Unsigned big-endian integers over bytes: the arithmetic behind the
 * 12-byte frame header of the zero-latency H.264 demultiplexer.
 */
module BigEndian {

  type Byte = b: int | 0 <= b < 256

  const TWO_32: nat := 0x1_0000_0000
  const TWO_64: nat := 0x1_0000_0000_0000_0000

  /** 256 to the power n: one more than the largest value n bytes hold. */
  function Pow256(n: nat): (p: nat)
    ensures p > 0
  {
    if n == 0 then 1 else 256 * Pow256(n - 1)
  }

  lemma Pow256Widths()
    ensures Pow256(4) == TWO_32 && Pow256(8) == TWO_64
  {
  }

  /** The value of `s` read as an unsigned big-endian integer: `s[0]` is the most significant byte. */
  function BeValue(s: seq<Byte>): (v: nat)
    ensures v < Pow256(|s|)
  {
    if s == [] then 0 else BeValue(s[..|s| - 1]) * 256 + s[|s| - 1]
  }

  /** Reading one more byte shifts the value read so far left by eight bits. */
  lemma BeValueStep(s: seq<Byte>, k: nat)
    requires k < |s|
    ensures BeValue(s[..k + 1]) == BeValue(s[..k]) * 256 + s[k]
  {
    assert s[..k + 1][..k] == s[..k];
  }

  /** A 4-byte value is the sum of its bytes shifted left by 24, 16, 8 and 0 bits. */
  lemma BeValue4(s: seq<Byte>)
    requires |s| == 4
    ensures BeValue(s) == (s[0] as int) * 0x100_0000 + (s[1] as int) * 0x1_0000 + (s[2] as int) * 0x100 + (s[3] as int)
  {
    assert s[..0] == [] && s[..4] == s;
    BeValueStep(s, 0); BeValueStep(s, 1); BeValueStep(s, 2); BeValueStep(s, 3);
  }

  /** An 8-byte value is its first four bytes shifted left by 32 bits plus its last four. */
  lemma BeValue8(s: seq<Byte>)
    requires |s| == 8
    ensures BeValue(s) == BeValue(s[..4]) * 0x1_0000_0000 + BeValue(s[4..])
  {
    var hi, lo := s[..4], s[4..];
    assert s[..4][..0] == [] && s[..8] == s;
    BeValueStep(s, 4); BeValueStep(s, 5); BeValueStep(s, 6); BeValueStep(s, 7);
    BeValue4(lo);
    assert s[..4] == hi;
  }

  /** The n-byte big-endian encoding of v. */
  function BeBytes(v: nat, n: nat): (s: seq<Byte>)
    requires v < Pow256(n)
    ensures |s| == n
  {
    if n == 0 then [] else BeBytes(v / 256, n - 1) + [v % 256]
  }

  /** Decoding an encoding gives back the value. */
  lemma {:induction false} BeValueOfBeBytes(v: nat, n: nat)
    requires v < Pow256(n)
    ensures BeValue(BeBytes(v, n)) == v
  {
    if n > 0 {
      var s := BeBytes(v, n);
      assert s[..n - 1] == BeBytes(v / 256, n - 1);
      BeValueOfBeBytes(v / 256, n - 1);
    }
  }

  /** Encoding a decoded value at the same width gives back the bytes. */
  lemma {:induction false} BeBytesOfBeValue(s: seq<Byte>)
    ensures BeBytes(BeValue(s), |s|) == s
  {
    if s != [] {
      var init := s[..|s| - 1];
      BeBytesOfBeValue(init);
      var v := BeValue(s);
      assert v / 256 == BeValue(init) && v % 256 == s[|s| - 1];
      assert s == init + [s[|s| - 1]];
    }
  }

  /** Two byte strings of one width with the same value are equal. */
  lemma BeValueInjective(s: seq<Byte>, t: seq<Byte>)
    requires |s| == |t| && BeValue(s) == BeValue(t)
    ensures s == t
  {
    BeBytesOfBeValue(s);
    BeBytesOfBeValue(t);
  }
}
