/** Bytes, big- and little-endian words, and overlays on byte sequences. */
module Bytes {
  type Byte = b: int | 0 <= b < 256

  const U32_LIMIT := 0x1_0000_0000

  /** A `usize` on the 32-bit target: release arithmetic wraps. */
  function WrapUsize(n: nat): nat { n % U32_LIMIT }

  /** Big-endian bytes of a number cast to 32 bits. */
  function Be32(n: nat): (s: seq<Byte>)
    ensures |s| == 4
  {
    [n / 0x100_0000 % 256, n / 0x1_0000 % 256, n / 256 % 256, n % 256]
  }

  function FromBe32(s: seq<Byte>): (n: nat)
    requires |s| == 4
    ensures n < U32_LIMIT
  {
    (s[0] as int) * 0x100_0000 + (s[1] as int) * 0x1_0000 + (s[2] as int) * 256 + s[3]
  }

  function FromLe32(s: seq<Byte>): (n: nat)
    requires |s| == 4
    ensures n < U32_LIMIT
  {
    (s[3] as int) * 0x100_0000 + (s[2] as int) * 0x1_0000 + (s[1] as int) * 256 + s[0]
  }

  /** Little-endian bytes of a number cast to 32 bits. */
  function Le32(n: nat): (s: seq<Byte>)
    ensures |s| == 4
  {
    [n % 256, n / 256 % 256, n / 0x1_0000 % 256, n / 0x100_0000 % 256]
  }

  lemma Le32RoundTrip(n: nat)
    requires n < U32_LIMIT
    ensures FromLe32(Le32(n)) == n
  {
    var a, b, c := n / 256, n / 0x1_0000, n / 0x100_0000;
    assert b == a / 256 && c == b / 256;
  }

  lemma Be32RoundTrip(n: nat)
    requires n < U32_LIMIT
    ensures FromBe32(Be32(n)) == n
  {
    var a, b, c := n / 256, n / 0x1_0000, n / 0x100_0000;
    assert b == a / 256 && c == b / 256;
  }

  /** `data` written over `old` at `at`, which lies inside or at the end of `old`. */
  function Overlay(content: seq<Byte>, at: nat, data: seq<Byte>): (s: seq<Byte>)
    requires at <= |content|
    ensures |s| == if at + |data| > |content| then at + |data| else |content|
    ensures forall i :: 0 <= i < |s| ==> s[i] == if at <= i < at + |data| then data[i - at] else content[i]
  {
    content[..at] + data + if at + |data| < |content| then content[at + |data|..] else []
  }

  function Zeros(n: nat): (s: seq<Byte>)
    ensures |s| == n && forall i :: 0 <= i < n ==> s[i] == 0
  {
    seq(n, i => 0)
  }

  /** Growth with zeros; a sequence already that long is unchanged. */
  function ZeroExtend(s: seq<Byte>, length: nat): (r: seq<Byte>)
    ensures |r| == if length > |s| then length else |s|
    ensures s <= r && forall i :: |s| <= i < |r| ==> r[i] == 0
  {
    if length > |s| then s + Zeros(length - |s|) else s
  }
}
