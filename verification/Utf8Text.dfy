/** The paths a client may send are UTF-8: the check byte by byte, and what it accepts. */
module Utf8Text {
  import opened Bytes
  import opened Wire

  /** A Unicode scalar value: a code point that is no surrogate. */
  type Scalar = n: nat | n < 0xD800 || 0xE000 <= n < 0x11_0000

  /** RFC 3629, section 3: 1 to 4 bytes, as few as hold the value. */
  function Encoded(n: Scalar): (b: seq<Byte>)
    ensures b != []
  {
    if n < 0x80 then [n]
    else if n < 0x800 then [0xC0 + n / 64, 0x80 + n % 64]
    else if n < 0x1_0000 then [0xE0 + n / 4096, 0x80 + n / 64 % 64, 0x80 + n % 64]
    else [0xF0 + n / 0x4_0000, 0x80 + n / 4096 % 64, 0x80 + n / 64 % 64, 0x80 + n % 64]
  }

  function EncodedAll(text: seq<Scalar>): seq<Byte> { if text == [] then [] else Encoded(text[0]) + EncodedAll(text[1..]) }

  /** How long the first character of accepted text is. */
  function FirstLength(b: seq<Byte>): nat
    requires b != []
  {
    if b[0] < 0x80 then 1 else if b[0] < 0xE0 then 2 else if b[0] < 0xF0 then 3 else 4
  }

  lemma FirstEncoded(n: Scalar, rest: seq<Byte>)
    ensures Utf8(Encoded(n) + rest) <==> Utf8(rest)
  {
    var b, size := Encoded(n) + rest, |Encoded(n)|;
    assert b[size..] == rest;
    assert forall i :: 0 <= i < size ==> b[i] == Encoded(n)[i];
    LeadByte(n);
  }

  lemma LeadByte(n: Scalar)
    ensures 0x800 <= n < 0x1_0000 ==> (n < 0x1000 ==> n / 64 % 64 == n / 64 >= 32) && (0xD000 <= n < 0xE000 ==> n / 64 % 64 == n / 64 - 0x340 < 32)
    ensures n >= 0x1_0000 ==> (n < 0x4_0000 ==> n / 4096 % 64 == n / 4096 >= 16) && (n >= 0x10_0000 ==> n / 4096 % 64 == n / 4096 - 0x100 < 16)
  {
  }

  /** Six bits of a byte that continues a character. */
  function Bits(b: seq<Byte>, i: nat): nat
    requires TailByte(b, i)
  {
    b[i] as int - 0x80
  }

  /** The text starts with a whole character. */
  predicate FirstOk(b: seq<Byte>)
    requires b != []
  {
    var lead, size := b[0] as int, FirstLength(b);
    && (lead < 0x80 || 0xC2 <= lead < 0xF5) && size <= |b| && (forall i :: 1 <= i < size ==> TailByte(b, i))
    && (lead == 0xE0 ==> b[1] >= 0xA0) && (lead == 0xED ==> b[1] < 0xA0) && (lead == 0xF0 ==> b[1] >= 0x90) && (lead == 0xF4 ==> b[1] < 0x90)
  }

  lemma FirstAccepted(b: seq<Byte>)
    requires Utf8(b) && b != []
    ensures FirstOk(b) && Utf8(b[FirstLength(b)..])
  {
  }

  /** The value the first bytes stand for. */
  function FirstScalar(b: seq<Byte>): nat
    requires b != [] && FirstOk(b)
  {
    var lead := b[0] as int;
    if lead < 0x80 then lead
    else if lead < 0xE0 then (lead - 0xC0) * 64 + Bits(b, 1)
    else if lead < 0xF0 then ((lead - 0xE0) * 64 + Bits(b, 1)) * 64 + Bits(b, 2)
    else (((lead - 0xF0) * 64 + Bits(b, 1)) * 64 + Bits(b, 2)) * 64 + Bits(b, 3)
  }

  lemma Groups(a: nat, x: nat, y: nat, z: nat)
    requires x < 64 && y < 64 && z < 64
    ensures var n := ((a * 64 + x) * 64 + y) * 64 + z; n / 0x4_0000 == a && n / 4096 % 64 == x && n / 64 % 64 == y && n % 64 == z
  {
    var n := ((a * 64 + x) * 64 + y) * 64 + z;
    assert n / 64 == (a * 64 + x) * 64 + y;
    assert n / 4096 == a * 64 + x;
  }

  lemma LongEncoded(a: nat, x: nat, y: nat, z: nat)
    requires x < 64 && y < 64 && z < 64
    ensures a == 0 && x == 0 && 2 <= y < 32 ==> Encoded(y * 64 + z) == [0xC0 + y, 0x80 + z]
    ensures a == 0 && x < 16 && (x == 0 ==> y >= 32) && (x == 13 ==> y < 32) ==>
              var n := (x * 64 + y) * 64 + z; (n < 0xD800 || 0xE000 <= n < 0x1_0000) && Encoded(n) == [0xE0 + x, 0x80 + y, 0x80 + z]
    ensures a < 5 && (a == 0 ==> x >= 16) && (a == 4 ==> x < 16) ==>
              var n := ((a * 64 + x) * 64 + y) * 64 + z; 0x1_0000 <= n < 0x11_0000 && Encoded(n) == [0xF0 + a, 0x80 + x, 0x80 + y, 0x80 + z]
  {
    Groups(a, x, y, z);
  }

  lemma FirstDecoded(b: seq<Byte>)
    requires b != [] && FirstOk(b)
    ensures var n, size := FirstScalar(b), FirstLength(b);
            (n < 0xD800 || 0xE000 <= n < 0x11_0000) && Encoded(n) == b[..size]
  {
    var lead := b[0] as int;
    if lead < 0x80 {
    } else {
      hide Encoded;
      if lead < 0xE0 {
        LongEncoded(0, 0, lead - 0xC0, Bits(b, 1));
        assert b[..2] == [b[0], b[1]];
      } else if lead < 0xF0 {
        LongEncoded(0, lead - 0xE0, Bits(b, 1), Bits(b, 2));
        assert b[..3] == [b[0], b[1], b[2]];
      } else {
        LongEncoded(lead - 0xF0, Bits(b, 1), Bits(b, 2), Bits(b, 3));
        assert b[..4] == [b[0], b[1], b[2], b[3]];
      }
    }
  }

  lemma {:induction false} AcceptsEncoded(text: seq<Scalar>)
    ensures Utf8(EncodedAll(text))
    decreases |text|
  {
    if text != [] {
      AcceptsEncoded(text[1..]);
      FirstEncoded(text[0], EncodedAll(text[1..]));
    }
  }

  lemma {:induction false} AcceptedIsEncoded(b: seq<Byte>)
    requires Utf8(b)
    ensures exists text: seq<Scalar> :: EncodedAll(text) == b
    decreases |b|
  {
    hide Utf8, Encoded, FirstOk, FirstScalar;
    if b == [] {
      assert EncodedAll([]) == b;
    } else {
      FirstAccepted(b);
      FirstDecoded(b);
      var n, size := FirstScalar(b), FirstLength(b);
      AcceptedIsEncoded(b[size..]);
      var rest: seq<Scalar> :| EncodedAll(rest) == b[size..];
      var text: seq<Scalar> := [n] + rest;
      assert text[0] == n && text[1..] == rest;
      assert b[..size] + b[size..] == b;
      assert EncodedAll(text) == b;
    }
  }

  /** Exactly the encodings of sequences of scalar values are accepted. */
  lemma Utf8Exact(b: seq<Byte>)
    ensures Utf8(b) <==> exists text: seq<Scalar> :: EncodedAll(text) == b
  {
    hide Utf8, EncodedAll;
    if Utf8(b) { AcceptedIsEncoded(b); }
    forall text: seq<Scalar> | EncodedAll(text) == b
      ensures Utf8(b)
    {
      AcceptsEncoded(text);
    }
  }
}
