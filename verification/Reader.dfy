/** The bounds-checked reader over one request body (src/sftp.rs, `Reader`): each call advances it in place. */
module WireReader {
  import opened Bytes
  import opened FatTree
  import opened Wire

  class Reader {
    var bytes: seq<Byte>

    constructor (bytes: seq<Byte>)
      ensures this.bytes == bytes
    {
      this.bytes := bytes;
    }

    /** A refused `take` leaves the reader where it is. */
    method Take(count: nat) returns (r: Option<seq<Byte>>)
      modifies this
      ensures var p := TakeBytes(old(bytes), count);
              (r.Some? <==> p.Got?) && (p.Got? ==> r.value == p.value && bytes == p.rest)
      ensures r.None? ==> bytes == old(bytes)
    {
      if |bytes| < count { return None; }
      var head := bytes[..count];
      bytes := bytes[count..];
      return Some(head);
    }

    method U32() returns (r: Option<nat>)
      modifies this
      ensures var p := TakeU32(old(bytes)); (r.Some? <==> p.Got?) && (p.Got? ==> r.value == p.value && bytes == p.rest)
      ensures r.None? ==> bytes == old(bytes)
    {
      var word := Take(4);
      return if word.Some? then Some(FromBe32(word.value)) else None;
    }

    method U64() returns (r: Option<nat>)
      modifies this
      ensures var p := TakeU64(old(bytes)); (r.Some? <==> p.Got?) && (p.Got? ==> r.value == p.value && bytes == p.rest)
    {
      var words := Take(8);
      if words.None? { return None; }
      assert words.value[..4] == old(bytes)[..4] && words.value[4..] == old(bytes)[4..8];
      return Some(FromBe32(words.value[..4]) * U32_LIMIT + FromBe32(words.value[4..]));
    }

    method String() returns (r: Option<seq<Byte>>)
      modifies this
      ensures var p := TakeString(old(bytes)); (r.Some? <==> p.Got?) && (p.Got? ==> r.value == p.value && bytes == p.rest)
    {
      var length := U32();
      if length.None? { return None; }
      r := Take(length.value);
    }

    method Path() returns (r: Option<seq<Byte>>)
      modifies this
      ensures var p := TakePath(old(bytes)); (r.Some? <==> p.Got?) && (p.Got? ==> r.value == p.value && bytes == p.rest)
    {
      var text := String();
      if text.None? { return None; }
      return if Utf8(text.value) && 0 !in text.value then text else None;
    }

    method Pairs(count: nat) returns (ok: bool)
      modifies this
      ensures var p := SkipPairs(old(bytes), count); (ok <==> p.Got?) && (p.Got? ==> bytes == p.rest)
    {
      hide TakeString;
      for i := 0 to count
        invariant SkipPairs(old(bytes), count) == SkipPairs(bytes, count - i)
      {
        var name := String();
        if name.None? { return false; }
        var value := String();
        if value.None? { return false; }
      }
      return true;
    }

    method Attrs() returns (r: Option<RequestedAttrs>)
      modifies this
      ensures var p := TakeAttrs(old(bytes)); (r.Some? <==> p.Got?) && (p.Got? ==> r.value == p.value && bytes == p.rest)
    {
      hide TakeU32, TakeU64, SkipPairs, Bit, UnknownFlags;
      var flags := U32();
      if flags.None? || UnknownFlags(flags.value) { return None; }
      var size: Option<nat> := None;
      if Bit(flags.value, 1) {
        size := U64();
        if size.None? { return None; }
      }
      var owner := Bit(flags.value, 2);
      if owner {
        var ids := Take(8);
        if ids.None? { return None; }
      }
      var permissions: Option<nat> := None;
      if Bit(flags.value, 4) {
        permissions := U32();
        if permissions.None? { return None; }
      }
      r := Times(flags.value, size, permissions);
    }

    method Times(flags: nat, size: Option<nat>, permissions: Option<nat>) returns (r: Option<RequestedAttrs>)
      modifies this
      ensures var p := TakeTimes(old(bytes), flags, size, permissions);
              (r.Some? <==> p.Got?) && (p.Got? ==> r.value == p.value && bytes == p.rest)
    {
      hide SkipPairs, Bit;
      var times: Option<(nat, nat)> := None;
      if Bit(flags, 8) {
        var accessed := U32();
        if accessed.None? { return None; }
        var modified := U32();
        if modified.None? { return None; }
        times := Some((accessed.value, modified.value));
      }
      if Bit(flags, 0x8000_0000) {
        var count := U32();
        if count.None? { return None; }
        var ok := Pairs(count.value);
        if !ok { return None; }
      }
      return Some(RequestedAttrs(size, permissions, times, Bit(flags, 2)));
    }
  }
}
