/** SFTP version 3 packets: parsing requests and building replies (src/sftp.rs, `Reader` and the reply helpers). */
module Wire {
  import opened Bytes
  import opened FatTree

  const FXP_INIT := 1
  const FXP_VERSION := 2
  const FXP_OPEN := 3
  const FXP_CLOSE := 4
  const FXP_READ := 5
  const FXP_WRITE := 6
  const FXP_LSTAT := 7
  const FXP_FSTAT := 8
  const FXP_SETSTAT := 9
  const FXP_FSETSTAT := 10
  const FXP_OPENDIR := 11
  const FXP_READDIR := 12
  const FXP_REMOVE := 13
  const FXP_MKDIR := 14
  const FXP_RMDIR := 15
  const FXP_REALPATH := 16
  const FXP_STAT := 17
  const FXP_RENAME := 18
  const FXP_STATUS := 101
  const FXP_HANDLE := 102
  const FXP_DATA := 103
  const FXP_NAME := 104
  const FXP_ATTRS := 105
  const FXP_EXTENDED := 200
  const FXP_EXTENDED_REPLY := 201

  const FX_OK := 0
  const FX_EOF := 1
  const FX_NO_SUCH_FILE := 2
  const FX_PERMISSION_DENIED := 3
  const FX_FAILURE := 4
  const FX_BAD_MESSAGE := 5
  const FX_OP_UNSUPPORTED := 8

  // ---------------------------------------------------------------------
  // Words, strings and frames
  // ---------------------------------------------------------------------

  const U64_LIMIT := 0x1_0000_0000_0000_0000

  function Be64(n: nat): (s: seq<Byte>)
    ensures |s| == 8
  {
    Be32(n / U32_LIMIT) + Be32(n % U32_LIMIT)
  }

  function Text(s: string): (t: seq<Byte>)
    ensures |t| == |s|
  {
    seq(|s|, i requires 0 <= i < |s| => s[i] as int % 256)
  }

  function Str(bytes: seq<Byte>): (s: seq<Byte>)
    ensures |s| == 4 + |bytes|
  {
    Be32(|bytes|) + bytes
  }

  /** A reply: its length, its type, its fields. */
  function Frame(kind: Byte, fields: seq<Byte>): (f: seq<Byte>)
    ensures |f| == 5 + |fields|
  {
    Be32(|fields| + 1) + [kind] + fields
  }

  /** The declared length of a frame is its actual length, and it is not empty. */
  predicate Honest(f: seq<Byte>) { |f| >= 5 && FromBe32(f[..4]) == |f| - 4 }

  /** The request id a reply carries. */
  function IdOf(f: seq<Byte>): nat
    requires |f| >= 9
  {
    FromBe32(f[5..9])
  }

  lemma FrameIsHonest(kind: Byte, fields: seq<Byte>)
    requires |fields| + 1 < U32_LIMIT
    ensures Honest(Frame(kind, fields)) && Frame(kind, fields)[4] == kind
  {
    Be32RoundTrip(|fields| + 1);
    assert Frame(kind, fields)[..4] == Be32(|fields| + 1);
  }

  lemma FrameId(kind: Byte, id: nat, rest: seq<Byte>)
    requires id < U32_LIMIT && |rest| + 5 < U32_LIMIT
    ensures IdOf(Frame(kind, Be32(id) + rest)) == id
  {
    Be32RoundTrip(id);
    assert Frame(kind, Be32(id) + rest)[5..9] == Be32(id);
  }

  // ---------------------------------------------------------------------
  // Parsing: what is left of a body after a field, or nothing if it is too short
  // ---------------------------------------------------------------------

  datatype Parsed<+T> = Got(value: T, rest: seq<Byte>) | Short

  function TakeBytes(b: seq<Byte>, count: nat): Parsed<seq<Byte>> {
    if |b| < count then Short else Got(b[..count], b[count..])
  }

  function TakeU32(b: seq<Byte>): (p: Parsed<nat>)
    ensures p.Got? ==> p.value < U32_LIMIT && |p.rest| == |b| - 4
  {
    if |b| < 4 then Short else Got(FromBe32(b[..4]), b[4..])
  }

  function TakeU64(b: seq<Byte>): (p: Parsed<nat>)
    ensures p.Got? ==> p.value < U64_LIMIT && |p.rest| == |b| - 8
  {
    if |b| < 8 then Short else Got(FromBe32(b[..4]) * U32_LIMIT + FromBe32(b[4..8]), b[8..])
  }

  function TakeString(b: seq<Byte>): (p: Parsed<seq<Byte>>)
    ensures p.Got? ==> |p.rest| + 4 + |p.value| == |b|
  {
    var length := TakeU32(b);
    if length.Short? then Short else TakeBytes(length.rest, length.value)
  }

  /** A byte that continues a UTF-8 sequence. */
  predicate TailByte(b: seq<Byte>, i: nat) { i < |b| && 0x80 <= b[i] < 0xC0 }

  /** Well-formed UTF-8: no overlong forms, no surrogates, nothing above U+10FFFF. */
  predicate Utf8(b: seq<Byte>) {
    if b == [] then true
    else if b[0] < 0x80 then Utf8(b[1..])
    else if 0xC2 <= b[0] < 0xE0 then TailByte(b, 1) && Utf8(b[2..])
    else if 0xE0 <= b[0] < 0xF0 then
      TailByte(b, 1) && TailByte(b, 2) && (b[0] == 0xE0 ==> b[1] >= 0xA0) && (b[0] == 0xED ==> b[1] < 0xA0) && Utf8(b[3..])
    else if 0xF0 <= b[0] < 0xF5 then
      TailByte(b, 1) && TailByte(b, 2) && TailByte(b, 3) &&
      (b[0] == 0xF0 ==> b[1] >= 0x90) && (b[0] == 0xF4 ==> b[1] < 0x90) && Utf8(b[4..])
    else false
  }

  function TakePath(b: seq<Byte>): (p: Parsed<seq<Byte>>)
    ensures p.Got? ==> |p.rest| + 4 + |p.value| == |b|
  {
    var text := TakeString(b);
    if text.Got? && Utf8(text.value) && 0 !in text.value then text else Short
  }

  // ---------------------------------------------------------------------
  // Attributes
  // ---------------------------------------------------------------------

  datatype RequestedAttrs = RequestedAttrs(size: Option<nat>, permissions: Option<nat>, times: Option<(nat, nat)>, owner: bool)

  const NO_ATTRS := RequestedAttrs(None, None, None, false)

  /** Bit `mask` (a power of two) of a number. */
  predicate Bit(n: nat, mask: nat)
    requires mask > 0
  {
    n / mask % 2 == 1
  }

  /** Flags outside SIZE, UIDGID, PERMISSIONS, ACMODTIME and EXTENDED. */
  predicate UnknownFlags(flags: nat) { flags / 16 % 0x800_0000 != 0 }

  function SkipPairs(b: seq<Byte>, count: nat): Parsed<()>
    decreases count
  {
    if count == 0 then Got((), b)
    else
      var name := TakeString(b);
      if name.Short? then Short
      else
        var value := TakeString(name.rest);
        if value.Short? then Short else SkipPairs(value.rest, count - 1)
  }

  function TakeAttrs(b: seq<Byte>): (p: Parsed<RequestedAttrs>)
    ensures p.Got? && p.value.size.Some? ==> p.value.size.value < U64_LIMIT
    ensures p.Got? && p.value.times.Some? ==> p.value.times.value.0 < U32_LIMIT && p.value.times.value.1 < U32_LIMIT
    ensures p.Got? && p.value.permissions.Some? ==> p.value.permissions.value < U32_LIMIT
  {
    var flags := TakeU32(b);
    if flags.Short? || UnknownFlags(flags.value) then Short
    else
      var size: Parsed<Option<nat>> :=
        if Bit(flags.value, 1)
        then (var n := TakeU64(flags.rest); if n.Short? then Short else Got(Some(n.value), n.rest))
        else Got(None, flags.rest);
      if size.Short? then Short
      else
        var owner := TakeBytes(size.rest, if Bit(flags.value, 2) then 8 else 0);
        if owner.Short? then Short
        else
          var permissions: Parsed<Option<nat>> :=
            if Bit(flags.value, 4)
            then (var n := TakeU32(owner.rest); if n.Short? then Short else Got(Some(n.value), n.rest))
            else Got(None, owner.rest);
          if permissions.Short? then Short
          else TakeTimes(permissions.rest, flags.value, size.value, permissions.value)
  }

  function TakeTimes(b: seq<Byte>, flags: nat, size: Option<nat>, permissions: Option<nat>): (p: Parsed<RequestedAttrs>)
    ensures p.Got? ==> p.value.size == size && p.value.permissions == permissions
    ensures p.Got? && p.value.times.Some? ==> p.value.times.value.0 < U32_LIMIT && p.value.times.value.1 < U32_LIMIT
  {
    var accessed, timed := TakeU32(b), Bit(flags, 8);
    if timed && (accessed.Short? || TakeU32(accessed.rest).Short?) then Short
    else
      var times: Option<(nat, nat)> := if timed then Some((accessed.value, TakeU32(accessed.rest).value)) else None;
      var rest := if timed then TakeU32(accessed.rest).rest else b;
      var attrs := RequestedAttrs(size, permissions, times, Bit(flags, 2));
      if !Bit(flags, 0x8000_0000) then Got(attrs, rest)
      else
        var count := TakeU32(rest);
        if count.Short? then Short
        else
          var pairs := SkipPairs(count.rest, count.value);
          if pairs.Short? then Short else Got(attrs, pairs.rest)
  }

  // ---------------------------------------------------------------------
  // Requests
  // ---------------------------------------------------------------------

  type Token = seq<Byte>

  datatype Request =
    | RealPath(path: seq<Byte>)
    | Stat(path: seq<Byte>)
    | FStat(token: Token)
    | OpenDir(path: seq<Byte>)
    | ReadDir(token: Token)
    | Open(path: seq<Byte>, flags: nat, attrs: RequestedAttrs)
    | Close(token: Token)
    | Read(token: Token, offset: nat, wanted: nat)
    | Remove(path: seq<Byte>)
    | MkDir(path: seq<Byte>, attrs: RequestedAttrs)
    | RmDir(path: seq<Byte>)
    | Rename(source: seq<Byte>, target: seq<Byte>)
    | SetStat(path: seq<Byte>, attrs: RequestedAttrs)
    | FSetStat(token: Token, attrs: RequestedAttrs)
    | Limits
    | FSync(token: Token)
    | StatVfs(path: seq<Byte>)
    | FStatVfs(token: Token)
    | UnknownExtension
    | BadMessage
    | Unsupported

  function PathRequest(b: seq<Byte>, make: seq<Byte> -> Request): Request {
    var p := TakePath(b);
    if p.Got? then make(p.value) else BadMessage
  }

  function TokenRequest(b: seq<Byte>, make: Token -> Request): Request {
    var p := TakeString(b);
    if p.Got? then make(p.value) else BadMessage
  }

  function PathAttrsRequest(b: seq<Byte>, make: (seq<Byte>, RequestedAttrs) -> Request): Request {
    var p := TakePath(b);
    if p.Short? then BadMessage
    else
      var a := TakeAttrs(p.rest);
      if a.Short? then BadMessage else make(p.value, a.value)
  }

  function ParseOpen(b: seq<Byte>): Request {
    var p := TakePath(b);
    if p.Short? || TakeU32(p.rest).Short? then BadMessage
    else
      var flags := TakeU32(p.rest);
      var attrs := TakeAttrs(flags.rest);
      if attrs.Short? then BadMessage else Open(p.value, flags.value, attrs.value)
  }

  function ParseRead(b: seq<Byte>): Request {
    var t := TakeString(b);
    if t.Short? || TakeU64(t.rest).Short? then BadMessage
    else
      var offset := TakeU64(t.rest);
      var wanted := TakeU32(offset.rest);
      if wanted.Short? then BadMessage else Read(t.value, offset.value, wanted.value)
  }

  function ParseRename(b: seq<Byte>): Request {
    var source := TakePath(b);
    if source.Short? || TakePath(source.rest).Short? then BadMessage
    else Rename(source.value, TakePath(source.rest).value)
  }

  function ParseFSetStat(b: seq<Byte>): Request {
    var t := TakeString(b);
    if t.Short? || TakeAttrs(t.rest).Short? then BadMessage else FSetStat(t.value, TakeAttrs(t.rest).value)
  }

  function ParseExtended(b: seq<Byte>): Request {
    var name := TakeString(b);
    if name.Short? then BadMessage
    else if name.value == Text("limits@openssh.com") then Limits
    else if name.value == Text("fsync@openssh.com") then TokenRequest(name.rest, t => FSync(t))
    else if name.value == Text("statvfs@openssh.com") then PathRequest(name.rest, p => StatVfs(p))
    else if name.value == Text("fstatvfs@openssh.com") then TokenRequest(name.rest, t => FStatVfs(t))
    else UnknownExtension
  }

  /** A request other than INIT and WRITE, from its type and what follows its id. */
  function ParseRequest(kind: Byte, b: seq<Byte>): Request {
    if kind == FXP_REALPATH then PathRequest(b, p => RealPath(p))
    else if kind == FXP_STAT || kind == FXP_LSTAT then PathRequest(b, p => Stat(p))
    else if kind == FXP_FSTAT then TokenRequest(b, t => FStat(t))
    else if kind == FXP_OPENDIR then PathRequest(b, p => OpenDir(p))
    else if kind == FXP_READDIR then TokenRequest(b, t => ReadDir(t))
    else if kind == FXP_OPEN then ParseOpen(b)
    else if kind == FXP_CLOSE then TokenRequest(b, t => Close(t))
    else if kind == FXP_READ then ParseRead(b)
    else if kind == FXP_REMOVE then PathRequest(b, p => Remove(p))
    else if kind == FXP_MKDIR then PathAttrsRequest(b, (p, a) => MkDir(p, a))
    else if kind == FXP_RMDIR then PathRequest(b, p => RmDir(p))
    else if kind == FXP_RENAME then ParseRename(b)
    else if kind == FXP_SETSTAT then PathAttrsRequest(b, (p, a) => SetStat(p, a))
    else if kind == FXP_FSETSTAT then ParseFSetStat(b)
    else if kind == FXP_EXTENDED then ParseExtended(b)
    else Unsupported
  }

  /** Which request a type with one path stands for. */
  lemma PathRequests(kind: Byte, b: seq<Byte>)
    ensures var p, r := TakePath(b), ParseRequest(kind, b);
            && (kind == FXP_REALPATH ==> r == if p.Got? then RealPath(p.value) else BadMessage)
            && (kind == FXP_STAT || kind == FXP_LSTAT ==> r == if p.Got? then Stat(p.value) else BadMessage)
            && (kind == FXP_OPENDIR ==> r == if p.Got? then OpenDir(p.value) else BadMessage)
            && (kind == FXP_REMOVE ==> r == if p.Got? then Remove(p.value) else BadMessage)
            && (kind == FXP_RMDIR ==> r == if p.Got? then RmDir(p.value) else BadMessage)
  {
    hide TakePath;
  }

  /** A type with a path and attributes. */
  lemma AttrsRequests(kind: Byte, b: seq<Byte>)
    ensures var p, r := TakePath(b), ParseRequest(kind, b);
            if p.Short? || TakeAttrs(p.rest).Short? then kind == FXP_MKDIR || kind == FXP_SETSTAT ==> r.BadMessage?
            else
              && (kind == FXP_MKDIR ==> r == MkDir(p.value, TakeAttrs(p.rest).value))
              && (kind == FXP_SETSTAT ==> r == SetStat(p.value, TakeAttrs(p.rest).value))
  {
    hide TakePath, TakeAttrs;
  }

  /** A type with one handle. */
  lemma TokenRequests(kind: Byte, b: seq<Byte>)
    ensures var t, r := TakeString(b), ParseRequest(kind, b);
            && (kind == FXP_FSTAT ==> r == if t.Got? then FStat(t.value) else BadMessage)
            && (kind == FXP_READDIR ==> r == if t.Got? then ReadDir(t.value) else BadMessage)
            && (kind == FXP_CLOSE ==> r == if t.Got? then Close(t.value) else BadMessage)
  {
    hide TakeString;
  }

  predicate KnownKind(kind: Byte) {
    kind in [FXP_REALPATH, FXP_STAT, FXP_LSTAT, FXP_FSTAT, FXP_OPENDIR, FXP_READDIR, FXP_OPEN, FXP_CLOSE, FXP_READ, FXP_REMOVE, FXP_MKDIR,
             FXP_RMDIR, FXP_RENAME, FXP_SETSTAT, FXP_FSETSTAT, FXP_EXTENDED]
  }
}
