/**
 Requests as a client writes them and replies as it reads them, byte for byte after
 draft-ietf-secsh-filexfer-02, and that the server means the same by them.
 */
module SftpClient {
  import opened Bytes
  import opened FatTree
  import opened FsPath
  import opened Wire
  import opened SftpVolume
  import opened SftpModel
  import opened SftpStream
  import opened SftpReplies
  import opened SftpRequests

  // ---------------------------------------------------------------------
  // Writing requests
  // ---------------------------------------------------------------------

  /** A path the server takes as text. */
  predicate TextPath(p: seq<Byte>) { |p| < U32_LIMIT && Utf8(p) && 0 !in p }

  predicate SmallAttrs(a: RequestedAttrs) {
    && (a.size.Some? ==> a.size.value < U64_LIMIT) && (a.permissions.Some? ==> a.permissions.value < U32_LIMIT)
    && (a.times.Some? ==> a.times.value.0 < U32_LIMIT && a.times.value.1 < U32_LIMIT)
  }

  /** Attributes: flags, then size, owner and group, permissions, access and modification time, each if its flag is set. */
  function AttrFields(a: RequestedAttrs, owner: seq<Byte>): seq<Byte> {
    Be32((if a.size.Some? then 1 else 0) + (if a.owner then 2 else 0) + (if a.permissions.Some? then 4 else 0) + (if a.times.Some? then 8 else 0)) +
    (if a.size.Some? then Be64(a.size.value) else []) + (if a.owner then owner else []) +
    (if a.permissions.Some? then Be32(a.permissions.value) else []) +
    if a.times.Some? then Be32(a.times.value.0) + Be32(a.times.value.1) else []
  }

  /** Requests whose fields fit their places. */
  predicate Sendable(r: Request) {
    match r
    case RealPath(p) => TextPath(p)
    case Stat(p) => TextPath(p)
    case FStat(t) => |t| < U32_LIMIT
    case OpenDir(p) => TextPath(p)
    case ReadDir(t) => |t| < U32_LIMIT
    case Open(p, flags, a) => TextPath(p) && flags < U32_LIMIT && SmallAttrs(a)
    case Close(t) => |t| < U32_LIMIT
    case Read(t, offset, wanted) => |t| < U32_LIMIT && offset < U64_LIMIT && wanted < U32_LIMIT
    case Remove(p) => TextPath(p)
    case MkDir(p, a) => TextPath(p) && SmallAttrs(a)
    case RmDir(p) => TextPath(p)
    case Rename(p, q) => TextPath(p) && TextPath(q)
    case SetStat(p, a) => TextPath(p) && SmallAttrs(a)
    case FSetStat(t, a) => |t| < U32_LIMIT && SmallAttrs(a)
    case Limits => true
    case FSync(t) => |t| < U32_LIMIT
    case StatVfs(p) => TextPath(p)
    case FStatVfs(t) => |t| < U32_LIMIT
    case UnknownExtension => false
    case BadMessage => false
    case Unsupported => false
  }

  function KindOf(r: Request): Byte {
    match r
    case Open(_, _, _) => 3
    case Close(_) => 4
    case Read(_, _, _) => 5
    case FStat(_) => 8
    case SetStat(_, _) => 9
    case FSetStat(_, _) => 10
    case OpenDir(_) => 11
    case ReadDir(_) => 12
    case Remove(_) => 13
    case MkDir(_, _) => 14
    case RmDir(_) => 15
    case RealPath(_) => 16
    case Stat(_) => 17
    case Rename(_, _) => 18
    case _ => 200
  }

  /** What follows the id. `owner` stands for the ids a client puts where it asks for an owner. */
  function Body(r: Request, owner: seq<Byte>): seq<Byte> {
    match r
    case RealPath(p) => Str(p)
    case Stat(p) => Str(p)
    case FStat(t) => Str(t)
    case OpenDir(p) => Str(p)
    case ReadDir(t) => Str(t)
    case Open(p, flags, a) => Str(p) + Be32(flags) + AttrFields(a, owner)
    case Close(t) => Str(t)
    case Read(t, offset, wanted) => Str(t) + Be64(offset) + Be32(wanted)
    case Remove(p) => Str(p)
    case MkDir(p, a) => Str(p) + AttrFields(a, owner)
    case RmDir(p) => Str(p)
    case Rename(p, q) => Str(p) + Str(q)
    case SetStat(p, a) => Str(p) + AttrFields(a, owner)
    case FSetStat(t, a) => Str(t) + AttrFields(a, owner)
    case Limits => Str(Text("limits@openssh.com"))
    case FSync(t) => Str(Text("fsync@openssh.com")) + Str(t)
    case StatVfs(p) => Str(Text("statvfs@openssh.com")) + Str(p)
    case FStatVfs(t) => Str(Text("fstatvfs@openssh.com")) + Str(t)
    case UnknownExtension => []
    case BadMessage => []
    case Unsupported => []
  }

  // ---------------------------------------------------------------------
  // The server reads what was written
  // ---------------------------------------------------------------------

  lemma TakesWord(n: nat, rest: seq<Byte>)
    requires n < U32_LIMIT
    ensures TakeU32(Be32(n) + rest) == Got(n, rest)
  {
    hide Be32, FromBe32;
    Be32RoundTrip(n);
    var b := Be32(n) + rest;
    assert b[..4] == Be32(n) && b[4..] == rest;
  }

  lemma TakesLong(n: nat, rest: seq<Byte>)
    requires n < U64_LIMIT
    ensures TakeU64(Be64(n) + rest) == Got(n, rest)
  {
    hide Be32, FromBe32;
    Be32RoundTrip(n / U32_LIMIT);
    Be32RoundTrip(n % U32_LIMIT);
    var b := Be64(n) + rest;
    assert b[..4] == Be32(n / U32_LIMIT) && b[4..8] == Be32(n % U32_LIMIT) && b[8..] == rest;
  }

  lemma TakesString(x: seq<Byte>, rest: seq<Byte>)
    requires |x| < U32_LIMIT
    ensures TakeString(Str(x) + rest) == Got(x, rest)
  {
    hide Be32, TakeU32;
    var b := Str(x) + rest;
    assert b == Be32(|x|) + (x + rest);
    TakesWord(|x|, x + rest);
    assert (x + rest)[..|x|] == x && (x + rest)[|x|..] == rest;
  }

  lemma TakesPath(x: seq<Byte>, rest: seq<Byte>)
    requires TextPath(x)
    ensures TakePath(Str(x) + rest) == Got(x, rest)
  {
    hide TakeString, Utf8, Str;
    TakesString(x, rest);
  }

  lemma WordExact(s: seq<Byte>)
    requires |s| == 4
    ensures Be32(FromBe32(s)) == s
  {
    var n, a, b, c := FromBe32(s), s[0] as int, s[1] as int, s[2] as int;
    assert n / 256 == a * 0x1_0000 + b * 256 + c && n / 0x1_0000 == a * 256 + b && n / 0x100_0000 == a;
  }

  /** What is read as a path is text, and written as `Str` writes it. */
  lemma PathExact(b: seq<Byte>)
    ensures TakeString(b).Got? ==> |TakeString(b).value| < U32_LIMIT && b == Str(TakeString(b).value) + TakeString(b).rest
    ensures TakePath(b).Got? <==> TakeString(b).Got? && TextPath(TakeString(b).value)
    ensures TakePath(b).Got? ==> TakePath(b) == TakeString(b)
  {
    hide Be32, FromBe32, Utf8;
    if TakeString(b).Got? { WordExact(b[..4]); }
  }

  lemma FlagBits(size: bool, owner: bool, permissions: bool, times: bool)
    ensures var n := (if size then 1 else 0) + (if owner then 2 else 0) + (if permissions then 4 else 0) + (if times then 8 else 0);
            && n < 16 && !UnknownFlags(n) && !Bit(n, 0x8000_0000)
            && Bit(n, 1) == size && Bit(n, 2) == owner && Bit(n, 4) == permissions && Bit(n, 8) == times
  {
  }

  lemma TakesTimes(a: RequestedAttrs, flags: nat, rest: seq<Byte>)
    requires SmallAttrs(a) && Bit(flags, 8) == a.times.Some? && Bit(flags, 2) == a.owner && !Bit(flags, 0x8000_0000)
    ensures var b := if a.times.Some? then Be32(a.times.value.0) + Be32(a.times.value.1) else [];
            TakeTimes(b + rest, flags, a.size, a.permissions) == Got(a, rest)
  {
    hide Be32, TakeU32, Bit;
    if a.times.Some? {
      var (accessed, modified) := a.times.value;
      TakesWord(accessed, Be32(modified) + rest);
      TakesWord(modified, rest);
      assert Be32(accessed) + Be32(modified) + rest == Be32(accessed) + (Be32(modified) + rest);
    } else {
      assert [] + rest == rest;
    }
  }

  lemma TakesAttrs(a: RequestedAttrs, owner: seq<Byte>, rest: seq<Byte>)
    requires SmallAttrs(a) && |owner| == 8
    ensures TakeAttrs(AttrFields(a, owner) + rest) == Got(a, rest)
  {
    hide Be32, Be64, TakeU32, TakeU64, Bit, UnknownFlags, TakeTimes;
    var flags := (if a.size.Some? then 1 else 0) + (if a.owner then 2 else 0) + (if a.permissions.Some? then 4 else 0) + (if a.times.Some? then 8 else 0);
    FlagBits(a.size.Some?, a.owner, a.permissions.Some?, a.times.Some?);
    var size := if a.size.Some? then Be64(a.size.value) else [];
    var ids := if a.owner then owner else [];
    var permissions := if a.permissions.Some? then Be32(a.permissions.value) else [];
    var times := if a.times.Some? then Be32(a.times.value.0) + Be32(a.times.value.1) else [];
    FieldsInTurn(Be32(flags), size, ids, permissions, times, rest);
    var after4 := times + rest;
    var after3 := permissions + after4;
    var after2 := ids + after3;
    TakesWord(flags, size + after2);
    if a.size.Some? { TakesLong(a.size.value, after2); }
    if a.permissions.Some? { TakesWord(a.permissions.value, after4); }
    TakesTimes(a, flags, rest);
  }

  /** Fields read one after another; one that is missing leaves the bytes as they are. */
  lemma FieldsInTurn(a: seq<Byte>, b: seq<Byte>, c: seq<Byte>, d: seq<Byte>, e: seq<Byte>, rest: seq<Byte>)
    ensures a + b + c + d + e + rest == a + (b + (c + (d + (e + rest))))
    ensures (c + (d + (e + rest)))[..|c|] == c && (c + (d + (e + rest)))[|c|..] == d + (e + rest)
    ensures (b == [] ==> b + (c + (d + (e + rest))) == c + (d + (e + rest))) && (d == [] ==> d + (e + rest) == e + rest)
  {
  }

  lemma OpenUnderstood(p: seq<Byte>, flags: nat, a: RequestedAttrs, owner: seq<Byte>)
    requires TextPath(p) && flags < U32_LIMIT && SmallAttrs(a) && |owner| == 8
    ensures ParseRequest(3, Str(p) + Be32(flags) + AttrFields(a, owner)) == Open(p, flags, a)
  {
    hide Be32, Str, TakePath, TakeU32, TakeAttrs, AttrFields, TextPath, SmallAttrs;
    TakesPath(p, Be32(flags) + AttrFields(a, owner));
    TakesWord(flags, AttrFields(a, owner));
    TakesAttrs(a, owner, []);
    assert AttrFields(a, owner) + [] == AttrFields(a, owner);
    assert Str(p) + Be32(flags) + AttrFields(a, owner) == Str(p) + (Be32(flags) + AttrFields(a, owner));
  }

  lemma ReadUnderstood(t: Token, offset: nat, wanted: nat)
    requires |t| < U32_LIMIT && offset < U64_LIMIT && wanted < U32_LIMIT
    ensures ParseRequest(5, Str(t) + Be64(offset) + Be32(wanted)) == Read(t, offset, wanted)
  {
    hide Be32, Be64, Str, TakeString, TakeU32, TakeU64;
    TakesString(t, Be64(offset) + Be32(wanted));
    TakesLong(offset, Be32(wanted));
    TakesWord(wanted, []);
    assert Be32(wanted) + [] == Be32(wanted);
    assert Str(t) + Be64(offset) + Be32(wanted) == Str(t) + (Be64(offset) + Be32(wanted));
  }

  lemma AttrsUnderstood(kind: Byte, x: seq<Byte>, a: RequestedAttrs, owner: seq<Byte>)
    requires SmallAttrs(a) && |owner| == 8 && |x| < U32_LIMIT && (kind == 9 || kind == 14 ==> TextPath(x))
    ensures var r := ParseRequest(kind, Str(x) + AttrFields(a, owner));
            && (kind == 14 ==> r == MkDir(x, a)) && (kind == 9 ==> r == SetStat(x, a)) && (kind == 10 ==> r == FSetStat(x, a))
  {
    hide Str, TakePath, TakeString, TakeAttrs, AttrFields, TextPath, SmallAttrs;
    if TextPath(x) { TakesPath(x, AttrFields(a, owner)); }
    TakesString(x, AttrFields(a, owner));
    TakesAttrs(a, owner, []);
    assert AttrFields(a, owner) + [] == AttrFields(a, owner);
  }

  lemma NamesApart()
    ensures Text("limits@openssh.com") != Text("fsync@openssh.com") && Text("limits@openssh.com") != Text("statvfs@openssh.com")
    ensures Text("limits@openssh.com") != Text("fstatvfs@openssh.com") && Text("fsync@openssh.com") != Text("statvfs@openssh.com")
    ensures Text("fsync@openssh.com") != Text("fstatvfs@openssh.com") && Text("statvfs@openssh.com") != Text("fstatvfs@openssh.com")
  {
    assert Text("limits@openssh.com")[0] == 'l' as int % 256;
    assert Text("statvfs@openssh.com")[0] == 's' as int % 256;
  }

  lemma ExtensionUnderstood(r: Request, owner: seq<Byte>)
    requires Sendable(r) && (r.Limits? || r.FSync? || r.StatVfs? || r.FStatVfs?)
    ensures ParseRequest(200, Body(r, owner)) == r
  {
    hide Str, TakePath, TakeString, TextPath, Text;
    NamesApart();
    match r
    case Limits =>
      TakesString(Text("limits@openssh.com"), []);
      assert Str(Text("limits@openssh.com")) + [] == Str(Text("limits@openssh.com"));
    case FSync(t) =>
      TakesString(Text("fsync@openssh.com"), Str(t));
      TakesString(t, []);
      assert Str(t) + [] == Str(t);
    case StatVfs(p) =>
      TakesString(Text("statvfs@openssh.com"), Str(p));
      TakesPath(p, []);
      assert Str(p) + [] == Str(p);
    case FStatVfs(t) =>
      TakesString(Text("fstatvfs@openssh.com"), Str(t));
      TakesString(t, []);
      assert Str(t) + [] == Str(t);
  }

  lemma RenameUnderstood(p: seq<Byte>, q: seq<Byte>)
    requires TextPath(p) && TextPath(q)
    ensures ParseRequest(18, Str(p) + Str(q)) == Rename(p, q)
  {
    hide Str, TakePath, TextPath;
    TakesPath(p, Str(q));
    TakesPath(q, []);
    assert Str(q) + [] == Str(q);
  }

  lemma OneString(r: Request, x: seq<Byte>)
    requires |x| < U32_LIMIT
    requires r == RealPath(x) || r == Stat(x) || r == OpenDir(x) || r == Remove(x) || r == RmDir(x) || r == FStat(x) || r == ReadDir(x) || r == Close(x)
    requires Sendable(r)
    ensures ParseRequest(KindOf(r), Str(x)) == r
  {
    hide Str, TakePath, TakeString, Utf8;
    TakesString(x, []);
    assert Str(x) + [] == Str(x);
    if TextPath(x) { TakesPath(x, []); }
    PathRequests(KindOf(r), Str(x));
    TokenRequests(KindOf(r), Str(x));
  }

  /** Every request the server knows, written as the protocol has it, is the request it serves. */
  lemma Understood(r: Request, owner: seq<Byte>)
    requires Sendable(r) && |owner| == 8
    ensures ParseRequest(KindOf(r), Body(r, owner)) == r
  {
    hide ParseRequest, Str, AttrFields, TextPath, SmallAttrs, Be32, Be64;
    match r
    case RealPath(x) => OneString(r, x) by { Short(x); }
    case Stat(x) => OneString(r, x) by { Short(x); }
    case OpenDir(x) => OneString(r, x) by { Short(x); }
    case Remove(x) => OneString(r, x) by { Short(x); }
    case RmDir(x) => OneString(r, x) by { Short(x); }
    case FStat(x) => OneString(r, x);
    case ReadDir(x) => OneString(r, x);
    case Close(x) => OneString(r, x);
    case Open(p, flags, a) => OpenUnderstood(p, flags, a, owner);
    case Read(t, offset, wanted) => ReadUnderstood(t, offset, wanted);
    case MkDir(p, a) => AttrsUnderstood(14, p, a, owner) by { Short(p); }
    case SetStat(p, a) => AttrsUnderstood(9, p, a, owner) by { Short(p); }
    case FSetStat(t, a) => AttrsUnderstood(10, t, a, owner);
    case Rename(p, q) => RenameUnderstood(p, q);
    case _ => ExtensionUnderstood(r, owner);
  }

  lemma Short(p: seq<Byte>)
    ensures TextPath(p) ==> |p| < U32_LIMIT
  {
  }

  // ---------------------------------------------------------------------
  // Whole messages
  // ---------------------------------------------------------------------

  function Sent(id: nat, r: Request, owner: seq<Byte>): Message { Frame(KindOf(r), Be32(id) + Body(r, owner)) }

  /** It is a request the server serves as a whole. */
  predicate Sends(id: nat, r: Request, owner: seq<Byte>) {
    id < U32_LIMIT && Sendable(r) && |owner| == 8 && |Body(r, owner)| + 5 <= MAX_REQUEST
  }

  lemma SentIs(id: nat, r: Request, owner: seq<Byte>)
    requires Sends(id, r, owner)
    ensures var m := Sent(id, r, owner);
            && |m| >= 9 && Proper(m) && Kind(m) == KindOf(r) && IdIn(m) == id && |m| - 4 <= MAX_REQUEST && m[9..] == Body(r, owner)
  {
    hide Body, Be32, FromBe32, KindOf, Sendable, HandleLength;
    var m := Sent(id, r, owner);
    assert Kind(m) != FXP_WRITE && Kind(m) != FXP_INIT by { KindsKnown(r); }
    FrameIsHonest(KindOf(r), Be32(id) + Body(r, owner));
    FrameId(KindOf(r), id, Body(r, owner));
    assert m[9..] == Body(r, owner);
  }

  lemma KindsKnown(r: Request)
    ensures KindOf(r) != FXP_WRITE && KindOf(r) != FXP_INIT
  {
  }

  /** The server does with the message what the request is for. */
  lemma SentServed(env: Env, c: Core, id: nat, r: Request, owner: seq<Byte>)
    requires EnvOk(env) && Wf(env, c) && c.mode.Idle? && Sends(id, r, owner)
    ensures Proper(Sent(id, r, owner)) && Wf(env, Serve(env, c, id, r).core)
    ensures ServeMessage(env, c, Sent(id, r, owner)) == Completed(env, Serve(env, c, id, r))
  {
    hide EnvOk, Wf, Serve, Sent, Body, ParseRequest, Completed, FromBe32, Proper, Sendable, VersionReply;
    SentIs(id, r, owner);
    KindsKnown(r);
    var m := Sent(id, r, owner);
    Understood(r, owner);
    assert m[5..][..4] == m[5..9] && m[5..][4..] == m[9..];
    ServeOk(env, c, id, r);
  }

  /** The server's answer to one request. */
  function Asked(env: Env, c: Core, id: nat, r: Request, owner: seq<Byte>): (s: Served)
    requires EnvOk(env) && Wf(env, c) && c.mode.Idle? && Sends(id, r, owner)
    ensures Wf(env, s.core) && s.core.mode.Idle?
  {
    SentServed(env, c, id, r, owner);
    ReadyAgain(env, c, Sent(id, r, owner));
    ServeMessage(env, c, Sent(id, r, owner))
  }

  lemma AskedIs(env: Env, c: Core, id: nat, r: Request, owner: seq<Byte>)
    requires EnvOk(env) && Wf(env, c) && c.mode.Idle? && Sends(id, r, owner) && !r.Read? && !r.SetStat? && !r.FSetStat?
    ensures Asked(env, c, id, r, owner) == Serve(env, c, id, r)
  {
    hide EnvOk, Wf, Serve, Sends, ServeMessage, Sent, IsReplyTo, Proper;
    SentServed(env, c, id, r, owner);
    ServeOk(env, c, id, r);
    CompletedIdle(env, Serve(env, c, id, r));
  }

  /** WRITE: handle, offset, data. */
  function SentWrite(id: nat, token: Token, offset: nat, data: seq<Byte>): Message { Frame(6, Be32(id) + (Str(token) + (Be64(offset) + Str(data)))) }

  lemma WriteRead(id: nat, token: Token, offset: nat, data: seq<Byte>)
    requires id < U32_LIMIT && |token| <= 64 && offset < U64_LIMIT && |data| < U32_LIMIT - 100
    ensures var m := SentWrite(id, token, offset, data);
            && Proper(m) && Kind(m) == FXP_WRITE && IdIn(m) == id
            && WriteToken(m) == token && WriteOffset(m) == offset && WriteData(m) == data
  {
    hide Be32, FromBe32;
    var t := |token|;
    var rest := Str(token) + (Be64(offset) + Str(data));
    var m := SentWrite(id, token, offset, data);
    FrameIsHonest(6, Be32(id) + rest);
    FrameId(6, id, rest);
    assert m[9..] == rest;
    WriteFields(token, offset, data);
    assert m[9..13] == rest[..4] && m[13..13 + t] == rest[4..4 + t];
    assert m[13 + t..17 + t] == rest[4 + t..8 + t] && m[17 + t..21 + t] == rest[8 + t..12 + t];
    assert m[21 + t..25 + t] == rest[12 + t..16 + t] && m[25 + t..] == rest[16 + t..];
    Be32RoundTrip(t);
    Be32RoundTrip(|data|);
    Be32RoundTrip(offset / U32_LIMIT);
    Be32RoundTrip(offset % U32_LIMIT);
  }

  lemma WriteFields(token: Token, offset: nat, data: seq<Byte>)
    ensures var t, rest := |token|, Str(token) + (Be64(offset) + Str(data));
            && |rest| == 16 + t + |data| && rest[..4] == Be32(t) && rest[4..4 + t] == token
            && rest[4 + t..8 + t] == Be32(offset / U32_LIMIT) && rest[8 + t..12 + t] == Be32(offset % U32_LIMIT)
            && rest[12 + t..16 + t] == Be32(|data|) && rest[16 + t..] == data
  {
    hide Be32;
    var t, tail := |token|, Be64(offset) + Str(data);
    var rest := Str(token) + tail;
    assert rest == Be32(t) + (token + tail);
    assert (token + tail)[..t] == token && (token + tail)[t..] == tail;
    assert rest[4 + t..] == tail;
    assert tail == Be32(offset / U32_LIMIT) + (Be32(offset % U32_LIMIT) + (Be32(|data|) + data));
  }

  // ---------------------------------------------------------------------
  // Reading replies
  // ---------------------------------------------------------------------

  /** The 32-bit word of a reply at byte `at`. */
  function WordAt(reply: seq<Byte>, at: nat): nat
    requires at + 4 <= |reply|
  {
    FromBe32(reply[at..at + 4])
  }

  /** A reply with a handle: type 102, and a handle of four bytes after the id. */
  predicate GivesHandle(reply: seq<Byte>) { |reply| == 17 && reply[4] == 102 && reply[9..13] == [0, 0, 0, 4] }

  function HandleIn(reply: seq<Byte>): (token: Token)
    requires GivesHandle(reply)
    ensures |token| == 4
  {
    reply[13..]
  }

  lemma HandleRead(id: nat, token: nat)
    ensures GivesHandle(HandleReply(id, token)) && HandleIn(HandleReply(id, token)) == Be32(token)
  {
    var reply := HandleReply(id, token);
    assert Str(Be32(token)) == Be32(4) + Be32(token);
    assert reply[9..13] == Be32(4) == [0, 0, 0, 4];
    assert reply[13..] == Be32(token);
  }

  /** A status: type 101, and after the id its code, a message and an empty language tag. */
  predicate TellsStatus(reply: seq<Byte>, code: nat) {
    |reply| >= 21 && reply[4] == 101 && WordAt(reply, 9) == code && WordAt(reply, 13) == |reply| - 21 && WordAt(reply, |reply| - 4) == 0
  }

  lemma StatusRead(id: nat, s: Status)
    requires s.code < U32_LIMIT
    ensures TellsStatus(StatusReply(id, s), s.code) && !GivesHandle(StatusReply(id, s))
    ensures forall code: nat :: TellsStatus(StatusReply(id, s), code) ==> code == s.code
  {
    hide Be32, FromBe32, Str;
    Be32RoundTrip(s.code);
    Be32RoundTrip(|s.message|);
    Be32RoundTrip(0);
    MessageTail(s.message);
    var reply, n := StatusReply(id, s), |s.message|;
    var tail := Str(s.message) + Str([]);
    assert |reply| == 21 + n && reply[9..13] == Be32(s.code) && reply[13..] == tail;
    assert reply[13..17] == tail[..4];
    assert reply[17 + n..21 + n] == tail[4 + n..];
  }

  lemma MessageTail(message: seq<Byte>)
    ensures var tail, n := Str(message) + Str([]), |message|; |tail| == 8 + n && tail[..4] == Be32(n) && tail[4 + n..] == Be32(0)
  {
    hide Be32;
    assert Str([]) == Be32(0);
    assert Str(message) + Str([]) == Be32(|message|) + (message + Be32(0));
  }
}
