/** One session in which a RENAME makes the next READ through an open handle end the session inside its reply. */
module SftpStaleSession {
  import opened Bytes
  import opened FatTree
  import opened FatFile
  import opened FsPath
  import opened Wire
  import opened SftpVolume
  import opened SftpModel
  import opened SftpStream
  import opened SftpCursors
  import opened SftpFrames
  import opened SftpChunks
  import opened SftpMachine
  import opened SftpRequests
  import opened SftpStale
  import opened SftpWitness
  import SftpClient

  /** /a, which the client also calls /A. */
  const LOWER: seq<Byte> := [47, 97]
  const UPPER: seq<Byte> := [47, 65]

  const LOWER_LEAF: Name := [97]
  const UPPER_LEAF: Name := [65]

  function Volume(): Vol { Dir(META, [Entry(LOWER_LEAF, File(FileOf(16384)))]) }

  function OpenBody(): seq<Byte> { Str(LOWER) + Be32(1) + Be32(0) }

  /** 8192 bytes at `offset`, through the first handle of the session. */
  function ReadBody(offset: nat): seq<Byte> { Str(Be32(256)) + Be64(offset) + Be32(8192) }

  function RenameBody(): seq<Byte> { Str(LOWER) + Str(UPPER) }

  function Packet(kind: Byte, id: nat, body: seq<Byte>): Message { Frame(kind, Be32(id) + body) }

  function Session(): seq<Message> {
    [Packet(FXP_OPEN, 1, OpenBody()), Packet(FXP_READ, 2, ReadBody(0)), Packet(FXP_RENAME, 3, RenameBody()), Packet(FXP_READ, 4, ReadBody(8192))]
  }

  // ---------------------------------------------------------------------
  // What the messages ask for
  // ---------------------------------------------------------------------

  lemma Texts()
    ensures SftpClient.TextPath(LOWER) && SftpClient.TextPath(UPPER)
  {
    assert LOWER[1..][1..] == [] && UPPER[1..][1..] == [];
    assert Utf8(LOWER[1..]) && Utf8(UPPER[1..]);
  }

  lemma OpenAsks()
    ensures ParseRequest(FXP_OPEN, OpenBody()) == Open(LOWER, 1, NO_ATTRS)
  {
    hide Be32, Str, ParseRequest, SftpClient.TextPath;
    Texts();
    SftpClient.Understood(Open(LOWER, 1, NO_ATTRS), Zeros(8));
    assert OpenBody() == SftpClient.Body(Open(LOWER, 1, NO_ATTRS), Zeros(8));
  }

  lemma ReadAsks(offset: nat)
    requires offset < U32_LIMIT
    ensures ParseRequest(FXP_READ, ReadBody(offset)) == Read(Be32(256), offset, 8192)
  {
    hide Be32, Str, ParseRequest;
    SftpClient.Understood(Read(Be32(256), offset, 8192), Zeros(8));
  }

  lemma RenameAsks()
    ensures ParseRequest(FXP_RENAME, RenameBody()) == Rename(LOWER, UPPER)
  {
    hide Be32, Str, ParseRequest, SftpClient.TextPath;
    Texts();
    SftpClient.Understood(Rename(LOWER, UPPER), Zeros(8));
  }

  lemma Resolves()
    ensures Resolved([], LOWER) == [LOWER_LEAF] && Resolved([], UPPER) == [UPPER_LEAF]
  {
    DisplayRoundTrip([LOWER_LEAF]);
    DisplayRoundTrip([UPPER_LEAF]);
    JoinedFirst(LOWER_LEAF, []);
    JoinedFirst(UPPER_LEAF, []);
    assert [LOWER_LEAF] + [] == [LOWER_LEAF] && [UPPER_LEAF] + [] == [UPPER_LEAF];
    assert Displayed([LOWER_LEAF]) == LOWER && Displayed([UPPER_LEAF]) == UPPER;
  }

  // ---------------------------------------------------------------------
  // The states it goes through
  // ---------------------------------------------------------------------

  const HANDLE := FileSlot([], LOWER_LEAF, true, false, false)

  function Opened(): Core {
    var c := Opening(Volume(), 1);
    c.(slots := c.slots[0 := HANDLE], generation := 1, tokens := c.tokens[0 := 256])
  }

  /** The first handle's cache; no other handle is open. */
  function OneCache(k: Cache): seq<Cache> { seq(MAX_HANDLES, i => if i == 0 then k else NO_CACHE) }

  function Fresh(): Cache { Cache(16384, None, None) }

  /** The cache after the first half of the file has been read. */
  function Halfway(): Cache { Cache(16384, None, Some((8192, CursorAt(CardGeometry(), FileOf(16384), 8192)))) }

  function Moved(): Vol
    requires RenameOf(Volume(), [LOWER_LEAF], [UPPER_LEAF])
  {
    Renamed(Volume(), MovedIdentity(Card(), Volume(), [LOWER_LEAF], [UPPER_LEAF], 1), [LOWER_LEAF], [UPPER_LEAF])
  }

  lemma VolumeOk()
    ensures TreeOk(Card(), Volume()) && Volume().Dir? && FileAt(Volume(), [LOWER_LEAF]) == Some(FileOf(16384)) && |FileOf(16384).data| == 16384
    ensures Lookup(Volume(), [LOWER_LEAF]) == Some(File(FileOf(16384))) && IsDir(Volume(), [])
    ensures PathOf(HANDLE) == [LOWER_LEAF]
  {
    hide EnvOk, FileOf;
    FileOfSound(16384);
    assert Volume().entries[0].name == LOWER_LEAF && FindIn(Volume().entries, LOWER_LEAF) == 0;
    assert [LOWER_LEAF][1..] == [];
    assert Lookup(Volume(), [LOWER_LEAF]) == Lookup(Volume().entries[0].node, []);
    assert [] + [LOWER_LEAF] == [LOWER_LEAF];
  }

  lemma Renames()
    ensures RenameOf(Volume(), [LOWER_LEAF], [UPPER_LEAF]) && SamePath([UPPER_LEAF], [LOWER_LEAF]) && Card().nameOk(UPPER_LEAF)
  {
    hide EnvOk, FileOf;
    VolumeOk();
    assert Fold(LOWER_LEAF) == Fold(UPPER_LEAF);
    assert [UPPER_LEAF][..0] == [];
  }

  lemma OpenServed()
    ensures Serve(Card(), Opening(Volume(), 1), 1, Open(LOWER, 1, NO_ATTRS)) == Served(Opened(), HandleReply(1, 256))
  {
    hide EnvOk, HandleReply, Volume, OpenTarget, OpenedReply, ServeOpen, Card;
    Resolves();
    TargetOpened();
    HandleGiven();
    assert [LOWER_LEAF][..0] == [];
    OpenGoes(Card(), Opening(Volume(), 1), 1, [LOWER_LEAF], 1);
  }

  lemma OpenGoes(env: Env, c: Core, id: nat, path: Path, flags: nat)
    requires EnvOk(env) && path != []
    requires OpenTarget(env, c.root, c.nextId, path[..|path| - 1], path[|path| - 1], flags, NO_ATTRS) == Target(c.root, c.nextId)
    ensures ServeOpen(env, c, id, path, flags, NO_ATTRS) == OpenedReply(c, id, path[..|path| - 1], path[|path| - 1], flags)
  {
    hide EnvOk, OpenTarget, OpenedReply, StatusReply, Text;
  }

  lemma TargetOpened()
    ensures OpenTarget(Card(), Volume(), 1, [], LOWER_LEAF, 1, NO_ATTRS) == Target(Volume(), 1)
  {
    hide EnvOk, Lookup, FileOf, Text, Volume;
    VolumeOk();
    assert [] + [LOWER_LEAF] == [LOWER_LEAF];
  }

  lemma HandleGiven()
    ensures OpenedReply(Opening(Volume(), 1), 1, [], LOWER_LEAF, 1) == Served(Opened(), HandleReply(1, 256))
  {
    hide EnvOk, HandleReply, Volume, Text;
    assert FirstFree(Opening(Volume(), 1).slots) == 0;
  }

  lemma HandleFound(c: Core)
    requires c.slots == Opened().slots && c.tokens == Opened().tokens
    ensures SlotOf(c, Be32(256)) == Some(0)
  {
    hide Be32, FromBe32, Volume;
    Be32RoundTrip(256);
  }

  lemma ReadServed(c: Core, id: nat, offset: nat)
    requires c.slots == Opened().slots && c.tokens == Opened().tokens && offset <= 8192
    requires Lookup(c.root, [LOWER_LEAF]).Some? && SizeOf(Lookup(c.root, [LOWER_LEAF]).value) == 16384
    ensures Serve(Card(), c, id, Read(Be32(256), offset, 8192)) ==
            Served(c.(mode := Reading(ReadStream(0, offset, 8192))), DataHeader(id, 8192))
  {
    hide EnvOk, DataHeader, Lookup, Text, SlotOf, Be32, Volume;
    HandleFound(c);
    assert c.slots[0] == HANDLE && PathOf(HANDLE) == [LOWER_LEAF] by { assert [] + [LOWER_LEAF] == [LOWER_LEAF]; }
  }

  lemma RenameServed()
    requires RenameOf(Volume(), [LOWER_LEAF], [UPPER_LEAF])
    ensures Serve(Card(), Opened(), 3, Rename(LOWER, UPPER)) ==
            Served(Opened().(root := Moved(), nextId := 2, lost := OpenBelow(Opened().slots, [LOWER_LEAF])), StatusReply(3, OK))
  {
    hide EnvOk, StatusReply, Volume, Renamed, MovedIdentity, OpenBelow, FileOf, ServeRename, RenameOf;
    Resolves();
    Renames();
    assert [UPPER_LEAF][0] == UPPER_LEAF;
    RenameGoes(Card(), Opened(), 3, [LOWER_LEAF], [UPPER_LEAF]);
    assert Opened().lost + OpenBelow(Opened().slots, [LOWER_LEAF]) == OpenBelow(Opened().slots, [LOWER_LEAF]);
  }

  lemma RenameGoes(env: Env, c: Core, id: nat, source: Path, target: Path)
    requires RenameOf(c.root, source, target) && env.nameOk(target[|target| - 1])
    ensures ServeRename(env, c, id, source, target) ==
            Served(c.(root := Renamed(c.root, MovedIdentity(env, c.root, source, target, c.nextId), source, target), nextId := c.nextId + 1,
                      lost := c.lost + OpenBelow(c.slots, source)), StatusReply(id, OK))
  {
    hide StatusReply, Lookup, Text, Renamed, MovedIdentity, OpenBelow, Inside, SamePath;
  }

  // ---------------------------------------------------------------------
  // Its units of work
  // ---------------------------------------------------------------------

  /** The server with one open handle. */
  function With(c: Core, k: Cache): Machine { Machine(c, OneCache(k), NO_CACHE) }

  function HalfRead(c: Core, offset: nat): Core { c.(mode := Reading(ReadStream(0, offset, 8192))) }

  function Lost(): Core
    requires RenameOf(Volume(), [LOWER_LEAF], [UPPER_LEAF])
  {
    Opened().(root := Moved(), nextId := 2, lost := OpenBelow(Opened().slots, [LOWER_LEAF]))
  }

  lemma OpenUnit(out: seq<Byte>, rest: seq<Byte>)
    requires MachineOk(Card(), OpeningMachine(Volume(), 1))
    ensures var g := Config(OpeningMachine(Volume(), 1), out, Packet(FXP_OPEN, 1, OpenBody()) + rest);
            && Busy(Card(), g) && Then(Card(), g) == Config(With(Opened(), Fresh()), out + HandleReply(1, 256), rest)
            && MachineOk(Card(), With(Opened(), Fresh()))
  {
    hide EnvOk, MachineOk, Serve, ParseRequest, OpenBody, Busy, Then, HandleReply, Volume, Lookup;
    var c, m := Opening(Volume(), 1), OpeningMachine(Volume(), 1);
    OpenAsks();
    OpenServed();
    VolumeOk();
    assert |OpenBody()| == 14 by { BodySizes(); }
    PacketMoves(Card(), Config(m, out, Packet(FXP_OPEN, 1, OpenBody()) + rest), FXP_OPEN, 1, OpenBody(), rest);
    assert Rewritten(Card(), c, Open(LOWER, 1, NO_ATTRS)) == None;
    assert CachesAfter(c.slots, Opened().slots, Volume(), m.caches, None) == OneCache(Fresh());
  }

  lemma BodySizes()
    ensures |OpenBody()| == 14 && |RenameBody()| == 12 && forall offset: nat :: |ReadBody(offset)| == 20
  {
  }

  lemma ReadUnit(c: Core, k: Cache, id: nat, offset: nat, out: seq<Byte>, rest: seq<Byte>)
    requires MachineOk(Card(), With(c, k)) && c.mode.Idle? && c.slots == Opened().slots && c.tokens == Opened().tokens
    requires Lookup(c.root, [LOWER_LEAF]).Some? && SizeOf(Lookup(c.root, [LOWER_LEAF]).value) == 16384
    requires offset <= 8192 && id < U32_LIMIT
    ensures var g := Config(With(c, k), out, Packet(FXP_READ, id, ReadBody(offset)) + rest);
            && Busy(Card(), g) && Then(Card(), g) == Config(With(HalfRead(c, offset), k), out + DataHeader(id, 8192), rest)
            && MachineOk(Card(), With(HalfRead(c, offset), k))
  {
    hide EnvOk, MachineOk, Serve, ParseRequest, ReadBody, Busy, Then, DataHeader, Volume, Lookup;
    ReadAsks(offset);
    ReadServed(c, id, offset);
    BodySizes();
    PacketMoves(Card(), Config(With(c, k), out, Packet(FXP_READ, id, ReadBody(offset)) + rest), FXP_READ, id, ReadBody(offset), rest);
    assert Rewritten(Card(), c, Read(Be32(256), offset, 8192)) == None;
    assert CachesAfter(c.slots, c.slots, c.root, OneCache(k), None) == OneCache(k);
  }

  lemma FirstHalf(out: seq<Byte>, rest: seq<Byte>)
    requires MachineOk(Card(), With(HalfRead(Opened(), 0), Fresh()))
    ensures var g := Config(With(HalfRead(Opened(), 0), Fresh()), out, rest);
            && Busy(Card(), g) && Then(Card(), g) == Config(With(Opened(), Halfway()), out + Zeros(8192), rest)
            && MachineOk(Card(), With(Opened(), Halfway()))
  {
    hide EnvOk, MachineOk, Busy, Then, Volume, Lookup, FileOf, PositionOf, CursorAt, ReadOutcome;
    var m := With(HalfRead(Opened(), 0), Fresh());
    VolumeOk();
    ReadMoves(Card(), Config(m, out, rest));
    FirstRead();
    assert OneCache(Fresh())[0 := Halfway()] == OneCache(Halfway());
  }

  lemma FirstRead()
    ensures ReadOutcome(Card(), Volume(), [LOWER_LEAF], Fresh(), 0, 8192) == ReadResult(Some(Zeros(8192)), Halfway())
  {
    hide EnvOk, Volume, Lookup, FileOf, PositionOf;
    var f := FileOf(16384);
    VolumeOk();
    FileOfSound(16384);
    PositionRoundTrip(CardGeometry(), f, 0);
    CursorPlace(CardGeometry(), f, 0);
    assert f.data[0..8192] == Zeros(8192);
  }

  lemma RenameUnit(out: seq<Byte>, rest: seq<Byte>)
    requires MachineOk(Card(), With(Opened(), Halfway())) && RenameOf(Volume(), [LOWER_LEAF], [UPPER_LEAF])
    ensures var g := Config(With(Opened(), Halfway()), out, Packet(FXP_RENAME, 3, RenameBody()) + rest);
            && Busy(Card(), g) && Then(Card(), g) == Config(With(Lost(), Halfway()), out + StatusReply(3, OK), rest)
            && MachineOk(Card(), With(Lost(), Halfway()))
  {
    hide EnvOk, MachineOk, Serve, ParseRequest, RenameBody, Busy, Then, StatusReply, Volume, Lookup, Moved, OpenBelow, RenameOf, CursorAt;
    RenameAsks();
    RenameServed();
    BodySizes();
    PacketMoves(Card(), Config(With(Opened(), Halfway()), out, Packet(FXP_RENAME, 3, RenameBody()) + rest), FXP_RENAME, 3, RenameBody(), rest);
    assert Rewritten(Card(), Opened(), Rename(LOWER, UPPER)) == None;
    assert CachesAfter(Opened().slots, Opened().slots, Moved(), OneCache(Halfway()), None) == OneCache(Halfway());
  }

  lemma SecondHalf(out: seq<Byte>, rest: seq<Byte>)
    requires RenameOf(Volume(), [LOWER_LEAF], [UPPER_LEAF]) && MachineOk(Card(), With(HalfRead(Lost(), 8192), Halfway()))
    ensures var g := Config(With(HalfRead(Lost(), 8192), Halfway()), out, rest);
            && Busy(Card(), g) && Then(Card(), g).machine.core == Lost().(mode := Fatal) && Then(Card(), g).out == out
            && MachineOk(Card(), Then(Card(), g).machine)
  {
    hide EnvOk, MachineOk, Busy, Then, Volume, Lookup, FileOf, PositionOf, CursorAt, ReadOutcome, Moved, OpenBelow, RenameOf;
    var m := With(HalfRead(Lost(), 8192), Halfway());
    VolumeOk();
    ReadMoves(Card(), Config(m, out, rest));
    SecondRead();
    assert OneCache(Halfway())[0] == Halfway();
    assert out + [] == out;
  }

  lemma SecondRead()
    requires RenameOf(Volume(), [LOWER_LEAF], [UPPER_LEAF])
    ensures ReadOutcome(Card(), Moved(), [LOWER_LEAF], Halfway(), 8192, 8192).bytes.None?
    ensures var f := FileAt(Moved(), [LOWER_LEAF]); f.Some? && f.value.data == FileOf(16384).data
  {
    hide EnvOk, Volume, Lookup, FileOf, PositionOf, CursorAt, ReadOutcome, Moved, RenameOf, MovedIdentity, Renamed, SamePath;
    VolumeOk();
    Renames();
    assert SamePath([LOWER_LEAF], [LOWER_LEAF]) by { SameSelf([LOWER_LEAF]); }
    assert [UPPER_LEAF][0] == UPPER_LEAF;
    RenamedFile(Card(), Volume(), 1, [LOWER_LEAF], [UPPER_LEAF], [LOWER_LEAF]);
    HalfwayOk();
    RenamedRead(Card(), Volume(), 1, [LOWER_LEAF], [UPPER_LEAF], [LOWER_LEAF], Halfway(), 8192, 8192);
    assert Moved() == Renamed(Volume(), MovedIdentity(Card(), Volume(), [LOWER_LEAF], [UPPER_LEAF], 1), [LOWER_LEAF], [UPPER_LEAF]) by { MovedIs(); }
  }

  lemma MovedIs()
    requires RenameOf(Volume(), [LOWER_LEAF], [UPPER_LEAF])
    ensures Moved() == Renamed(Volume(), MovedIdentity(Card(), Volume(), [LOWER_LEAF], [UPPER_LEAF], 1), [LOWER_LEAF], [UPPER_LEAF])
  {
    hide Volume, RenameOf, MovedIdentity, Renamed;
  }

  lemma SameSelf(p: Path)
    ensures SamePath(p, p)
  {
  }

  lemma HalfwayOk()
    ensures CacheOk(Card().g, FileOf(16384), Halfway())
  {
    hide EnvOk, FileOf;
    VolumeOk();
  }

  lemma StepThen(env: Env, g: Config, n: nat, d: Config)
    requires EnvOk(env) && Busy(env, g) && Reaches(env, Then(env, g), n, d)
    ensures Reaches(env, g, n + 1, d)
  {
    hide EnvOk, Busy, Then;
  }

  lemma Joins()
    ensures var s := Session(); Concat(s) == s[0] + (s[1] + (s[2] + (s[3] + [])))
  {
    hide Packet, OpenBody, ReadBody, RenameBody;
    var s := Session();
    assert s[1..][1..][1..][1..] == [];
  }

  lemma AllAreProper()
    ensures AllProper(Session())
  {
    hide OpenBody, ReadBody, RenameBody, FromBe32, Be32;
    BodySizes();
    PacketProper(FXP_OPEN, 1, OpenBody());
    PacketProper(FXP_READ, 2, ReadBody(0));
    PacketProper(FXP_RENAME, 3, RenameBody());
    PacketProper(FXP_READ, 4, ReadBody(8192));
  }

  lemma PacketProper(kind: Byte, id: nat, body: seq<Byte>)
    requires kind != FXP_WRITE && |body| < 1000
    ensures Proper(Packet(kind, id, body))
  {
    hide FromBe32, Be32;
    FrameIsHonest(kind, Be32(id) + body);
  }

  lemma OpenedIs()
    ensures Opened().mode.Idle? && Opened().root == Volume() && SizeOf(File(FileOf(16384))) == 16384
  {
    hide Volume, FileOf;
    FileOfSound(16384);
  }

  lemma LostIs()
    requires RenameOf(Volume(), [LOWER_LEAF], [UPPER_LEAF])
    ensures Lost().mode.Idle? && Lost().slots == Opened().slots && Lost().tokens == Opened().tokens && Lost().root == Moved()
    ensures Lookup(Moved(), [LOWER_LEAF]).Some? && SizeOf(Lookup(Moved(), [LOWER_LEAF]).value) == 16384
  {
    hide Volume, FileOf, Moved, Lookup, RenameOf, ReadOutcome;
    SecondRead();
    FileOfSound(16384);
  }

  lemma SessionIs()
    ensures Session() == [Packet(FXP_OPEN, 1, OpenBody()), Packet(FXP_READ, 2, ReadBody(0)), Packet(FXP_RENAME, 3, RenameBody()),
                          Packet(FXP_READ, 4, ReadBody(8192))]
  {
    hide Packet, OpenBody, ReadBody, RenameBody;
  }

  /** The four replies, the last without its payload. */
  function Sent(): seq<Byte> { HandleReply(1, 256) + DataHeader(2, 8192) + Zeros(8192) + StatusReply(3, OK) + DataHeader(4, 8192) }

  function Start(): Config { Config(OpeningMachine(Volume(), 1), [], Concat(Session())) }

  /** The session is at its end inside its last reply, and the file is all there, under both names. */
  ghost predicate EndsInsideReply(d: Config) {
    && d.out == Sent() && d.machine.core.mode.Fatal?
    && FileAt(d.machine.core.root, [LOWER_LEAF]).Some? && FileAt(d.machine.core.root, [LOWER_LEAF]).value.data == Zeros(16384)
  }

  lemma EndIs(d: Config)
    requires RenameOf(Volume(), [LOWER_LEAF], [UPPER_LEAF])
    requires d.machine.core.mode.Fatal? && d.machine.core.root == Moved()
    requires d.out == [] + HandleReply(1, 256) + DataHeader(2, 8192) + Zeros(8192) + StatusReply(3, OK) + DataHeader(4, 8192)
    ensures EndsInsideReply(d)
  {
    hide HandleReply, DataHeader, StatusReply, Moved, Volume, RenameOf, Lookup, FileOf, ReadOutcome;
    SecondRead();
    FileOfSound(16384);
    assert [] + HandleReply(1, 256) == HandleReply(1, 256);
  }

  lemma SixUnits()
    requires MachineOk(Card(), OpeningMachine(Volume(), 1)) && RenameOf(Volume(), [LOWER_LEAF], [UPPER_LEAF])
    ensures exists d :: Reaches(Card(), Start(), 6, d) && EndsInsideReply(d)
  {
    hide EnvOk, MachineOk, Busy, Then, Reaches, Volume, Lookup, Opened, Lost, Halfway, Fresh, With, HalfRead, Packet, OpenBody, ReadBody,
         RenameBody, Session, Concat, HandleReply, DataHeader, StatusReply, Zeros, RenameOf, Moved, FileOf, OpeningMachine, EndsInsideReply, Sent;
    var env := Card();
    Joins();
    SessionIs();
    var p2, p3, p4 := Packet(FXP_READ, 2, ReadBody(0)), Packet(FXP_RENAME, 3, RenameBody()), Packet(FXP_READ, 4, ReadBody(8192));
    var r3 := p4 + [];
    var r2 := p3 + r3;
    var r1 := p2 + r2;
    VolumeOk();
    OpenedIs();
    OpenUnit([], r1);
    var o1 := [] + HandleReply(1, 256);
    ReadUnit(Opened(), Fresh(), 2, 0, o1, r2);
    var o2 := o1 + DataHeader(2, 8192);
    FirstHalf(o2, r2);
    var o3 := o2 + Zeros(8192);
    RenameUnit(o3, r3);
    var o4 := o3 + StatusReply(3, OK);
    LostIs();
    ReadUnit(Lost(), Halfway(), 4, 8192, o4, []);
    var o5 := o4 + DataHeader(4, 8192);
    SecondHalf(o5, []);
    var g5 := Config(With(HalfRead(Lost(), 8192), Halfway()), o5, []);
    var d := Then(env, g5);
    NoSteps(env, d);
    StepThen(env, g5, 0, d);
    StepThen(env, Config(With(Lost(), Halfway()), o4, r3), 1, d);
    StepThen(env, Config(With(Opened(), Halfway()), o3, r2), 2, d);
    StepThen(env, Config(With(HalfRead(Opened(), 0), Fresh()), o2, r2), 3, d);
    StepThen(env, Config(With(Opened(), Fresh()), o1, r1), 4, d);
    StepThen(env, Config(OpeningMachine(Volume(), 1), [], Packet(FXP_OPEN, 1, OpenBody()) + r1), 5, d);
    FatalIs(Lost());
    EndIs(d);
  }

  lemma NoSteps(env: Env, d: Config)
    requires EnvOk(env) && MachineOk(env, d.machine)
    ensures Reaches(env, d, 0, d)
  {
    hide EnvOk, MachineOk;
  }

  lemma FatalIs(c: Core)
    ensures c.(mode := Fatal).mode.Fatal? && c.(mode := Fatal).root == c.root
  {
  }

  /**
   OPEN, READ of the first half, RENAME to another case of the name, READ of the second half: six units
   of work lead from the opening of the session to its end inside the last reply.
   */
  lemma RenamedReadEnds()
    ensures EnvOk(Card()) && TreeOk(Card(), Volume()) && Volume().Dir? && AllProper(Session()) && FileAt(Volume(), [LOWER_LEAF]) == Some(FileOf(16384))
    ensures exists d :: Reaches(Card(), Start(), 6, d) && EndsInsideReply(d)
  {
    hide *;
    VolumeOk();
    Renames();
    StartOk();
    AllAreProper();
    SixUnits();
  }

  lemma StartOk()
    requires TreeOk(Card(), Volume()) && Volume().Dir?
    ensures MachineOk(Card(), OpeningMachine(Volume(), 1))
  {
    hide EnvOk, TreeOk, Volume, Packet, OpenBody, ReadBody, RenameBody;
  }
}
