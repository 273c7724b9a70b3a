/** What a handle is good for: the flags OPEN was given, seen in the replies to later requests through the token it answered with. */
module SftpHandles {
  import opened Bytes
  import opened FatTree
  import opened FatFile
  import opened FsPath
  import opened Wire
  import opened SftpVolume
  import opened SftpModel
  import opened SftpStream
  import opened SftpFollows
  import opened SftpReplies
  import opened SftpWrites
  import opened SftpRequests
  import opened SftpLaws
  import opened SftpEntries
  import opened SftpRefusals
  import opened SftpTokens
  import opened SftpClient
  import opened SftpAttrs
  import opened FatTime

  // ---------------------------------------------------------------------
  // A handle stays what it is until it is closed
  // ---------------------------------------------------------------------

  /** The token is that of an open handle on this file. */
  predicate Holding(c: Core, token: Token, s: Slot) { SlotOf(c, token).Some? && c.slots[SlotOf(c, token).value] == s && s.FileSlot? }

  lemma SameNumber(a: Token, b: Token)
    requires |a| == 4 && |b| == 4 && FromBe32(a) == FromBe32(b)
    ensures a == b
  {
    SameDigits(a[0], a[1], a[2], a[3], b[0], b[1], b[2], b[3]);
  }

  lemma SameDigits(a: Byte, b: Byte, c: Byte, d: Byte, w: Byte, x: Byte, y: Byte, z: Byte)
    requires a * 0x100_0000 + b * 0x1_0000 + c * 256 + d == w * 0x100_0000 + x * 0x1_0000 + y * 256 + z
    ensures a == w && b == x && c == y && d == z
  {
  }

  /** The handle in slot `i` is as it was, or closed. */
  predicate SlotKept(c: Core, d: Core, i: nat) {
    |d.slots| == |c.slots| && (i < |c.slots| && c.slots[i].FileSlot? ==> d.slots[i] == c.slots[i] || d.slots[i].Free?)
  }

  lemma DispatchSlot(env: Env, c: Core, m: Message, i: nat)
    requires EnvOk(env) && Wf(env, c) && c.mode.Idle? && |m| - 4 <= MAX_REQUEST
    ensures SlotKept(c, Dispatch(env, c, Kind(m), m[5..]).core, i)
  {
    hide EnvOk, Wf, Serve, VersionReply, FromBe32, ParseRequest;
    if Kind(m) != FXP_INIT && |m| >= 9 && i < |c.slots| {
      assert m[5..][4..] == m[9..];
      ServeSlots(env, c, TakeU32(m[5..]).value, ParseRequest(Kind(m), m[9..]), i);
    } else if |m| >= 9 && Kind(m) != FXP_INIT {
      SlotCount(env, c, TakeU32(m[5..]).value, ParseRequest(Kind(m), TakeU32(m[5..]).rest));
    }
  }

  lemma SlotCount(env: Env, c: Core, id: nat, r: Request)
    requires EnvOk(env) && Wf(env, c) && c.mode.Idle?
    ensures |Serve(env, c, id, r).core.slots| == |c.slots|
  {
    hide EnvOk, Serve, TreeOk, ModeOk;
    ServeOk(env, c, id, r);
  }

  lemma MessageSlot(env: Env, c: Core, m: Message, i: nat)
    requires EnvOk(env) && Wf(env, c) && c.mode.Idle? && Proper(m)
    ensures SlotKept(c, ServeMessage(env, c, m).core, i)
  {
    hide EnvOk, Wf, Dispatch, Completed, FromBe32, StatusReply, CheckWrite, WriteReply, HandleLength;
    if Kind(m) == FXP_WRITE {
      WriteStartedOk(env, c, m);
      PayloadTable(env, WriteStarted(c, m), WriteData(m));
    } else if |m| - 4 <= MAX_REQUEST {
      DispatchOk(env, c, Kind(m), m[5..]);
      DispatchSlot(env, c, m, i);
      CompletedTable(env, Dispatch(env, c, Kind(m), m[5..]));
    }
  }

  /** Any message but a CLOSE of it leaves a handle as it is. */
  lemma HandleStays(env: Env, c: Core, m: Message, token: Token, s: Slot)
    requires EnvOk(env) && Wf(env, c) && c.mode.Idle? && Proper(m) && Holding(c, token, s) && ClosedToken(m) != Some(token)
    ensures Holding(ServeMessage(env, c, m).core, token, s)
  {
    hide EnvOk, Wf, ServeMessage, Proper, ClosedToken, FromBe32;
    var d, i := ServeMessage(env, c, m).core, SlotOf(c, token).value;
    MessageTable(env, c, m);
    MessageSlot(env, c, m, i);
    var closed := ClosedToken(m);
    if closed.Some? && ClosesSlot(c, d, closed.value) && SlotOf(c, closed.value).value == i {
      SameNumber(token, closed.value);
    } else if !SameTable(c, d) && NewHandle(c, d) {
      var k :| OpensSlot(c, d, k);
    }
  }

  lemma {:induction false} HandleKept(env: Env, c: Core, messages: seq<Message>, token: Token, s: Slot)
    requires EnvOk(env) && Wf(env, c) && c.mode.Idle? && AllProper(messages) && Holding(c, token, s)
    requires forall i :: 0 <= i < |messages| ==> ClosedToken(messages[i]) != Some(token)
    ensures Holding(Conversation(env, c, messages).core, token, s)
    decreases |messages|
  {
    hide EnvOk, Wf, ServeMessage, Proper, IsReplyTo, Holding, ClosedToken;
    if messages != [] {
      ReadyAgain(env, c, messages[0]);
      HandleStays(env, c, messages[0], token, s);
      HandleKept(env, ServeMessage(env, c, messages[0]).core, messages[1..], token, s);
    }
  }

  // ---------------------------------------------------------------------
  // OPEN
  // ---------------------------------------------------------------------

  /** A file that the flags open (WRITE 2, CREAT 8, EXCL 32), or a name under which they make one. */
  predicate CanOpen(env: Env, root: Vol, path: Path, flags: nat) {
    path != [] &&
    match FileAt(root, path)
    case Some(f) => !(flags / 8 % 2 == 1 && flags / 32 % 2 == 1) && !(flags / 2 % 2 == 1 && f.meta.readOnly)
    case None => flags / 2 % 2 == 1 && flags / 8 % 2 == 1 && CanMake(env, root, path)
  }

  /** The slot an OPEN makes its handle in. */
  function SlotFor(path: Path, flags: nat): Slot
    requires path != []
  {
    FileSlot(path[..|path| - 1], path[|path| - 1], flags % 2 == 1 || flags / 2 % 2 == 0, flags / 2 % 2 == 1, flags / 4 % 2 == 1)
  }

  predicate SlotLeft(c: Core) { exists i :: 0 <= i < |c.slots| && c.slots[i].Free? }

  lemma TargetGiven(env: Env, root: Vol, nextId: nat, path: Path, flags: nat, a: RequestedAttrs)
    requires EnvOk(env) && path != []
    ensures var t := OpenTarget(env, root, nextId, path[..|path| - 1], path[|path| - 1], flags, a);
            && (t.Target? <==> CanOpen(env, root, path, flags))
            && (t.Denied? ==> 0 < t.status.code < 256)
  {
    hide EnvOk, Lookup, Text, NewMeta, Added, Put, Shrunk, SlotFor;
    var parent, leaf := path[..|path| - 1], path[|path| - 1];
    assert parent + [leaf] == path;
    if Lookup(root, path).Some? { LookupPrefix(root, parent, [leaf]); }
  }

  lemma SlotGiven(c: Core, id: nat, path: Path, flags: nat)
    requires path != [] && |c.slots| == |c.tokens| <= 256
    ensures var s := OpenedReply(c, id, path[..|path| - 1], path[|path| - 1], flags);
            && (GivesHandle(s.out) <==> SlotLeft(c))
            && (!GivesHandle(s.out) ==> s.core == c && exists status: Status :: 0 < status.code < 256 && s.out == StatusReply(id, status))
            && (GivesHandle(s.out) ==> s.core.root == c.root && Holding(s.core, HandleIn(s.out), SlotFor(path, flags)))
  {
    hide Text, StatusReply, HandleReply, GivesHandle, HandleIn, Be32, FromBe32, TokenFor;
    var s, a := OpenedReply(c, id, path[..|path| - 1], path[|path| - 1], flags), Allocated(c, SlotFor(path, flags));
    if a.None? {
      var full := Failure("Too many open handles");
      StatusRead(id, full);
      assert s.out == StatusReply(id, full);
    } else {
      var (d, i) := a.value;
      HandleRead(id, d.tokens[i]);
      TokenFits(d.generation, i);
      Be32RoundTrip(d.tokens[i]);
    }
  }

  lemma TokenFits(generation: nat, i: nat)
    requires generation < GENERATIONS && i < 256
    ensures TokenFor(generation, i) < U32_LIMIT && TokenFor(generation, i) % 256 == i
  {
    TokenNamesSlot(generation, i);
  }

  lemma OpenServed(env: Env, c: Core, id: nat, path: Path, flags: nat, a: RequestedAttrs)
    requires EnvOk(env) && Wf(env, c) && c.mode.Idle?
    ensures var s := ServeOpen(env, c, id, path, flags, a);
            && (GivesHandle(s.out) <==> Storable(env.clock, a) && CanOpen(env, c.root, path, flags) && SlotLeft(c))
            && (!GivesHandle(s.out) ==> exists status: Status :: 0 < status.code < 256 && s.out == StatusReply(id, status))
            && (GivesHandle(s.out) ==>
                  Holding(s.core, HandleIn(s.out), SlotFor(path, flags)) &&
                  var t := OpenTarget(env, c.root, c.nextId, path[..|path| - 1], path[|path| - 1], flags, a);
                  t.Target? && s.core.root == t.root)
  {
    hide EnvOk, Storable, CanOpen, Text, StatusReply, HandleReply, GivesHandle, HandleIn, AttrsRefusal, OpenTarget, OpenedReply, SlotFor,
         Holding, TreeOk;
    StorableExact(env, a);
    if AttrsRefusal(env, a).Some? {
      StatusRead(id, AttrsRefusal(env, a).value);
    } else if path == [] {
      RootNotOpened(env, c.root, flags);
      StatusRead(id, Failure("Is a directory"));
    } else {
      TargetGiven(env, c.root, c.nextId, path, flags, a);
      var t := OpenTarget(env, c.root, c.nextId, path[..|path| - 1], path[|path| - 1], flags, a);
      if t.Target? {
        SlotGiven(c.(root := t.root, nextId := t.nextId), id, path, flags);
      } else {
        StatusRead(id, t.status);
      }
    }
  }

  lemma RootNotOpened(env: Env, root: Vol, flags: nat)
    ensures !CanOpen(env, root, [], flags)
  {
  }

  /** An OPEN, and the messages that come after it. */
  datatype Use = Use(id: nat, path: seq<Byte>, flags: nat, attrs: RequestedAttrs, owner: seq<Byte>, later: seq<Message>) {
    function Asks(): Request { Open(path, flags, attrs) }

    function Target(): Path { Resolved([], path) }
  }

  function OpenedBy(env: Env, c: Core, u: Use): (s: Served)
    requires EnvOk(env) && Wf(env, c) && c.mode.Idle? && Sends(u.id, u.Asks(), u.owner)
    ensures Wf(env, s.core) && s.core.mode.Idle?
  {
    Asked(env, c, u.id, u.Asks(), u.owner)
  }

  lemma OpenedIs(env: Env, c: Core, u: Use)
    requires EnvOk(env) && Wf(env, c) && c.mode.Idle? && Sends(u.id, u.Asks(), u.owner)
    ensures OpenedBy(env, c, u) == ServeOpen(env, c, u.id, u.Target(), u.flags, u.attrs)
  {
    hide EnvOk, Wf, ServeOpen, Sends, Asked, Resolved;
    AskedIs(env, c, u.id, u.Asks(), u.owner);
  }

  /**
   OPEN gives a handle exactly where there is a file the flags open or a name they can make one under, and a
   handle is free; then the file holds what it held, or nothing.
   */
  lemma OpenGives(env: Env, c: Core, u: Use)
    requires EnvOk(env) && Wf(env, c) && c.mode.Idle? && Sends(u.id, u.Asks(), u.owner)
    ensures var s := OpenedBy(env, c, u);
            && (GivesHandle(s.out) <==> Storable(env.clock, u.attrs) && CanOpen(env, c.root, u.Target(), u.flags) && SlotLeft(c))
            && (!GivesHandle(s.out) ==> Refusal(s.out))
            && (GivesHandle(s.out) ==>
                  var was, now := FileAt(c.root, u.Target()), FileAt(s.core.root, u.Target());
                  && now.Some?
                  && now.value.data == if was.None? || (u.flags / 2 % 2 == 1 && u.flags / 16 % 2 == 1) then [] else was.value.data)
  {
    hide EnvOk, Wf, Storable, CanOpen, Sends, StatusReply, GivesHandle, Refusal, OpenTarget, ServeOpen, OpenedBy, SlotFor, Holding,
         Resolved, SlotLeft;
    var path := u.Target();
    OpenedIs(env, c, u);
    OpenServed(env, c, u.id, path, u.flags, u.attrs);
    var s := ServeOpen(env, c, u.id, path, u.flags, u.attrs);
    if GivesHandle(s.out) {
      RootNotOpened(env, c.root, u.flags);
      var parent, leaf := path[..|path| - 1], path[|path| - 1];
      assert parent + [leaf] == path;
      OpenLaw(env, c.root, c.nextId, parent, leaf, u.flags, u.attrs);
    } else {
      var status: Status :| 0 < status.code < 256 && s.out == StatusReply(u.id, status);
      StatusRefuses(u.id, status);
    }
  }

  /** OPEN that makes a file, and then STAT: an empty file with what was asked for, and for the rest what the volume gives new entries. */
  lemma CreateThenStat(env: Env, c: Core, u: Use, ask: nat)
    requires EnvOk(env) && Wf(env, c) && c.mode.Idle? && OffsetInRange(env.clock) && Sends(u.id, u.Asks(), u.owner) && Sends(ask, Stat(u.path), u.owner)
    requires GivesHandle(OpenedBy(env, c, u).out) && FileAt(c.root, u.Target()).None?
    ensures var now := Asked(env, OpenedBy(env, c, u).core, ask, Stat(u.path), u.owner).out;
            TellsAttrs(now) && AsAsked(env.clock, u.attrs.(size := None), false, Unasked(env, false), ShownBy(now))
  {
    hide EnvOk, Wf, Storable, CanOpen, Sends, StatusReply, GivesHandle, OpenTarget, ServeOpen, OpenedBy, SlotFor, Holding, Resolved,
         SlotLeft, NewMeta,
         TellsAttrs, ShownBy, TimesKept, NoWriteBits, ModeFor, ReportedAtime, ReportedMtime, Asked;
    var path, a := u.Target(), u.attrs;
    OpenedIs(env, c, u);
    OpenServed(env, c, u.id, path, u.flags, a);
    RootNotOpened(env, c.root, u.flags);
    assert path[..|path| - 1] + [path[|path| - 1]] == path;
    OpenLaw(env, c.root, c.nextId, path[..|path| - 1], path[|path| - 1], u.flags, a);
    StatTells(env, OpenedBy(env, c, u).core, ask, u.path, u.owner);
    AttrsSmall(u.id, u.path, a, u.owner);
    TimesTold(env, env.newMeta, a);
    WritableTold(env, env.newMeta, a);
  }

  // ---------------------------------------------------------------------
  // Requests through the handle
  // ---------------------------------------------------------------------

  /** The OPEN was answered with a handle, and nothing after it has closed that handle. */
  ghost predicate InUse(env: Env, c: Core, u: Use) {
    && EnvOk(env) && Wf(env, c) && c.mode.Idle? && Sends(u.id, u.Asks(), u.owner) && AllProper(u.later)
    && GivesHandle(OpenedBy(env, c, u).out)
    && forall i :: 0 <= i < |u.later| ==> ClosedToken(u.later[i]) != Some(HandleIn(OpenedBy(env, c, u).out))
  }

  function HandleOf(env: Env, c: Core, u: Use): (token: Token)
    requires InUse(env, c, u)
    ensures |token| == 4
  {
    HandleIn(OpenedBy(env, c, u).out)
  }

  /** The session after those messages. */
  function Since(env: Env, c: Core, u: Use): (d: Core)
    requires InUse(env, c, u)
    ensures Wf(env, d) && d.mode.Idle?
  {
    Conversation(env, OpenedBy(env, c, u).core, u.later).core
  }

  lemma StillHeld(env: Env, c: Core, u: Use)
    requires InUse(env, c, u)
    ensures u.Target() != [] && Holding(Since(env, c, u), HandleOf(env, c, u), SlotFor(u.Target(), u.flags))
  {
    hide EnvOk, Wf, Storable, CanOpen, Sends, ServeOpen, Conversation, Holding, SlotFor, Resolved, ClosedToken, OpenedBy, GivesHandle,
         SlotLeft, AllProper;
    OpenedIs(env, c, u);
    OpenServed(env, c, u.id, u.Target(), u.flags, u.attrs);
    RootNotOpened(env, c.root, u.flags);
    HandleKept(env, OpenedBy(env, c, u).core, u.later, HandleOf(env, c, u), SlotFor(u.Target(), u.flags));
  }

  lemma SlotPath(path: Path, flags: nat)
    requires path != []
    ensures PathOf(SlotFor(path, flags)) == path
  {
  }

  /** Whether a WRITE is refused, by its handle, its range and the file. */
  predicate WriteRefused(flags: nat, f: Option<FatFile>, offset: nat, length: nat) {
    || flags / 2 % 2 == 0 || offset + length > 0xFFFF_FFFF
    || (length > 0 && (f.None? || f.value.meta.readOnly || (flags / 4 % 2 == 1 && |f.value.data| + length > 0xFFFF_FFFF)))
  }

  lemma CheckFailed(env: Env, c: Core, m: Message)
    requires EnvOk(env) && Wf(env, c) && c.mode.Idle? && Proper(m) && Kind(m) == FXP_WRITE
    requires CheckWrite(c, WriteToken(m), WriteOffset(m), |WriteData(m)|).Fail?
    ensures ServeMessage(env, c, m).out == StatusReply(IdIn(m), CheckWrite(c, WriteToken(m), WriteOffset(m), |WriteData(m)|).status)
  {
    hide EnvOk, Wf, CheckWrite, FromBe32, StatusReply, AfterPayload;
    WriteStartedOk(env, c, m);
    DroppedPayload(env, WriteStarted(c, m), WriteData(m));
  }

  lemma Checked(c: Core, token: Token, path: Path, flags: nat, offset: nat, length: nat)
    requires path != [] && Holding(c, token, SlotFor(path, flags))
    ensures var check := CheckWrite(c, token, offset, length);
            && (check.Fail? <==> flags / 2 % 2 == 0 || offset + length > 0xFFFF_FFFF)
            && (check.Fail? ==> 0 < check.status.code < 256)
            && (check.Pass? ==> check.slot < |c.slots| && c.slots[check.slot] == SlotFor(path, flags))
  {
    hide SlotOf, Text;
  }

  lemma StoreRefused(env: Env, root: Vol, path: Path, append: bool, offset: nat, data: seq<Byte>)
    requires EnvOk(env) && offset + |data| <= U32_TOP
    ensures var r, f := StoreChunk(env, root, path, append, offset, data), FileAt(root, path);
            && (r.Refused? <==> f.None? || f.value.meta.readOnly || (append && |f.value.data| + |data| > 0xFFFF_FFFF))
            && (r.Refused? ==> 0 < r.status.code < 256)
  {
    hide EnvOk, Text, Put, Written, Extended, Lookup;
  }

  lemma WriteServedBy(env: Env, d: Core, m: Message, path: Path, flags: nat)
    requires EnvOk(env) && Wf(env, d) && d.mode.Idle? && Proper(m) && Kind(m) == FXP_WRITE
    requires path != [] && Holding(d, WriteToken(m), SlotFor(path, flags))
    ensures var s, f, data, offset := ServeMessage(env, d, m), FileAt(d.root, path), WriteData(m), WriteOffset(m);
            if WriteRefused(flags, f, offset, |data|) then exists status: Status :: 0 < status.code < 256 && s.out == StatusReply(IdIn(m), status)
            else
              && s.out == StatusReply(IdIn(m), OK) && (data == [] ==> s.core == d)
              && (data != [] ==>
                    var r := StoreChunk(env, d.root, path, flags / 4 % 2 == 1, offset, data);
                    r.Stored? && s.core == d.(root := r.root))
  {
    hide EnvOk, Wf, CheckWrite, FromBe32, StatusReply, AfterPayload, SlotFor, Holding, ServeMessage, HandleLength, WriteToken, WriteOffset, WriteData,
         StoreChunk, Proper, IdIn;
    Checked(d, WriteToken(m), path, flags, WriteOffset(m), |WriteData(m)|);
    if CheckWrite(d, WriteToken(m), WriteOffset(m), |WriteData(m)|).Fail? {
      CheckFailed(env, d, m);
    } else {
      WriteLaw(env, d, m);
      SlotPath(path, flags);
      assert SlotFor(path, flags).append == (flags / 4 % 2 == 1) by { SlotAppends(path, flags); }
      StoreRefused(env, d.root, path, flags / 4 % 2 == 1, WriteOffset(m), WriteData(m));
    }
  }

  lemma SlotAppends(path: Path, flags: nat)
    requires path != []
    ensures SlotFor(path, flags).FileSlot? && SlotFor(path, flags).append == (flags / 4 % 2 == 1)
  {
  }

  /** What a file holds after a WRITE: with APPEND (4) its old bytes and the data, without it the data laid over them and zeros up to the offset. */
  function Wrote(flags: nat, was: seq<Byte>, offset: nat, data: seq<Byte>): seq<Byte> {
    if flags / 4 % 2 == 1 then was + data else Overlay(ZeroExtend(was, offset), offset, data)
  }

  /** A WRITE through the handle, as a client sends it then. */
  function WriteBy(env: Env, c: Core, u: Use, id: nat, offset: nat, data: seq<Byte>): Served
    requires InUse(env, c, u) && id < U32_LIMIT && offset < U64_LIMIT && |data| < U32_LIMIT - 100
  {
    WriteRead(id, HandleOf(env, c, u), offset, data);
    ServeMessage(env, Since(env, c, u), SentWrite(id, HandleOf(env, c, u), offset, data))
  }

  /**
   A WRITE through the handle is refused exactly if OPEN was not asked for WRITE, or the range or the file
   forbids it. Otherwise it is told so, the data is in the file at the path OPEN was given, and other files stay as they are.
   */
  lemma WriteThrough(env: Env, c: Core, u: Use, id: nat, offset: nat, data: seq<Byte>)
    requires InUse(env, c, u) && id < U32_LIMIT && offset < U64_LIMIT && |data| < U32_LIMIT - 100
    ensures var d, s := Since(env, c, u), WriteBy(env, c, u, id, offset, data);
            var f := FileAt(d.root, u.Target());
            && (Refusal(s.out) <==> WriteRefused(u.flags, f, offset, |data|))
            && (!Refusal(s.out) ==> TellsStatus(s.out, 0) && (data == [] ==> s.core == d))
            && (!Refusal(s.out) && data != [] ==>
                  && f.Some? && FileAt(s.core.root, u.Target()).Some?
                  && FileAt(s.core.root, u.Target()).value.data == Wrote(u.flags, f.value.data, offset, data)
                  && forall q :: FileAt(d.root, q).Some? && !SamePath(q, u.Target()) ==> FileAt(s.core.root, q) == FileAt(d.root, q))
  {
    hide EnvOk, Wf, InUse, Since, HandleOf, Holding, SlotFor, FromBe32, StatusReply, SentWrite, ServeMessage, StoreChunk, SamePath,
         Refusal, Proper, IdIn,
         WriteRefused, WriteToken, WriteOffset, WriteData, TellsStatus, Resolved, FileAt;
    var d, m, path := Since(env, c, u), SentWrite(id, HandleOf(env, c, u), offset, data), u.Target();
    UseIsOk(env, c, u);
    WriteRead(id, HandleOf(env, c, u), offset, data);
    HasId(m);
    StillHeld(env, c, u);
    WriteServedBy(env, d, m, path, u.flags);
    if WriteRefused(u.flags, FileAt(d.root, path), offset, |data|) {
      var status: Status :| 0 < status.code < 256 && ServeMessage(env, d, m).out == StatusReply(IdIn(m), status);
      StatusRefuses(id, status);
    } else {
      StatusRefuses(id, OK);
      StatusRead(id, OK);
      if data != [] {
        StoredContents(env, d.root, path, u.flags / 4 % 2 == 1, offset, data);
        forall q | FileAt(d.root, q).Some? && !SamePath(q, path)
          ensures FileAt(ServeMessage(env, d, m).core.root, q) == FileAt(d.root, q)
        {
          WriteKeeps(env, d.root, path, u.flags / 4 % 2 == 1, offset, data, q);
        }
      }
    }
  }

  lemma UseIsOk(env: Env, c: Core, u: Use)
    requires InUse(env, c, u)
    ensures EnvOk(env)
  {
    hide EnvOk;
  }

  // ---------------------------------------------------------------------
  // READ
  // ---------------------------------------------------------------------

  /** A reply with data: type 103, and after the id how many bytes, and the bytes. */
  predicate TellsData(reply: seq<Byte>, data: seq<Byte>) {
    |reply| == 13 + |data| && reply[4] == 103 && WordAt(reply, 9) == |data| && reply[13..] == data
  }

  lemma DataRead(id: nat, data: seq<Byte>)
    requires |data| < U32_LIMIT
    ensures TellsData(DataReply(id, data), data) && !Refusal(DataReply(id, data))
  {
    hide Be32, FromBe32;
    Be32RoundTrip(|data|);
    assert DataReply(id, data)[9..13] == Be32(|data|);
  }

  /** Whether a READ is refused, by its handle and the file; the end of a file is an error status too. */
  predicate ReadRefused(flags: nat, f: Option<FatFile>, offset: nat, wanted: nat) {
    (flags / 2 % 2 == 1 && flags % 2 == 0) || f.None? || offset >= |f.value.data| || wanted == 0
  }

  lemma ReadServedBy(env: Env, d: Core, id: nat, token: Token, offset: nat, wanted: nat, path: Path, flags: nat)
    requires EnvOk(env) && Wf(env, d) && d.mode.Idle? && id < U32_LIMIT && path != [] && Holding(d, token, SlotFor(path, flags))
    ensures var s, f := ServeRead(d, id, token, offset, wanted), FileAt(d.root, path);
            Wf(env, s.core) &&
            if ReadRefused(flags, f, offset, wanted) then
              s.core == d && Completed(env, s) == s && exists status: Status :: 0 < status.code < 256 && s.out == StatusReply(id, status)
            else Completed(env, s) == Served(d, DataReply(id, f.value.data[offset..offset + Min(|f.value.data| - offset, Min(wanted, 32768))]))
  {
    hide EnvOk, Wf, StatusReply, SlotOf, DataReply, Completed, ServeRead, Lookup;
    SlotPath(path, flags);
    ReadOk(env, d, id, token, offset, wanted);
    if ReadRefused(flags, FileAt(d.root, path), offset, wanted) {
      ReadDenied(d, id, token, offset, wanted, path, flags);
      CompletedIdle(env, ServeRead(d, id, token, offset, wanted));
    } else {
      ReadLaw(env, d, id, token, offset, wanted);
    }
  }

  lemma ReadDenied(d: Core, id: nat, token: Token, offset: nat, wanted: nat, path: Path, flags: nat)
    requires path != [] && Holding(d, token, SlotFor(path, flags)) && PathOf(SlotFor(path, flags)) == path
    requires ReadRefused(flags, FileAt(d.root, path), offset, wanted)
    ensures var s := ServeRead(d, id, token, offset, wanted);
            s.core == d && exists status: Status :: 0 < status.code < 256 && s.out == StatusReply(id, status)
  {
    hide StatusReply, SlotOf, Text, Lookup;
    var status := if flags / 2 % 2 == 1 && flags % 2 == 0 then Failure("Handle not open for reading")
                  else if Lookup(d.root, path).None? then NO_SUCH_FILE else END_OF_FILE;
    assert ServeRead(d, id, token, offset, wanted).out == StatusReply(id, status);
  }

  /**
   A READ through the handle is refused exactly if OPEN was asked for WRITE and not for READ, or nothing is
   there; otherwise it tells the bytes of the file at the path OPEN was given.
   */
  lemma ReadThrough(env: Env, c: Core, u: Use, id: nat, offset: nat, wanted: nat, owner: seq<Byte>)
    requires InUse(env, c, u) && Sends(id, Read(HandleOf(env, c, u), offset, wanted), owner)
    ensures EnvOk(env)
    ensures var d := Since(env, c, u);
            var s, f := Asked(env, d, id, Read(HandleOf(env, c, u), offset, wanted), owner), FileAt(d.root, u.Target());
            && s.core == d && (Refusal(s.out) <==> ReadRefused(u.flags, f, offset, wanted))
            && (!Refusal(s.out) ==> TellsData(s.out, f.value.data[offset..offset + Min(|f.value.data| - offset, Min(wanted, 32768))]))
  {
    hide EnvOk, Wf, InUse, Since, HandleOf, Holding, SlotFor, StatusReply, Sent, ServeMessage, Refusal, Proper, ServeRead, Completed,
         DataReply, TellsData,
         Resolved, FileAt, ReadRefused;
    var d, token, path := Since(env, c, u), HandleOf(env, c, u), u.Target();
    UseIsOk(env, c, u);
    StillHeld(env, c, u);
    SentServed(env, d, id, Read(token, offset, wanted), owner);
    ReadServedBy(env, d, id, token, offset, wanted, path, u.flags);
    if ReadRefused(u.flags, FileAt(d.root, path), offset, wanted) {
      var status: Status :| 0 < status.code < 256 && ServeRead(d, id, token, offset, wanted).out == StatusReply(id, status);
      StatusRefuses(id, status);
    } else {
      InRead(u.flags, FileAt(d.root, path), offset, wanted);
      var data := FileAt(d.root, path).value.data;
      DataRead(id, data[offset..offset + Min(|data| - offset, Min(wanted, 32768))]);
    }
  }

  lemma InRead(flags: nat, f: Option<FatFile>, offset: nat, wanted: nat)
    requires !ReadRefused(flags, f, offset, wanted)
    ensures f.Some? && offset < |f.value.data|
  {
  }

  // ---------------------------------------------------------------------
  // FSTAT, FSETSTAT and the rest
  // ---------------------------------------------------------------------

  lemma SameServed(env: Env, c: Core, u: Use, id: nat, a: RequestedAttrs)
    requires InUse(env, c, u)
    ensures EnvOk(env)
    ensures var d, token, p := Since(env, c, u), HandleOf(env, c, u), u.path;
            && Serve(env, d, id, FStat(token)) == Serve(env, d, id, Stat(p)) && Serve(env, d, id, FStatVfs(token)) == Serve(env, d, id, StatVfs(p))
            && Serve(env, d, id, FSync(token)) == Served(d, StatusReply(id, OK))
            && Serve(env, d, id, FSetStat(token, a)) ==
               if a.size.None? || u.flags / 2 % 2 == 1 then Serve(env, d, id, SetStat(p, a))
               else Served(d, StatusReply(id, Status(FX_PERMISSION_DENIED, Text("Handle not open for writing"))))
  {
    hide EnvOk, Wf, InUse, Since, HandleOf, StatusReply, Resolved, SlotOf, ServeStat, ServeStatVfs, ServeSetStat, Text;
    UseIsOk(env, c, u);
    StillHeld(env, c, u);
    SlotPath(u.Target(), u.flags);
  }

  /** FSTAT and fstatvfs through the handle are answered like STAT and statvfs of the path OPEN was given, and fsync with OK. */
  lemma AskThrough(env: Env, c: Core, u: Use, id: nat, owner: seq<Byte>)
    requires InUse(env, c, u)
    requires var token := HandleOf(env, c, u);
             && Sends(id, FStat(token), owner) && Sends(id, Stat(u.path), owner) && Sends(id, FStatVfs(token), owner) && Sends(id, StatVfs(u.path), owner)
             && Sends(id, FSync(token), owner)
    ensures EnvOk(env)
    ensures var d, token := Since(env, c, u), HandleOf(env, c, u);
            && Asked(env, d, id, FStat(token), owner) == Asked(env, d, id, Stat(u.path), owner)
            && Asked(env, d, id, FStatVfs(token), owner) == Asked(env, d, id, StatVfs(u.path), owner)
            && Asked(env, d, id, FSync(token), owner).core == d && TellsStatus(Asked(env, d, id, FSync(token), owner).out, 0)
  {
    hide EnvOk, Wf, InUse, Since, HandleOf, StatusReply, Serve, Sends, Asked, TellsStatus;
    SameServed(env, c, u, id, NO_ATTRS);
    var d, token := Since(env, c, u), HandleOf(env, c, u);
    AskedIs(env, d, id, FStat(token), owner);
    AskedIs(env, d, id, Stat(u.path), owner);
    AskedIs(env, d, id, FStatVfs(token), owner);
    AskedIs(env, d, id, StatVfs(u.path), owner);
    AskedIs(env, d, id, FSync(token), owner);
    StatusRead(id, OK);
  }

  /** FSETSTAT through the handle does what SETSTAT does at that path, but for a new size OPEN must have been asked for WRITE. */
  lemma SetThrough(env: Env, c: Core, u: Use, id: nat, a: RequestedAttrs, owner: seq<Byte>)
    requires InUse(env, c, u) && Sends(id, FSetStat(HandleOf(env, c, u), a), owner) && Sends(id, SetStat(u.path, a), owner)
    ensures EnvOk(env)
    ensures var d := Since(env, c, u);
            var s := Asked(env, d, id, FSetStat(HandleOf(env, c, u), a), owner);
            if a.size.None? || u.flags / 2 % 2 == 1 then s == Asked(env, d, id, SetStat(u.path, a), owner) else s.core == d && TellsStatus(s.out, 3)
  {
    hide EnvOk, Wf, InUse, Since, HandleOf, StatusReply, Serve, Sends, TellsStatus, Text, ServeMessage, Completed, Sent;
    SameServed(env, c, u, id, a);
    var d, denied := Since(env, c, u), Status(FX_PERMISSION_DENIED, Text("Handle not open for writing"));
    SentServed(env, d, id, FSetStat(HandleOf(env, c, u), a), owner);
    SentServed(env, d, id, SetStat(u.path, a), owner);
    CompletedIdle(env, Served(d, StatusReply(id, denied)));
    StatusRead(id, denied);
  }
}
