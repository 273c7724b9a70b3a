/** What STAT tells of what SETSTAT and MKDIR set, word for word in the replies. */
module SftpAttrs {
  import opened Bytes
  import opened FatTree
  import opened FatFile
  import opened FsPath
  import opened Wire
  import opened SftpVolume
  import opened SftpModel
  import opened SftpStream
  import opened SftpWrites
  import opened SftpRequests
  import opened SftpLaws
  import opened SftpEntries
  import opened SftpClient
  import opened Clock
  import opened FatTime

  // ---------------------------------------------------------------------
  // Attributes FAT can hold
  // ---------------------------------------------------------------------

  /** The local time falls in the years 1980 to 2107. */
  predicate InFatYears(config: ClockConfig, unix: nat) {
    FirstOf(1980, 1) * SECONDS_PER_DAY <= LocalSeconds(unix, config) < FirstOf(2108, 1) * SECONDS_PER_DAY
  }

  /** No owner, a size below 4 GiB, and times FAT has dates for. */
  predicate Storable(config: ClockConfig, a: RequestedAttrs) {
    && !a.owner && (a.size.Some? ==> a.size.value < 0x1_0000_0000)
    && (a.times.Some? ==> InFatYears(config, a.times.value.0) && InFatYears(config, a.times.value.1))
  }

  lemma StorableExact(env: Env, a: RequestedAttrs)
    ensures AttrsRefusal(env, a).None? <==> Storable(env.clock, a)
    ensures var r := AttrsRefusal(env, a);
            && (a.owner ==> r.Some? && r.value.code == 8)
            && (r.Some? && !a.owner && (a.size.Some? ==> a.size.value < 0x1_0000_0000) ==> r.value.code == 8)
            && (r.Some? ==> 0 < r.value.code < 256)
  {
    hide LocalSeconds, FatTimeOf, FirstOf, Text;
    if a.times.Some? {
      FatRangeExact(a.times.value.0, env.clock);
      FatRangeExact(a.times.value.1, env.clock);
    }
  }

  // ---------------------------------------------------------------------
  // Reading an ATTRS reply
  // ---------------------------------------------------------------------

  function LongAt(reply: seq<Byte>, at: nat): nat
    requires at + 8 <= |reply|
  {
    WordAt(reply, at) * U32_LIMIT + WordAt(reply, at + 4)
  }

  datatype Shown = Shown(size: nat, mode: nat, accessed: nat, modified: nat)

  /** 24 bytes of attributes at byte `at`: flags for size, permissions and times, and those. */
  predicate AttrsAt(b: seq<Byte>, at: nat) { at + 24 <= |b| && WordAt(b, at) == 13 }

  function ShownAt(b: seq<Byte>, at: nat): Shown
    requires AttrsAt(b, at)
  {
    Shown(LongAt(b, at + 4), WordAt(b, at + 12), WordAt(b, at + 16), WordAt(b, at + 20))
  }

  /** Type 105, and attributes after the id. */
  predicate TellsAttrs(reply: seq<Byte>) { |reply| == 33 && reply[4] == 105 && AttrsAt(reply, 9) }

  function ShownBy(reply: seq<Byte>): Shown
    requires TellsAttrs(reply)
  {
    ShownAt(reply, 9)
  }

  /** rwxr-xr-x for a directory and rw-r--r-- for a file, without the w of a read-only one. */
  function ModeFor(dir: bool, readOnly: bool): nat { (if dir then 0x4000 + 0x1ED else 0x8000 + 0x1A4) - if readOnly then 0x80 else 0 }

  /** What there is to tell of an entry. */
  function Kept(env: Env, n: Vol): Shown {
    Shown(SizeOf(n), ModeFor(n.Dir?, MetaOf(n).readOnly), ReportedAtime(MetaOf(n).accessed, env.clock), ReportedMtime(MetaOf(n).modified, env.clock))
  }

  /** What there is to tell of a new entry where nothing was asked for. */
  function Unasked(env: Env, dir: bool): Shown {
    Shown(0, ModeFor(dir, env.newMeta.readOnly), ReportedAtime(env.newMeta.accessed, env.clock), ReportedMtime(env.newMeta.modified, env.clock))
  }

  /** None of the bits 0222. */
  predicate NoWriteBits(permissions: nat) { permissions / 128 % 2 == 0 && permissions / 16 % 2 == 0 && permissions / 2 % 2 == 0 }

  lemma WordsOfAttrs(a: nat, b: nat, size: nat, mode: nat, accessed: nat, modified: nat)
    requires a < U32_LIMIT && b < U32_LIMIT && mode < U32_LIMIT && accessed < U32_LIMIT && modified < U32_LIMIT && size == a * U32_LIMIT + b
    ensures var x := Be32(13) + (Be32(a) + Be32(b)) + Be32(mode) + Be32(accessed) + Be32(modified);
            AttrsAt(x, 0) && ShownAt(x, 0) == Shown(size, mode, accessed, modified)
  {
    hide Be32, FromBe32;
    var x := Be32(13) + (Be32(a) + Be32(b)) + Be32(mode) + Be32(accessed) + Be32(modified);
    Be32RoundTrip(13);
    Be32RoundTrip(a);
    Be32RoundTrip(b);
    Be32RoundTrip(mode);
    Be32RoundTrip(accessed);
    Be32RoundTrip(modified);
    assert x[0..4] == Be32(13) && x[4..8] == Be32(a) && x[8..12] == Be32(b);
    assert x[12..16] == Be32(mode) && x[16..20] == Be32(accessed) && x[20..24] == Be32(modified);
  }

  lemma AttrsRead(env: Env, n: Vol)
    requires SizeOf(n) < U64_LIMIT
    ensures AttrsAt(AttrBytes(env, n), 0) && ShownAt(AttrBytes(env, n), 0) == Kept(env, n)
  {
    hide Be32, FromBe32, UnpackedDate, UnpackedLocal, UnixFromLocal, AttrsAt, ShownAt;
    var size, k := SizeOf(n), Kept(env, n);
    WordsOfAttrs(size / U32_LIMIT, size % U32_LIMIT, size, k.mode, k.accessed, k.modified);
  }

  lemma SameWord(x: seq<Byte>, at: nat, b: seq<Byte>, i: nat)
    requires i + 4 <= |b| && at + |b| <= |x| && x[at..at + |b|] == b
    ensures WordAt(x, at + i) == WordAt(b, i)
  {
    assert forall k :: 0 <= k < |b| ==> b[k] == x[at + k];
    assert x[at + i..at + i + 4] == b[i..i + 4];
  }

  lemma AttrsInside(x: seq<Byte>, at: nat, b: seq<Byte>)
    requires AttrsAt(b, 0) && |b| == 24 && at + 24 <= |x| && x[at..at + 24] == b
    ensures AttrsAt(x, at) && ShownAt(x, at) == ShownAt(b, 0)
  {
    hide FromBe32;
    SameWord(x, at, b, 0);
    SameWord(x, at, b, 4);
    SameWord(x, at, b, 8);
    SameWord(x, at, b, 12);
    SameWord(x, at, b, 16);
    SameWord(x, at, b, 20);
  }

  lemma AttrsReplyRead(env: Env, id: nat, n: Vol)
    requires SizeOf(n) < U64_LIMIT
    ensures var reply := Frame(FXP_ATTRS, Be32(id) + AttrBytes(env, n)); TellsAttrs(reply) && ShownBy(reply) == Kept(env, n)
  {
    hide Be32, FromBe32, AttrBytes, Kept, AttrsAt, ShownAt;
    AttrsRead(env, n);
    var reply := Frame(FXP_ATTRS, Be32(id) + AttrBytes(env, n));
    assert reply[9..33] == AttrBytes(env, n);
    AttrsInside(reply, 9, AttrBytes(env, n));
  }

  // ---------------------------------------------------------------------
  // STAT
  // ---------------------------------------------------------------------

  /** STAT tells of the root, of a missing entry, and of a file or directory what it is and holds. */
  lemma StatTells(env: Env, c: Core, id: nat, p: seq<Byte>, owner: seq<Byte>)
    requires EnvOk(env) && Wf(env, c) && c.mode.Idle? && Sends(id, Stat(p), owner)
    ensures var reply, path := Asked(env, c, id, Stat(p), owner).out, Resolved([], p);
            if path == [] then |reply| == 25 && reply[4] == 105 && WordAt(reply, 9) == 5 && LongAt(reply, 13) == 0 && WordAt(reply, 21) == ModeFor(true, false)
            else match Lookup(c.root, path)
            case None => TellsStatus(reply, 2)
            case Some(n) =>
              TellsAttrs(reply) && ShownBy(reply) == Kept(env, n)
  {
    hide EnvOk, Wf, Lookup, Sends, Text, AttrBytes, ReportedAtime, ReportedMtime, TellsAttrs;
    AskedIs(env, c, id, Stat(p), owner);
    var path := Resolved([], p);
    if path == [] {
      RootRead(id);
    } else if Lookup(c.root, path).None? {
      StatusRead(id, NO_SUCH_FILE);
    } else {
      SizeFits(env, c, path);
      AttrsReplyRead(env, id, Lookup(c.root, path).value);
    }
  }

  lemma SizeFits(env: Env, c: Core, path: Path)
    requires EnvOk(env) && Wf(env, c) && Lookup(c.root, path).Some?
    ensures SizeOf(Lookup(c.root, path).value) <= U32_TOP
  {
    hide EnvOk;
    LookupOk(env, c.root, path);
  }

  lemma RootRead(id: nat)
    ensures var reply := Frame(FXP_ATTRS, Be32(id) + RootAttrBytes());
            |reply| == 25 && reply[4] == 105 && WordAt(reply, 9) == 5 && LongAt(reply, 13) == 0 && WordAt(reply, 21) == ModeFor(true, false)
  {
    hide Be32, FromBe32;
    var reply := Frame(FXP_ATTRS, Be32(id) + RootAttrBytes());
    Be32RoundTrip(5);
    Be32RoundTrip(0);
    Be32RoundTrip(0x41ED);
    assert reply[9..13] == Be32(5) && reply[13..17] == Be32(0) && reply[17..21] == Be32(0) && reply[21..25] == Be32(0x41ED);
  }

  // ---------------------------------------------------------------------
  // What is set is told
  // ---------------------------------------------------------------------

  /** The times STAT tells once `a` has been set: the second rounded down, and the local date of the access. */
  lemma TimesTold(env: Env, meta: Meta, a: RequestedAttrs)
    requires OffsetInRange(env.clock) && SmallAttrs(a) && Storable(env.clock, a)
    ensures var left := NewMeta(env, meta, a);
            match a.times
            case None => left.accessed == meta.accessed && left.modified == meta.modified
            case Some((accessed, modified)) => TimesKept(env.clock, accessed, modified, ReportedAtime(left.accessed, env.clock), ReportedMtime(left.modified, env.clock))
  {
    hide LocalSeconds, FatTimeOf, FirstOf, UnixFromLocal, ReportedMtime, ReportedAtime, Unwritable, AutumnHour;
    if a.times.Some? {
      var (accessed, modified) := a.times.value;
      FatRangeExact(accessed, env.clock);
      FatRangeExact(modified, env.clock);
      MtimeRoundTrip(modified, env.clock);
      AtimeKeepsLocalDate(accessed, env.clock);
    }
  }

  /** An even second, an hour early in the hour that summer time repeats when it ends; and the day, not the time of day, of the access. */
  predicate TimesKept(config: ClockConfig, accessed: nat, modified: nat, accessedTold: nat, modifiedTold: nat) {
    && modifiedTold == modified - modified % 2 - (if config.dst == Eu && AutumnHour(modified) then 3600 else 0)
    && LocalSeconds(accessedTold, config) / SECONDS_PER_DAY == LocalSeconds(accessed, config) / SECONDS_PER_DAY
  }

  lemma WritableTold(env: Env, meta: Meta, a: RequestedAttrs)
    ensures NewMeta(env, meta, a).readOnly == if a.permissions.Some? then NoWriteBits(a.permissions.value) else meta.readOnly
  {
    hide FatTimeOf;
  }

  /** What `a` asked for is told, and for what it did not ask `before`. */
  predicate AsAsked(config: ClockConfig, a: RequestedAttrs, dir: bool, before: Shown, now: Shown) {
    && now.size == (if a.size.Some? then a.size.value else before.size)
    && now.mode == (if a.permissions.Some? then ModeFor(dir, NoWriteBits(a.permissions.value)) else before.mode)
    && match a.times
       case None => now.accessed == before.accessed && now.modified == before.modified
       case Some((accessed, modified)) => TimesKept(config, accessed, modified, now.accessed, now.modified)
  }

  /** SETSTAT is accepted exactly for an entry other than the root, attributes FAT can hold, and a size the entry can be given. */
  predicate CanSet(env: Env, root: Vol, path: Path, a: RequestedAttrs) {
    && Storable(env.clock, a) && path != [] && Lookup(root, path).Some?
    && (a.size.Some? ==> FileAt(root, path).Some? && (!FileAt(root, path).value.meta.readOnly || a.size.value == |FileAt(root, path).value.data|))
  }

  /** The entry an accepted SETSTAT leaves. */
  ghost predicate SetTo(env: Env, was: Vol, now: Vol, a: RequestedAttrs) {
    && now.Dir? == was.Dir? && MetaOf(now) == NewMeta(env, MetaOf(was), a) && SizeOf(now) == (if a.size.Some? then a.size.value else SizeOf(was))
    && (was.File? ==> now.file.data == if SizeOf(now) <= SizeOf(was) then was.file.data[..SizeOf(now)] else ZeroExtend(was.file.data, SizeOf(now)))
    && (was.Dir? ==> now.entries == was.entries)
  }

  lemma SetServed(env: Env, c: Core, id: nat, path: Path, a: RequestedAttrs)
    requires EnvOk(env) && Wf(env, c) && c.mode.Idle?
    ensures var s := ServeSetStat(env, c, id, path, a);
            Wf(env, s.core) &&
            var done := Completed(env, s);
            if CanSet(env, c.root, path, a) then
              && done.out == StatusReply(id, OK) && Lookup(done.core.root, path).Some?
              && SetTo(env, Lookup(c.root, path).value, Lookup(done.core.root, path).value, a)
            else done.core == c && exists status: Status :: 0 < status.code < 256 && done.out == StatusReply(id, status)
  {
    hide EnvOk, Wf, StatusReply, Storable, NewMeta, AttrsRefusal, Completed, ServeSetStat, Lookup, SetTo;
    StorableExact(env, a);
    SetStatOk(env, c, id, path, a);
    if !CanSet(env, c.root, path, a) {
      NotSet(env, c, id, path, a);
    } else if a.size.Some? {
      SetStatLaw(env, c, id, path, a);
      SizeSet(env, c, id, path, a);
    } else {
      NoSizeSet(env, c, id, path, a);
    }
  }

  lemma NotSet(env: Env, c: Core, id: nat, path: Path, a: RequestedAttrs)
    requires EnvOk(env) && Wf(env, c) && c.mode.Idle? && !CanSet(env, c.root, path, a) && (AttrsRefusal(env, a).None? <==> Storable(env.clock, a))
    requires AttrsRefusal(env, a).Some? ==> 0 < AttrsRefusal(env, a).value.code < 256
    ensures var s := ServeSetStat(env, c, id, path, a);
            Wf(env, s.core) && Completed(env, s) == s && s.core == c && exists status: Status :: 0 < status.code < 256 && s.out == StatusReply(id, status)
  {
    hide EnvOk, Wf, StatusReply, Storable, AttrsRefusal, Completed, Lookup, Text;
    var s := ServeSetStat(env, c, id, path, a);
    CompletedIdle(env, s);
    var n := Lookup(c.root, path);
    var status := if AttrsRefusal(env, a).Some? then AttrsRefusal(env, a).value
                  else if path == [] then Status(FX_OP_UNSUPPORTED, Text("Root metadata cannot be changed"))
                  else if n.None? then NO_SUCH_FILE
                  else if n.value.Dir? then Failure("Cannot resize a directory") else READ_ONLY;
    assert s.out == StatusReply(id, status);
  }

  lemma SizeSet(env: Env, c: Core, id: nat, path: Path, a: RequestedAttrs)
    requires EnvOk(env) && CanSet(env, c.root, path, a) && a.size.Some?
    requires var s := ServeSetStat(env, c, id, path, a);
             Wf(env, s.core) &&
             var done, was := Completed(env, s), FileAt(c.root, path).value;
             && FileAt(done.core.root, path).Some?
             && FileAt(done.core.root, path).value.data ==
                (if a.size.value <= |was.data| then was.data[..a.size.value] else ZeroExtend(was.data, a.size.value))
             && FileAt(done.core.root, path).value.meta == NewMeta(env, was.meta, a)
    ensures var done := Completed(env, ServeSetStat(env, c, id, path, a));
            Lookup(done.core.root, path).Some? && SetTo(env, Lookup(c.root, path).value, Lookup(done.core.root, path).value, a)
  {
    hide EnvOk, Wf, Storable, NewMeta, Completed, ServeSetStat, Lookup;
  }

  lemma NoSizeSet(env: Env, c: Core, id: nat, path: Path, a: RequestedAttrs)
    requires EnvOk(env) && Wf(env, c) && c.mode.Idle? && CanSet(env, c.root, path, a) && a.size.None? && AttrsRefusal(env, a).None?
    ensures var s := ServeSetStat(env, c, id, path, a);
            && Wf(env, s.core) && Completed(env, s) == s && s.out == StatusReply(id, OK) && Lookup(s.core.root, path).Some?
            && SetTo(env, Lookup(c.root, path).value, Lookup(s.core.root, path).value, a)
  {
    hide EnvOk, Wf, StatusReply, Storable, NewMeta, AttrsRefusal, Completed, Put, Lookup;
    var s, n := ServeSetStat(env, c, id, path, a), Lookup(c.root, path).value;
    SetStatOk(env, c, id, path, a);
    CompletedIdle(env, s);
    LookupPut(c.root, path, Settled(env, n, a));
    if n.File? { assert n.file.data[..|n.file.data|] == n.file.data; }
  }

  /** SETSTAT as a client sends it: accepted or refused, it leaves what was asked for or everything as it was. */
  lemma SetStatTold(env: Env, c: Core, id: nat, p: seq<Byte>, a: RequestedAttrs, owner: seq<Byte>)
    requires EnvOk(env) && Wf(env, c) && c.mode.Idle? && Sends(id, SetStat(p, a), owner)
    ensures var s, path := Asked(env, c, id, SetStat(p, a), owner), Resolved([], p);
            && (TellsStatus(s.out, 0) <==> CanSet(env, c.root, path, a))
            && (!TellsStatus(s.out, 0) ==> s.core == c)
            && (TellsStatus(s.out, 0) ==>
                  Lookup(s.core.root, path).Some? && SetTo(env, Lookup(c.root, path).value, Lookup(s.core.root, path).value, a))
  {
    hide EnvOk, Wf, StatusReply, CanSet, SetTo, Completed, ServeSetStat, Lookup, Sends, TellsStatus, Proper, Resolved, IsReplyTo, ServeMessage;
    SentServed(env, c, id, SetStat(p, a), owner);
    ReadyAgain(env, c, Sent(id, SetStat(p, a), owner));
    var path := Resolved([], p);
    SetServed(env, c, id, path, a);
    var done := Completed(env, ServeSetStat(env, c, id, path, a));
    StatusRead(id, OK);
    if !CanSet(env, c.root, path, a) {
      var status: Status :| 0 < status.code < 256 && done.out == StatusReply(id, status);
      StatusRead(id, status);
    }
  }

  /** SETSTAT and then STAT: what was asked for is told, and what was not is told as before. */
  lemma SetThenStat(env: Env, c: Core, id: nat, p: seq<Byte>, a: RequestedAttrs, owner: seq<Byte>, ask: nat)
    requires EnvOk(env) && Wf(env, c) && c.mode.Idle? && OffsetInRange(env.clock)
    requires Sends(id, SetStat(p, a), owner) && Sends(ask, Stat(p), owner)
    requires TellsStatus(Asked(env, c, id, SetStat(p, a), owner).out, 0)
    ensures var left := Asked(env, c, id, SetStat(p, a), owner).core;
            var was, now := Asked(env, c, ask, Stat(p), owner).out, Asked(env, left, ask, Stat(p), owner).out;
            TellsAttrs(was) && TellsAttrs(now) && AsAsked(env.clock, a, IsDir(c.root, Resolved([], p)), ShownBy(was), ShownBy(now))
  {
    hide EnvOk, Wf, Storable, NewMeta, Lookup, Sends, Resolved, ServeMessage, TellsStatus, Asked, TimesKept, TellsAttrs, ShownBy, ModeFor,
         NoWriteBits, Proper, ReportedAtime, ReportedMtime;
    var left, path := Asked(env, c, id, SetStat(p, a), owner).core, Resolved([], p);
    SetStatTold(env, c, id, p, a, owner);
    StatTells(env, c, ask, p, owner);
    StatTells(env, left, ask, p, owner);
    AttrsSmall(id, p, a, owner);
    TimesTold(env, MetaOf(Lookup(c.root, path).value), a);
    WritableTold(env, MetaOf(Lookup(c.root, path).value), a);
  }

  lemma AttrsSmall(id: nat, p: seq<Byte>, a: RequestedAttrs, owner: seq<Byte>)
    ensures Sends(id, SetStat(p, a), owner) ==> SmallAttrs(a)
    ensures Sends(id, MkDir(p, a), owner) ==> SmallAttrs(a)
    ensures forall flags :: Sends(id, Open(p, flags, a), owner) ==> SmallAttrs(a)
  {
    hide SmallAttrs, Body, TextPath;
  }

  // ---------------------------------------------------------------------
  // MKDIR
  // ---------------------------------------------------------------------

  /** A name that can be made: its parent is there, and nothing is called that. */
  predicate CanMake(env: Env, root: Vol, path: Path) {
    path != [] && IsDir(root, path[..|path| - 1]) && env.nameOk(path[|path| - 1]) && Lookup(root, path).None?
  }

  /** MKDIR and then STAT: a directory with what was asked for, and for the rest what the volume gives new entries. */
  lemma MakeThenStat(env: Env, c: Core, id: nat, p: seq<Byte>, a: RequestedAttrs, owner: seq<Byte>, ask: nat)
    requires EnvOk(env) && Wf(env, c) && c.mode.Idle? && OffsetInRange(env.clock) && Sends(id, MkDir(p, a), owner) && Sends(ask, Stat(p), owner)
    ensures var made := Asked(env, c, id, MkDir(p, a), owner);
            && (TellsStatus(made.out, 0) <==> Storable(env.clock, a) && a.size.None? && CanMake(env, c.root, Resolved([], p)))
            && (!TellsStatus(made.out, 0) ==> made.core == c)
            && (TellsStatus(made.out, 0) ==>
                  && IsDir(made.core.root, Resolved([], p)) && Lookup(made.core.root, Resolved([], p)).value.entries == []
                  && var now := Asked(env, made.core, ask, Stat(p), owner).out;
                     TellsAttrs(now) && AsAsked(env.clock, a, true, Unasked(env, true), ShownBy(now)))
  {
    hide EnvOk, Wf, Storable, NewMeta, Sends, Resolved, ServeMessage, TellsStatus, Asked, TimesKept, TellsAttrs, ShownBy, ModeFor,
         NoWriteBits, Proper, ReportedAtime, ReportedMtime, StatusReply, AttrsRefusal, Lookup, IsReplyTo, Completed, ServeMkDir;
    var path := Resolved([], p);
    AskedIs(env, c, id, MkDir(p, a), owner);
    StorableExact(env, a);
    MkDirLaw(env, c, id, path, a);
    MkDirReply(env, c, id, path, a);
    var made := Asked(env, c, id, MkDir(p, a), owner);
    StatusRead(id, OK);
    if made.out == StatusReply(id, OK) {
      StatTells(env, made.core, ask, p, owner);
      AttrsSmall(id, p, a, owner);
      TimesTold(env, env.newMeta, a);
      WritableTold(env, env.newMeta, a);
    }
  }

  lemma MkDirReply(env: Env, c: Core, id: nat, path: Path, a: RequestedAttrs)
    requires EnvOk(env) && Wf(env, c) && c.mode.Idle?
    ensures var s, can := ServeMkDir(env, c, id, path, a), AttrsRefusal(env, a).None? && a.size.None? && CanMake(env, c.root, path);
            && s.core.mode.Idle? && (s.out == StatusReply(id, OK) <== can)
            && (TellsStatus(s.out, 0) ==> can)
  {
    hide EnvOk, Wf, StatusReply, AttrsRefusal, NewMeta, Added, Lookup, TellsStatus, Text;
    MkDirOk(env, c, id, path, a);
    StorableExact(env, a);
    if !(AttrsRefusal(env, a).None? && a.size.None? && CanMake(env, c.root, path)) {
      var status := if AttrsRefusal(env, a).Some? then AttrsRefusal(env, a).value
                    else if a.size.Some? then Failure("Directory size cannot be set")
                    else if path == [] then Failure("Exists")
                    else if !IsDir(c.root, path[..|path| - 1]) then NO_SUCH_FILE
                    else if !env.nameOk(path[|path| - 1]) then Failure("Cannot create directory") else Failure("File exists");
      assert ServeMkDir(env, c, id, path, a).out == StatusReply(id, status);
      StatusRead(id, status);
    }
  }
}
