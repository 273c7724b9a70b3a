/**
 The server at work and the flat reference: as long as no stale cursor is used, every
 card access leaves the cached cursors exact and the outcome of the stream as it was.
 */
module SftpFollows {
  import opened Bytes
  import opened FatTree
  import opened FatFile
  import opened FsPath
  import opened Wire
  import opened SftpVolume
  import opened SftpModel
  import opened SftpStream
  import opened SftpCursors
  import opened SftpFrames
  import opened SftpRuns
  import opened SftpChunks
  import opened SftpMachine

  // ---------------------------------------------------------------------
  // Requests keep cursors exact
  // ---------------------------------------------------------------------

  /** What a request does to an open file: nothing, or its entry is gone and that is on record, or it is new and there. */
  ghost predicate SlotFollows(c: Core, d: Core, r: Request, i: nat)
    requires i < |c.slots| && |d.slots| == |c.slots|
  {
    && (c.slots[i].FileSlot? ==> d.slots[i] == c.slots[i] || d.slots[i].Free?)
    && (d.slots[i].FileSlot? ==>
      if c.slots[i].FileSlot? then
        && d.slots[i] == c.slots[i] && (i !in d.lost ==> i !in c.lost)
        && (MayRemove(r, PathOf(c.slots[i])) && i !in d.lost ==> d.root == c.root)
      else FileAt(d.root, PathOf(d.slots[i])).Some?)
  }

  lemma SameSlots(c: Core, d: Core, r: Request, i: nat)
    requires i < |c.slots| && SameHandles(c, d)
    requires d.root == c.root || !MayRemove(r, PathOf(c.slots[i]))
    ensures |d.slots| == |c.slots| && SlotFollows(c, d, r, i)
  {
  }

  lemma DeletedSlots(c: Core, path: Path, r: Request, i: nat)
    requires path != [] && Lookup(c.root, path).Some? && i < |c.slots|
    requires MayRemove(r, PathOf(c.slots[i])) ==> Inside(PathOf(c.slots[i]), path)
    ensures SlotFollows(c, Deleted(c, path), r, i)
  {
    hide Inside, MayRemove, Lookup, Removed;
  }

  lemma RemoveSlots(c: Core, id: nat, path: Path, r: Request, i: nat)
    requires i < |c.slots| && (MayRemove(r, PathOf(c.slots[i])) ==> Inside(PathOf(c.slots[i]), path))
    ensures |ServeRemove(c, id, path).core.slots| == |c.slots| && |ServeRmDir(c, id, path).core.slots| == |c.slots|
    ensures SlotFollows(c, ServeRemove(c, id, path).core, r, i) && SlotFollows(c, ServeRmDir(c, id, path).core, r, i)
  {
    hide StatusReply, Text, Inside, MayRemove, SlotFollows, Removed;
    SameSlots(c, c, r, i);
    if path != [] && Lookup(c.root, path).Some? { DeletedSlots(c, path, r, i); }
  }

  lemma RenameSlots(env: Env, c: Core, id: nat, source: Path, target: Path, r: Request, i: nat)
    requires i < |c.slots| && (MayRemove(r, PathOf(c.slots[i])) ==> Inside(PathOf(c.slots[i]), source))
    ensures |ServeRename(env, c, id, source, target).core.slots| == |c.slots|
    ensures SlotFollows(c, ServeRename(env, c, id, source, target).core, r, i)
  {
    hide StatusReply, Text, Inside, MayRemove, Renamed, Lookup, SamePath;
  }

  lemma AllocatedSlots(c: Core, s: Slot, r: Request, i: nat)
    requires i < |c.slots| && !(r.Remove? || r.RmDir? || r.Rename?) && (s.FileSlot? ==> FileAt(c.root, PathOf(s)).Some?)
    ensures var a := Allocated(c, s); a.Some? ==> |a.value.0.slots| == |c.slots| && SlotFollows(c, a.value.0, r, i)
  {
    hide FileAt, TokenFor;
  }

  lemma OpenDirSlots(c: Core, id: nat, path: Path, r: Request, i: nat)
    requires i < |c.slots| && r.OpenDir?
    ensures |ServeOpenDir(c, id, path).core.slots| == |c.slots| && SlotFollows(c, ServeOpenDir(c, id, path).core, r, i)
  {
    hide StatusReply, HandleReply, Text, Lookup, Allocated, SlotFollows;
    SameSlots(c, c, r, i);
    AllocatedSlots(c, DirSlot(path, 0), r, i);
  }

  lemma TargetThere(env: Env, root: Vol, nextId: nat, parent: Path, leaf: Name, flags: nat, attrs: RequestedAttrs)
    requires EnvOk(env)
    ensures var t := OpenTarget(env, root, nextId, parent, leaf, flags, attrs); t.Target? ==> FileAt(t.root, parent + [leaf]).Some?
  {
    hide Text, NewMeta, Bit, Added, Lookup;
    PositiveClusters(env);
    var path := parent + [leaf];
    var n := Lookup(root, path);
    if n.Some? {
      if n.value.File? { LookupPut(root, path, File(Shrunk(env.g, n.value.file, 0))); }
    } else if IsDir(root, parent) {
      assert path[..|path| - 1] == parent;
      NewNameFree(root, path);
      LookupAddedEntry(root, parent, Entry(leaf, File(EmptyFile(env, root, path, nextId).(meta := NewMeta(env, env.newMeta, attrs)))));
    }
  }

  lemma OpenSlots(env: Env, c: Core, id: nat, path: Path, flags: nat, attrs: RequestedAttrs, r: Request, i: nat)
    requires EnvOk(env) && i < |c.slots| && r.Open?
    ensures |ServeOpen(env, c, id, path, flags, attrs).core.slots| == |c.slots|
    ensures SlotFollows(c, ServeOpen(env, c, id, path, flags, attrs).core, r, i)
  {
    hide EnvOk, StatusReply, HandleReply, AttrsRefusal, OpenTarget, Allocated, Text, Bit, FileAt;
    if AttrsRefusal(env, attrs).None? && path != [] {
      var parent, leaf := path[..|path| - 1], path[|path| - 1];
      var target := OpenTarget(env, c.root, c.nextId, parent, leaf, flags, attrs);
      if target.Target? {
        var c1 := c.(root := target.root, nextId := target.nextId);
        TargetThere(env, c.root, c.nextId, parent, leaf, flags, attrs);
        AllocatedSlots(c1, FileSlot(parent, leaf, Bit(flags, 1) || !Bit(flags, 2), Bit(flags, 2), Bit(flags, 4)), r, i);
      }
    }
  }

  lemma HandleSlots(env: Env, c: Core, id: nat, token: Token, r: Request, i: nat)
    requires i < |c.slots| && (r.Close? || r.ReadDir?)
    ensures |ServeClose(c, id, token).core.slots| == |c.slots| && |ServeReadDir(env, c, id, token).core.slots| == |c.slots|
    ensures SlotFollows(c, ServeClose(c, id, token).core, r, i) && SlotFollows(c, ServeReadDir(env, c, id, token).core, r, i)
  {
    hide StatusReply, NamesReply, NamesBytes, Batch, Lookup, Text, FromBe32, FileAt;
  }

  predicate SameHandles(c: Core, d: Core) { d.slots == c.slots && d.lost == c.lost }

  lemma MkDirHandles(env: Env, c: Core, id: nat, path: Path, attrs: RequestedAttrs)
    ensures SameHandles(c, ServeMkDir(env, c, id, path, attrs).core)
  {
    hide StatusReply, Text, Lookup, Added, AttrsRefusal, NewMeta;
  }

  lemma SetStatHandles(env: Env, c: Core, id: nat, path: Path, attrs: RequestedAttrs)
    requires EnvOk(env)
    ensures SameHandles(c, ServeSetStat(env, c, id, path, attrs).core)
  {
    hide EnvOk, StatusReply, Text, Lookup, AttrsRefusal, Settled;
  }

  lemma FSetStatHandles(env: Env, c: Core, id: nat, token: Token, attrs: RequestedAttrs)
    requires EnvOk(env)
    ensures SameHandles(c, ServeFSetStat(env, c, id, token, attrs).core)
  {
    hide EnvOk, StatusReply, Text, SlotOf, ServeSetStat;
    var slot := SlotOf(c, token);
    if slot.Some? { SetStatHandles(env, c, id, PathOf(c.slots[slot.value]), attrs); }
  }

  lemma ReadHandles(c: Core, id: nat, token: Token, offset: nat, wanted: nat)
    ensures SameHandles(c, ServeRead(c, id, token, offset, wanted).core)
  {
    hide StatusReply, Text, Lookup, SlotOf, DataHeader;
  }

  lemma ServeSlots(env: Env, c: Core, id: nat, r: Request, i: nat)
    requires EnvOk(env) && i < |c.slots|
    ensures |Serve(env, c, id, r).core.slots| == |c.slots| && SlotFollows(c, Serve(env, c, id, r).core, r, i)
  {
    hide EnvOk, Resolved, SlotFollows, Inside, SameHandles, ServeOpenDir, ServeReadDir, ServeOpen, ServeClose, ServeRead, ServeRemove, ServeMkDir,
         ServeRmDir, ServeRename, ServeSetStat, ServeFSetStat, ServeRealPath, ServeStat, ServeFStat, WordsReply, ServeFSync, ServeStatVfs,
         ServeFStatVfs, Refuse, Text;
    match r
    case OpenDir(path) => OpenDirSlots(c, id, Resolved([], path), r, i);
    case ReadDir(token) => HandleSlots(env, c, id, token, r, i);
    case Close(token) => HandleSlots(env, c, id, token, r, i);
    case Open(path, flags, attrs) => OpenSlots(env, c, id, Resolved([], path), flags, attrs, r, i);
    case Read(token, offset, wanted) =>
      ReadHandles(c, id, token, offset, wanted);
      SameSlots(c, ServeRead(c, id, token, offset, wanted).core, r, i);
    case Remove(path) => RemoveSlots(c, id, Resolved([], path), r, i);
    case RmDir(path) => RemoveSlots(c, id, Resolved([], path), r, i);
    case MkDir(path, attrs) =>
      MkDirHandles(env, c, id, Resolved([], path), attrs);
      SameSlots(c, ServeMkDir(env, c, id, Resolved([], path), attrs).core, r, i);
    case Rename(source, target) => RenameSlots(env, c, id, Resolved([], source), Resolved([], target), r, i);
    case SetStat(path, attrs) =>
      SetStatHandles(env, c, id, Resolved([], path), attrs);
      SameSlots(c, ServeSetStat(env, c, id, Resolved([], path), attrs).core, r, i);
    case FSetStat(token, attrs) =>
      FSetStatHandles(env, c, id, token, attrs);
      SameSlots(c, ServeFSetStat(env, c, id, token, attrs).core, r, i);
    case _ =>
      QueryChangesNothing(env, c, id, r);
      SameSlots(c, c, r, i);
  }

  lemma RemovalsRewriteNothing(env: Env, c: Core, r: Request, p: Path)
    requires MayRemove(r, p)
    ensures Rewritten(env, c, r).None?
  {
  }

  /** The cached cursors stay exact through any request. */
  lemma ServeCoherent(env: Env, c: Core, caches: seq<Cache>, id: nat, r: Request)
    requires EnvOk(env) && Wf(env, c) && c.mode.Idle? && Coherent(env, c, caches) && |caches| == |c.slots|
    ensures var d := Serve(env, c, id, r).core;
            |d.slots| == |c.slots| && Coherent(env, d, CachesAfter(c.slots, d.slots, d.root, caches, Rewritten(env, c, r)))
  {
    hide EnvOk, Wf, Serve, SlotOk, Rewritten, MayRemove, CacheAfter, SlotFollows;
    var d := Serve(env, c, id, r).core;
    var rewritten := Rewritten(env, c, r);
    SomeSlots(env, c);
    ServeSlots(env, c, id, r, 0);
    forall i | 0 <= i < |c.slots|
      ensures d.slots[i].FileSlot? && i !in d.lost ==>
                SlotOk(env, d.root, d.slots[i], CacheAfter(c.slots[i], d.slots[i], d.root, caches[i], rewritten))
    {
      ServeSlots(env, c, id, r, i);
      if d.slots[i].FileSlot? && i !in d.lost { SlotCoherent(env, c, caches[i], id, r, i); }
    }
  }

  lemma SomeSlots(env: Env, c: Core)
    requires Wf(env, c)
    ensures |c.slots| > 0
  {
    hide TreeOk, EnvOk, ModeOk;
  }

  lemma SlotCoherent(env: Env, c: Core, k: Cache, id: nat, r: Request, i: nat)
    requires EnvOk(env) && Wf(env, c) && c.mode.Idle? && i < |c.slots|
    requires c.slots[i].FileSlot? && i !in c.lost ==> SlotOk(env, c.root, c.slots[i], k)
    requires var d := Serve(env, c, id, r).core;
             |d.slots| == |c.slots| && d.slots[i].FileSlot? && i !in d.lost && SlotFollows(c, d, r, i)
    ensures var d := Serve(env, c, id, r).core;
            SlotOk(env, d.root, d.slots[i], CacheAfter(c.slots[i], d.slots[i], d.root, k, Rewritten(env, c, r)))
  {
    hide EnvOk, Wf, Serve, Rewritten, MayRemove, FileAt, CacheOk, PathOf;
    var d := Serve(env, c, id, r).core;
    var p := PathOf(d.slots[i]);
    PositiveClusters(env);
    if !c.slots[i].FileSlot? {
      EmptyCacheOk(env, d.root, p);
    } else if MayRemove(r, p) {
      RemovalsRewriteNothing(env, c, r, p);
    } else {
      OtherFilesKept(env, c, id, r, p);
      if IsAt(p, Rewritten(env, c, r)) { NothingToCheck(env.g, FileAt(d.root, p).value, k); }
    }
  }

  lemma EmptyCacheOk(env: Env, root: Vol, p: Path)
    requires EnvOk(env) && FileAt(root, p).Some?
    ensures CacheOk(env.g, FileAt(root, p).value, Cache(SizeAt(root, p), None, None))
  {
  }

  lemma PacketCoherent(env: Env, m: Machine, kind: Byte, body: seq<Byte>)
    requires EnvOk(env) && MachineOk(env, m) && m.core.mode.Idle? && Coherent(env, m.core, m.caches)
    ensures var after := OnPacket(env, m, kind, body).0; Coherent(env, after.core, after.caches)
  {
    hide EnvOk, TreeOk, ModeOk, Serve, ParseRequest, Rewritten, Coherent, JobOk;
    DispatchSlots(env, m.core, kind, body);
    var id := TakeU32(body);
    if kind == FXP_INIT || id.Short? {
      SameCoherent(env, m.core, m.caches, OnPacket(env, m, kind, body).0);
    } else {
      ServeCoherent(env, m.core, m.caches, id.value, ParseRequest(kind, id.rest));
    }
  }

  lemma SameCoherent(env: Env, c: Core, caches: seq<Cache>, after: Machine)
    requires EnvOk(env) && Coherent(env, c, caches) && |caches| == |c.slots|
    requires after.core.root == c.root && after.core.slots == c.slots && after.core.lost == c.lost
    requires after.caches == CachesAfter(c.slots, after.core.slots, after.core.root, caches, None) || after.caches == caches
    ensures Coherent(env, after.core, after.caches)
  {
    hide EnvOk, SlotOk;
  }

  // ---------------------------------------------------------------------
  // Units of work follow the flat reference
  // ---------------------------------------------------------------------

  /** The unit leaves the cursors exact and the outcome of the stream as it was. */
  ghost predicate Follows(env: Env, m: Machine, x: seq<Byte>, a: Act)
    requires EnvOk(env) && Wf(env, m.core) && a.Does? && a.used <= |x|
  {
    && Wf(env, a.machine.core) && Coherent(env, a.machine.core, a.machine.caches)
    && Continues(env, m.core, x, a.out, a.machine.core, x[a.used..])
  }

  lemma UnitFollows(env: Env, m: Machine, x: seq<Byte>, a: Act)
    requires EnvOk(env) && MachineOk(env, m) && !m.core.mode.Skipping? && a.Does? && Next(env, m.core, x) == Worked(a.machine.core, a.out, a.used)
    requires Coherent(env, a.machine.core, a.machine.caches)
    ensures Follows(env, m, x, a)
  {
    hide EnvOk, Wf, Next, Continues, Coherent;
    UnitContinues(env, m.core, x);
  }

  lemma ParseFollows(env: Env, m: Machine, x: seq<Byte>)
    requires EnvOk(env) && MachineOk(env, m) && m.core.mode.Idle? && Coherent(env, m.core, m.caches) && OnParse(env, m, x).Does? && !Endless(m.core, x)
    ensures Follows(env, m, x, OnParse(env, m, x))
  {
    hide EnvOk, Wf, Dispatch, BeginWrite, FromBe32, JobOk, StatusReply, WrapUsize, Coherent, PacketRewrites, Follows;
    var a := OnParse(env, m, x);
    var length := FromBe32(x[..4]);
    if length > 0 && x[4] != FXP_WRITE && length <= MAX_REQUEST {
      PacketCoherent(env, m, x[4], x[5..4 + length]);
    } else {
      if length > 0 && x[4] == FXP_WRITE { WriteKeepsHandles(m.core, x, length); }
      SlotsInRange(env, m);
      SameCoherent(env, m.core, m.caches, a.machine);
    }
    UnitFollows(env, m, x, a);
  }

  lemma WriteKeepsHandles(c: Core, b: seq<Byte>, length: nat)
    ensures var u := BeginWrite(c, b, length); u.Worked? ==> u.core == c.(mode := u.core.mode)
  {
    hide FromBe32, WrapUsize, CheckWrite;
  }

  lemma ReadFollows(env: Env, m: Machine, x: seq<Byte>)
    requires EnvOk(env) && MachineOk(env, m) && m.core.mode.Reading? && Coherent(env, m.core, m.caches) && !Strays(m.core)
    ensures Follows(env, m, x, OnRead(env, m)) && !OnRead(env, m).machine.core.mode.Fatal?
  {
    hide EnvOk, TreeOk, ReadOutcome, JobOk, Coherent, SlotOk, CacheOk, FileAt, PathOf, Continues;
    var c, s := m.core, m.core.mode.read;
    var path := PathOf(c.slots[s.slot]);
    CoherentAt(env, c, m.caches, s.slot);
    ReadExact(env, c.root, path, m.caches[s.slot], s.offset, Min(s.remaining, IO_CHUNK));
    var r := ReadOutcome(env, c.root, path, m.caches[s.slot], s.offset, Min(s.remaining, IO_CHUNK));
    ReadContinues(env, c, x, |r.bytes.value|);
    assert x[0..] == x;
    SlotStaysOk(env, c.root, c.slots[s.slot], r.cache);
    CoherentWith(env, c, m.caches, s.slot, r.cache);
    SameCoherent(env, c, m.caches[s.slot := r.cache], OnRead(env, m).machine);
  }

  lemma SlotStaysOk(env: Env, root: Vol, s: Slot, k: Cache)
    requires EnvOk(env) && FileAt(root, PathOf(s)).Some? && CacheOk(env.g, FileAt(root, PathOf(s)).value, k)
    ensures SlotOk(env, root, s, k)
  {
  }

  // ---------------------------------------------------------------------
  // One chunk of a WRITE
  // ---------------------------------------------------------------------

  /** The handle a WRITE stores through still has its file, and exact cursors. */
  ghost predicate Storing(env: Env, m: Machine, f: FatFile) {
    && EnvOk(env) && MachineOk(env, m) && m.core.mode.Writing? && m.core.mode.write.failed.None? && m.core.mode.write.remaining > 0
    && m.core.mode.write.slot < |m.core.slots| && |m.caches| == |m.core.slots| && m.core.mode.write.slot !in m.core.lost
    && m.core.slots[m.core.mode.write.slot].FileSlot?
    && FileAt(m.core.root, PathOf(m.core.slots[m.core.mode.write.slot])) == Some(f)
    && Coherent(env, m.core, m.caches) && TreeOk(env, m.core.root) && m.core.root.Dir?
    && CacheOk(env.g, f, m.caches[m.core.mode.write.slot])
  }

  lemma StoringFile(env: Env, m: Machine) returns (f: FatFile)
    requires EnvOk(env) && MachineOk(env, m) && m.core.mode.Writing? && m.core.mode.write.failed.None? && m.core.mode.write.remaining > 0
    requires m.core.mode.write.slot !in m.core.lost && Coherent(env, m.core, m.caches)
    ensures Storing(env, m, f)
  {
    hide EnvOk, TreeOk, JobOk, SlotOk, FileAt, ModeOk, CacheOk;
    SlotsInRange(env, m);
    WriteFits(env, m.core);
    CoherentAt(env, m.core, m.caches, m.core.mode.write.slot);
    f := FileAt(m.core.root, PathOf(m.core.slots[m.core.mode.write.slot])).value;
  }

  /** What a chunk meets that is stored at `at`. */
  lemma WroteCoherent(env: Env, m: Machine, f: FatFile, at: nat, data: seq<Byte>, w: WriteStream)
    requires Storing(env, m, f)
    ensures EnvOk(env) && env.g.clusterSize > 0 && TreeOk(env, m.core.root) && m.core.root.Dir?
    ensures var c, slot := m.core, m.core.mode.write.slot;
            var path := PathOf(c.slots[slot]);
            var r := WriteOutcome(env, c.root, path, m.caches[slot], at, data);
            var refusal := WriteRefusal(Some(File(f)), at, |data|);
            && r.err == refusal && Coherent(env, Wrote(m, r, w).core, Wrote(m, r, w).caches)
            && (refusal.Some? ==> r.root == c.root)
            && (refusal.None? ==> at <= |f.data| && r.root == PutFile(c.root, path, Written(env.g, f, at, data)))
  {
    hide EnvOk, TreeOk, JobOk, SlotOk, Wf, WriteOutcome, CacheOk, Written, AfterWrite, Coherent, PutFile, WriteRefusal;
    var c, slot := m.core, m.core.mode.write.slot;
    var path := PathOf(c.slots[slot]);
    PositiveClusters(env);
    var r := WriteOutcome(env, c.root, path, m.caches[slot], at, data);
    WriteExact(env, c.root, path, m.caches[slot], at, data);
    if r.err.Some? {
      SlotStaysOk(env, c.root, c.slots[slot], r.cache);
      CoherentWith(env, c, m.caches, slot, r.cache);
      SameCoherent(env, c, m.caches[slot := r.cache], Wrote(m, r, w));
    } else {
      var after := Written(env.g, f, at, data);
      CoherentAfterWrite(env, c, m.caches, slot, after, r.cache);
      SameCoherent(env, c.(root := PutFile(c.root, path, after)), AfterWrite(c.slots, m.caches, slot, r.cache), Wrote(m, r, w));
    }
  }

  lemma MissingFollows(env: Env, m: Machine, x: seq<Byte>)
    requires EnvOk(env) && MachineOk(env, m) && m.core.mode.Writing? && m.core.mode.write.failed.None? && m.core.mode.write.remaining > 0
    requires Coherent(env, m.core, m.caches) && m.core.mode.write.slot < |m.core.slots|
    requires Lookup(m.core.root, PathOf(m.core.slots[m.core.mode.write.slot])).None? && Min(m.core.mode.write.remaining, WRITE_CHUNK) <= |x|
    ensures OnChunk(env, m, x[..Min(m.core.mode.write.remaining, WRITE_CHUNK)]).Does?
    ensures Follows(env, m, x, OnChunk(env, m, x[..Min(m.core.mode.write.remaining, WRITE_CHUNK)]))
  {
    hide EnvOk, TreeOk, JobOk, Coherent, WriteOutcome, Lookup, PathOf, Continues, Wf;
    var w := m.core.mode.write;
    var bytes := x[..Min(w.remaining, WRITE_CHUNK)];
    SlotsInRange(env, m);
    WriteFits(env, m.core);
    MissingChunk(env, m.core, bytes);
    FailedContinues(env, m.core, x, NO_SUCH_FILE);
    assert x[0..] == x;
    SameCoherent(env, m.core, m.caches, OnChunk(env, m, bytes).machine);
  }

  lemma MissingChunk(env: Env, c: Core, bytes: seq<Byte>)
    requires EnvOk(env) && c.mode.Writing? && c.mode.write.failed.None? && c.mode.write.slot < |c.slots|
    requires |bytes| <= c.mode.write.remaining && Lookup(c.root, PathOf(c.slots[c.mode.write.slot])).None?
    ensures AfterChunk(env, c, c.mode.write, bytes).mode.Writing?
    ensures AfterChunk(env, c, c.mode.write, bytes).mode.write.failed == Some(NO_SUCH_FILE) && !Strays(c)
  {
    hide EnvOk, Lookup;
  }

  /** With no gap before it, a chunk is stored unless `write_chunk` refuses it. */
  lemma ChunkStored(env: Env, c: Core, w: WriteStream, offset: nat, bytes: seq<Byte>)
    requires EnvOk(env) && w.slot < |c.slots| && c.slots[w.slot].FileSlot? && FileAt(c.root, PathOf(c.slots[w.slot])).Some?
    requires var f := FileAt(c.root, PathOf(c.slots[w.slot])).value;
             offset == (if c.slots[w.slot].append then |f.data| else w.offset) && offset <= |f.data|
    requires |bytes| <= w.remaining && w.failed.None?
    ensures var path := PathOf(c.slots[w.slot]);
            var n := Lookup(c.root, path);
            var refusal := WriteRefusal(n, offset, |bytes|);
            var left := w.remaining - |bytes|;
            AfterChunk(env, c, w, bytes) ==
            if refusal.Some? then c.(mode := Writing(w.(remaining := left, failed := refusal)))
            else c.(root := PutFile(c.root, path, Written(env.g, n.value.file, offset, bytes)),
                    mode := Writing(w.(remaining := left, offset := w.offset + |bytes|)))
  {
    hide Written;
    PositiveClusters(env);
  }

  /** Zeros before the end of the gap are refused only when the payload would be. */
  lemma GapRefusal(env: Env, c: Core, w: WriteStream, size: nat, count: nat, bytes: seq<Byte>)
    requires EnvOk(env) && w.slot < |c.slots| && c.slots[w.slot].FileSlot? && !c.slots[w.slot].append
    requires w.failed.None? && w.offset + w.remaining <= U32_TOP && |bytes| <= w.remaining
    requires FileAt(c.root, PathOf(c.slots[w.slot])).Some? && size == |FileAt(c.root, PathOf(c.slots[w.slot])).value.data|
    requires size < w.offset && 0 < count <= w.offset - size
    ensures var n := Lookup(c.root, PathOf(c.slots[w.slot]));
            var refusal := WriteRefusal(n, size, count);
            && (refusal.Some? <==> MetaOf(n.value).readOnly)
            && (refusal.Some? ==> refusal == Some(READ_ONLY) && AfterChunk(env, c, w, bytes).mode == Writing(w.(remaining := w.remaining - |bytes|, failed := refusal)))
  {
    hide Written, EnvOk;
  }

  lemma GapFollows(env: Env, m: Machine, f: FatFile, x: seq<Byte>)
    requires Storing(env, m, f) && Min(m.core.mode.write.remaining, WRITE_CHUNK) <= |x|
    requires !m.core.slots[m.core.mode.write.slot].append && m.core.mode.write.offset > |f.data|
    ensures EnvOk(env)
    ensures var bytes := x[..Min(m.core.mode.write.remaining, WRITE_CHUNK)];
            OnChunk(env, m, bytes).Does? && Follows(env, m, x, OnChunk(env, m, bytes))
  {
    hide EnvOk, TreeOk, JobOk, Coherent, WriteOutcome, Continues, CacheOk, Written, AfterChunk, Wf, PutFile, WriteRefusal;
    var c, w := m.core, m.core.mode.write;
    var bytes := x[..Min(w.remaining, WRITE_CHUNK)];
    var count := Min(w.offset - |f.data|, WRITE_CHUNK);
    WriteFits(env, c);
    GapRefusal(env, c, w, |f.data|, count, bytes);
    WroteCoherent(env, m, f, |f.data|, Zeros(count), w);
    WroteCoherent(env, m, f, |f.data|, Zeros(count), w.(failed := Some(READ_ONLY)));
    assert x[0..] == x;
    if f.meta.readOnly {
      FailedContinues(env, c, x, READ_ONLY);
    } else {
      GapContinues(env, c, x, count);
    }
  }

  lemma StoreUnit(env: Env, m: Machine, f: FatFile, bytes: seq<Byte>)
    requires Storing(env, m, f) && 0 < |bytes| <= m.core.mode.write.remaining
    requires m.core.slots[m.core.mode.write.slot].append || m.core.mode.write.offset <= |f.data|
    ensures EnvOk(env)
    ensures var a := OnChunk(env, m, bytes);
            && a.Does? && a.out == [] && a.used == |bytes| && a.machine.core == AfterChunk(env, m.core, m.core.mode.write, bytes)
            && Coherent(env, a.machine.core, a.machine.caches)
  {
    hide EnvOk, TreeOk, JobOk, Coherent, WriteOutcome, CacheOk, Written, AfterChunk, Wf, PutFile, WriteRefusal;
    var c, w := m.core, m.core.mode.write;
    var at := if c.slots[w.slot].append then |f.data| else w.offset;
    ChunkStored(env, c, w, at, bytes);
    WroteCoherent(env, m, f, at, bytes, OnChunk(env, m, bytes).machine.core.mode.write);
  }

  lemma StoreFollows(env: Env, m: Machine, f: FatFile, x: seq<Byte>)
    requires Storing(env, m, f) && Min(m.core.mode.write.remaining, WRITE_CHUNK) <= |x|
    requires m.core.slots[m.core.mode.write.slot].append || m.core.mode.write.offset <= |f.data|
    ensures EnvOk(env)
    ensures var bytes := x[..Min(m.core.mode.write.remaining, WRITE_CHUNK)];
            OnChunk(env, m, bytes).Does? && Follows(env, m, x, OnChunk(env, m, bytes))
  {
    hide EnvOk, TreeOk, JobOk, Coherent, Continues, CacheOk, AfterChunk, Wf, Follows, OnChunk, FileAt;
    var bytes := x[..Min(m.core.mode.write.remaining, WRITE_CHUNK)];
    StoreUnit(env, m, f, bytes);
    ChunkUnit(env, m.core, x);
    UnitFollows(env, m, x, OnChunk(env, m, bytes));
  }

  lemma WriteFollows(env: Env, m: Machine, x: seq<Byte>)
    requires EnvOk(env) && MachineOk(env, m) && m.core.mode.Writing? && Coherent(env, m.core, m.caches) && !Strays(m.core) && OnWrite(env, m, x).Does?
    ensures Follows(env, m, x, OnWrite(env, m, x))
  {
    hide EnvOk, TreeOk, JobOk, Coherent, OnChunk, Wf, StoreChunk, WriteReply, Follows, Lookup, CacheOk;
    var w := m.core.mode.write;
    SlotsInRange(env, m);
    if w.remaining == 0 || w.failed.Some? {
      SameCoherent(env, m.core, m.caches, OnWrite(env, m, x).machine);
      UnitFollows(env, m, x, OnWrite(env, m, x));
    } else if Lookup(m.core.root, PathOf(m.core.slots[w.slot])).None? {
      MissingFollows(env, m, x);
    } else {
      var f := StoringFile(env, m);
      if !m.core.slots[w.slot].append && w.offset > |f.data| { GapFollows(env, m, f, x); } else { StoreFollows(env, m, f, x); }
    }
  }

  // ---------------------------------------------------------------------
  // Growth, skipping, any unit
  // ---------------------------------------------------------------------

  lemma GrownCoherent(env: Env, m: Machine, f: FatFile, after: Machine)
    requires EnvOk(env) && MachineOk(env, m) && m.core.mode.Growing? && Coherent(env, m.core, m.caches) && |m.caches| == |m.core.slots|
    requires FileAt(m.core.root, m.core.mode.growth.path).Some?
    requires after.core.root == PutFile(m.core.root, m.core.mode.growth.path, f) && after.core.slots == m.core.slots && after.core.lost == m.core.lost
    requires after.caches == Forget(m.core.slots, m.caches, m.core.mode.growth.path)
    ensures Coherent(env, after.core, after.caches)
  {
    hide EnvOk, MachineOk, SlotOk, PutFile, FileAt;
    var c, path := m.core, m.core.mode.growth.path;
    CoherentAfterPutFile(env, c, m.caches, path, f);
    SameCoherent(env, c.(root := after.core.root), after.caches, after);
  }

  /** A file that has its new size only needs its other attributes. */
  lemma GrownEnough(env: Env, root: Vol, path: Path, f: FatFile, a: RequestedAttrs)
    requires EnvOk(env) && FileAt(root, path) == Some(f) && a.size.Some? && a.size.value <= |f.data|
    ensures FinishGrowth(env, root, path, a) == Stored(PutFile(root, path, f.(meta := NewMeta(env, f.meta, a))))
  {
    PositiveClusters(env);
  }

  lemma GrowRefused(env: Env, root: Vol, path: Path, f: FatFile, a: RequestedAttrs)
    requires EnvOk(env) && FileAt(root, path) == Some(f) && a.size.Some? && a.size.value > |f.data| && f.meta.readOnly
    ensures FinishGrowth(env, root, path, a) == Refused(READ_ONLY)
  {
  }

  lemma GrowFollows(env: Env, m: Machine, x: seq<Byte>)
    requires EnvOk(env) && MachineOk(env, m) && m.core.mode.Growing? && Coherent(env, m.core, m.caches)
    ensures Follows(env, m, x, OnGrow(env, m))
  {
    hide EnvOk, TreeOk, JobOk, Coherent, WriteOutcome, Continues, CacheOk, Written, Wf, PutFile, Forget, FinishGrowth, NewMeta, StatusReply, Padded;
    var c, g, a := m.core, m.core.mode.growth, OnGrow(env, m);
    SlotsInRange(env, m);
    GrowthFits(env, c);
    JobFile(env, m);
    var f := FileAt(c.root, g.path).value;
    assert x[0..] == x;
    PositiveClusters(env);
    if |f.data| >= g.attrs.size.value {
      GrownEnough(env, c.root, g.path, f, g.attrs);
      GrownCoherent(env, m, f.(meta := NewMeta(env, f.meta, g.attrs)), a.machine);
      UnitFollows(env, m, x, a);
    } else {
      GrowExact(env, m);
      if f.meta.readOnly {
        GrowRefused(env, c.root, g.path, f, g.attrs);
        SameCoherent(env, c, m.caches, a.machine);
        UnitFollows(env, m, x, a);
      } else {
        var count := Min(g.attrs.size.value - |f.data|, WRITE_CHUNK);
        GrownCoherent(env, m, Padded(env.g, f, count), a.machine);
        GrowthContinues(env, c, x, count);
      }
    }
  }

  /** Dropping one byte of an oversized request. */
  lemma SkipOneContinues(env: Env, c: Core, x: seq<Byte>)
    requires Wf(env, c) && c.mode.Skipping? && x != []
    ensures c.mode.left > 0
    ensures var after := c.(mode := Skipped(c.mode.left - 1)); Wf(env, after) && Continues(env, c, x, [], after, x[1..])
  {
    hide Wf, Run;
    SkipPositive(env, c);
    var after := c.(mode := Skipped(c.mode.left - 1));
    SkipWf(env, c, c.mode.left - 1);
    forall rest ensures Prefix([], Run(env, after, x[1..] + rest)) == Run(env, c, x + rest) {
      RunSkip(env, c, x[..1], x[1..] + rest);
      assert x[..1] + (x[1..] + rest) == x + rest && x[..1][1..] + (x[1..] + rest) == x[1..] + rest;
    }
  }

  lemma SkipFollows(env: Env, m: Machine, x: seq<Byte>)
    requires EnvOk(env) && MachineOk(env, m) && m.core.mode.Skipping? && Coherent(env, m.core, m.caches) && x != []
    ensures m.core.mode.left > 0 && Follows(env, m, x, Does(m.(core := m.core.(mode := Skipped(m.core.mode.left - 1))), [], 1))
  {
    hide EnvOk, Wf, JobOk, Coherent, Continues;
    SkipOneContinues(env, m.core, x);
    SlotsInRange(env, m);
    SameCoherent(env, m.core, m.caches, m.(core := m.core.(mode := Skipped(m.core.mode.left - 1))));
  }

  /** Until a stale cursor would be used or a header answered without end, the server does what the reference does. */
  lemma MicroFollows(env: Env, m: Machine, x: seq<Byte>)
    requires EnvOk(env) && MachineOk(env, m) && Coherent(env, m.core, m.caches) && Micro(env, m, x).Does? && !Stops(m.core, x)
    ensures Follows(env, m, x, Micro(env, m, x))
  {
    hide EnvOk, Wf, JobOk, OnParse, OnRead, OnWrite, OnGrow, Coherent, Follows, Strays, Endless;
    match m.core.mode
    case Idle => ParseFollows(env, m, x);
    case Reading(_) => ReadFollows(env, m, x);
    case Writing(_) => WriteFollows(env, m, x);
    case Growing(_) => GrowFollows(env, m, x);
    case Skipping(left) => SkipFollows(env, m, x);
    case Fatal =>
  }

  /** Where the server waits, so does the reference. */
  lemma WaitsTogether(env: Env, m: Machine, x: seq<Byte>)
    requires EnvOk(env) && MachineOk(env, m) && Micro(env, m, x).Waits?
    ensures Next(env, m.core, x).Stuck?
  {
    hide EnvOk, Wf, JobOk, OnPacket, OnRead, OnChunk, OnGrow, Strays, Dispatch, FromBe32, WrapUsize, StatusReply, WriteReply, AfterChunk, CheckWrite;
  }

  // ---------------------------------------------------------------------
  // Whole runs
  // ---------------------------------------------------------------------

  ghost predicate Exact(env: Env, g: Config)
    requires EnvOk(env)
  {
    MachineOk(env, g.machine) && Coherent(env, g.machine.core, g.machine.caches)
  }

  /** What the reference makes of all a configuration has yet to use, after what it has emitted. */
  ghost function Total(env: Env, g: Config): Outcome
    requires Wf(env, g.machine.core)
  {
    Prefix(g.out, Run(env, g.machine.core, g.rest))
  }

  lemma ThenExact(env: Env, g: Config)
    requires EnvOk(env) && Exact(env, g) && Busy(env, g) && !Stops(g.machine.core, g.rest)
    ensures Exact(env, Then(env, g)) && Total(env, Then(env, g)) == Total(env, g)
  {
    MicroOk(env, g.machine, g.rest);
    MicroFollows(env, g.machine, g.rest);
    hide EnvOk, MachineOk, Micro, Coherent, Run, Stops, Wf;
    var a := Micro(env, g.machine, g.rest);
    assert g.rest[a.used..] + [] == g.rest[a.used..] && g.rest + [] == g.rest;
    PrefixTwice(g.out, a.out, Run(env, a.machine.core, g.rest[a.used..]));
  }

  /** Where the stream's meaning ends the reference emits no more. */
  lemma StopsThere(env: Env, g: Config)
    requires EnvOk(env) && Exact(env, g) && Stops(g.machine.core, g.rest)
    ensures Total(env, g) == Outcome(g.out, g.machine.core, g.rest)
  {
    hide EnvOk, TreeOk, ModeOk, JobOk, Coherent, FromBe32, WrapUsize, Dispatch;
    StuckStays(env, g.machine.core, g.rest);
  }

  /**
   However a stream is served, the reference says what comes of it: exactly, as long as
   the reference itself has not come to a stale cursor or an endless header, and up to
   there in any case.
   */
  lemma {:induction false} Faithful(env: Env, c: Config, n: nat, d: Config)
    requires EnvOk(env) && Exact(env, c) && Reaches(env, c, n, d)
    ensures MachineOk(env, d.machine)
    ensures var o := Total(env, c);
            if Exact(env, d) && Total(env, d) == o then d.out <= o.out else o.out <= d.out && Stops(o.core, o.rest)
    decreases n
  {
    hide EnvOk, MachineOk, Micro, Coherent, Run, Stops, Wf;
    ReachesOk(env, c, n, d);
    if n > 0 {
      if Stops(c.machine.core, c.rest) {
        StopsThere(env, c);
        OutputGrows(env, c, n, d);
      } else {
        ThenExact(env, c);
        Faithful(env, Then(env, c), n - 1, d);
      }
    }
  }

  /** Where nothing is left to do and the reference did not stop early, everything it promises has happened. */
  lemma FaithfulEnd(env: Env, c: Config, n: nat, d: Config)
    requires EnvOk(env) && Exact(env, c) && Reaches(env, c, n, d) && !Busy(env, d)
    ensures var o := Total(env, c);
            !Stops(o.core, o.rest) ==> o == Outcome(d.out, d.machine.core, d.rest) && Exact(env, d)
  {
    hide EnvOk, MachineOk, Micro, Coherent, Run, Stops, Wf;
    Faithful(env, c, n, d);
    NotBusy(env, d);
    WaitsTogether(env, d.machine, d.rest);
    StuckStays(env, d.machine.core, d.rest);
  }

  lemma NotBusy(env: Env, d: Config)
    requires EnvOk(env) && MachineOk(env, d.machine) && !Busy(env, d)
    ensures Micro(env, d.machine, d.rest).Waits? && Wf(env, d.machine.core)
  {
  }
}
