/**
 Reading and writing through a handle whose file has another entry now, or another
 file has its entry: exactly when the saved cursor still gives what the file holds.
 */
module SftpStale {
  import opened Bytes
  import opened FatTree
  import opened FatFile
  import opened Wire
  import opened SftpVolume
  import opened SftpModel
  import opened SftpStream
  import opened SftpCursors
  import opened SftpRuns
  import opened SftpChunks
  import opened SftpMachine
  import opened SftpEntries

  // ---------------------------------------------------------------------
  // A saved read position is its cursor's
  // ---------------------------------------------------------------------

  predicate Tracked(k: Cache) { k.readAt.Some? ==> k.readAt.value.1.position == k.readAt.value.0 }

  ghost predicate AllTracked(m: Machine) { (forall i :: 0 <= i < |m.caches| ==> Tracked(m.caches[i])) && Tracked(m.job) }

  lemma ReadTracked(env: Env, root: Vol, path: Path, k: Cache, offset: nat, count: nat)
    requires EnvOk(env) && Tracked(k)
    ensures Tracked(ReadOutcome(env, root, path, k, offset, count).cache)
  {
    hide ReadFrom, ReadAccepted;
    PositiveGeometry(env);
    if FileAt(root, path).Some? { CursorPlace(env.g, FileAt(root, path).value, offset); }
  }

  lemma PositiveGeometry(env: Env)
    requires EnvOk(env)
    ensures env.g.clusterSize > 0 && GeometryOk(env.g)
  {
  }

  lemma WriteTracked(env: Env, root: Vol, path: Path, k: Cache, offset: nat, data: seq<Byte>)
    requires EnvOk(env) && TreeOk(env, root) && root.Dir? && Tracked(k)
    ensures Tracked(WriteOutcome(env, root, path, k, offset, data).cache)
  {
    hide TreeOk, EnvOk, OpenedWriter, StrayWrite, Stands, Written, TailOf;
  }

  lemma PacketTracked(env: Env, m: Machine, kind: Byte, body: seq<Byte>)
    requires EnvOk(env) && MachineOk(env, m) && m.core.mode.Idle? && AllTracked(m)
    ensures AllTracked(OnPacket(env, m, kind, body).0)
  {
    hide EnvOk, MachineOk, Dispatch, PacketRewrites, SizeAt;
    DispatchSlots(env, m.core, kind, body) by { SlotsInRange(env, m); MachineWf(env, m); }
  }

  lemma ChunkTracked(env: Env, m: Machine, bytes: seq<Byte>)
    requires EnvOk(env) && MachineOk(env, m) && m.core.mode.Writing? && m.core.mode.write.failed.None? && AllTracked(m)
    requires 0 < |bytes| <= m.core.mode.write.remaining
    ensures AllTracked(OnChunk(env, m, bytes).machine)
  {
    hide EnvOk, MachineOk, WriteOutcome, TreeOk, Lookup, PathOf;
    SlotsInRange(env, m);
    var c, w := m.core, m.core.mode.write;
    var s := c.slots[w.slot];
    var n := Lookup(c.root, PathOf(s));
    if n.Some? {
      var size := SizeOf(n.value);
      var at := if s.append then size else w.offset;
      if at > size {
        WriteTracked(env, c.root, PathOf(s), m.caches[w.slot], size, Zeros(Min(at - size, WRITE_CHUNK)));
      } else {
        WriteTracked(env, c.root, PathOf(s), m.caches[w.slot], at, bytes);
      }
    }
  }

  lemma GrowTracked(env: Env, m: Machine)
    requires EnvOk(env) && MachineOk(env, m) && m.core.mode.Growing? && AllTracked(m)
    ensures AllTracked(OnGrow(env, m).machine)
  {
    hide EnvOk, MachineOk, WriteOutcome, TreeOk, FileAt, StatusReply, NewMeta;
    GrowingFile(env, m);
    var c, g := m.core, m.core.mode.growth;
    var f, target := FileAt(c.root, g.path).value, g.attrs.size.value;
    if |f.data| < target { WriteTracked(env, c.root, g.path, m.job, |f.data|, Zeros(Min(target - |f.data|, WRITE_CHUNK))); }
  }

  /** Every unit of work keeps it so, stale cursors or not. */
  lemma MicroTracked(env: Env, m: Machine, b: seq<Byte>)
    requires EnvOk(env) && MachineOk(env, m) && AllTracked(m) && Micro(env, m, b).Does?
    ensures AllTracked(Micro(env, m, b).machine)
  {
    hide EnvOk, MachineOk, OnPacket, OnChunk, OnGrow, ReadOutcome, BeginWrite, StatusReply, WriteReply, FromBe32, WrapUsize, PathOf, AllTracked;
    SlotsInRange(env, m);
    match m.core.mode
    case Idle =>
      if |b| >= 5 {
        var length := FromBe32(b[..4]);
        if 0 < length <= MAX_REQUEST && b[4] != FXP_WRITE && |b| >= 4 + length { PacketTracked(env, m, b[4], b[5..4 + length]); }
        SameTracked(m, Micro(env, m, b).machine);
      }
    case Reading(s) =>
      CachesTracked(m, s.slot);
      ReadTracked(env, m.core.root, PathOf(m.core.slots[s.slot]), m.caches[s.slot], s.offset, Min(s.remaining, IO_CHUNK));
      TrackedWith(m, s.slot, ReadOutcome(env, m.core.root, PathOf(m.core.slots[s.slot]), m.caches[s.slot], s.offset, Min(s.remaining, IO_CHUNK)).cache,
                  Micro(env, m, b).machine);
    case Writing(w) =>
      var n := Min(w.remaining, WRITE_CHUNK);
      if w.remaining > 0 && w.failed.None? { ChunkTracked(env, m, b[..n]); } else { SameTracked(m, Micro(env, m, b).machine); }
    case Growing(_) => GrowTracked(env, m);
    case Skipping(_) => SameTracked(m, Micro(env, m, b).machine);
    case Fatal =>
  }

  lemma SameTracked(m: Machine, after: Machine)
    requires AllTracked(m)
    ensures after.caches == m.caches && after.job == m.job ==> AllTracked(after)
  {
  }

  lemma CachesTracked(m: Machine, i: nat)
    requires AllTracked(m) && i < |m.caches|
    ensures Tracked(m.caches[i])
  {
  }

  lemma TrackedWith(m: Machine, i: nat, k: Cache, after: Machine)
    requires AllTracked(m) && i < |m.caches| && Tracked(k) && after.caches == m.caches[i := k] && after.job == m.job
    ensures AllTracked(after)
  {
  }

  /** So it is wherever a run has led. */
  lemma {:induction false} ReachesTracked(env: Env, c: Config, n: nat, d: Config)
    requires EnvOk(env) && Reaches(env, c, n, d) && AllTracked(c.machine)
    ensures AllTracked(d.machine)
    decreases n
  {
    hide EnvOk, MachineOk, Micro, AllTracked;
    if n > 0 {
      MicroTracked(env, c.machine, c.rest);
      ReachesTracked(env, Then(env, c), n - 1, d);
    }
  }

  lemma SessionTracked(env: Env, root: Vol, nextId: nat, stream: seq<Byte>, n: nat, d: Config)
    requires EnvOk(env) && Reaches(env, Config(OpeningMachine(root, nextId), [], stream), n, d)
    ensures AllTracked(d.machine)
  {
    hide EnvOk, Reaches;
    ReachesTracked(env, Config(OpeningMachine(root, nextId), [], stream), n, d);
  }

  // ---------------------------------------------------------------------
  // Reading
  // ---------------------------------------------------------------------

  /** The next read resumes from the saved cursor. */
  predicate Resumes(k: Cache, offset: nat) { k.readAt.Some? && k.readAt.value.0 == offset }

  /** If it does, the cursor passes its checks and its cluster is where it says it is. */
  predicate ReadHolds(env: Env, f: FatFile, k: Cache, offset: nat) {
    Resumes(k, offset) ==> ReadAccepted(env.g, f, k.readAt.value.1) && ReaderStands(env, f, k.readAt.value.1)
  }

  predicate GivesFile(r: ReadResult, f: FatFile, offset: nat) {
    && r.bytes.Some? && r.bytes.value != [] && offset + |r.bytes.value| <= |f.data|
    && r.bytes.value == f.data[offset..offset + |r.bytes.value|]
  }

  /** A card on which reading through a stale cursor gives `r`. */
  function ReadGiving(env: Env, r: (Option<seq<Byte>>, ReadCursor)): (e: Env)
    requires EnvOk(env)
    ensures EnvOk(e)
  {
    env.(strayRead := (root, path, cursor, count) => r)
  }

  /** A chunk is the file's bytes at the offset, whatever a stale cursor would give. */
  ghost predicate AlwaysGives(env: Env, root: Vol, path: Path, k: Cache, offset: nat, count: nat)
    requires EnvOk(env) && FileAt(root, path).Some?
  {
    forall r :: GivesFile(ReadOutcome(ReadGiving(env, r), root, path, k, offset, count), FileAt(root, path).value, offset)
  }

  /** It is exactly when no cursor is resumed from or the one that is holds; one that is refused gives nothing. */
  lemma ReadIff(env: Env, root: Vol, path: Path, k: Cache, offset: nat, count: nat)
    requires EnvOk(env) && TreeOk(env, root) && FileAt(root, path).Some? && Tracked(k)
    requires count > 0 && offset < |FileAt(root, path).value.data|
    ensures AlwaysGives(env, root, path, k, offset, count) <==> ReadHolds(env, FileAt(root, path).value, k, offset)
    ensures var f, r := FileAt(root, path).value, ReadOutcome(env, root, path, k, offset, count);
            && (ReadHolds(env, f, k, offset) ==> GivesFile(r, f, offset))
            && (Resumes(k, offset) && !ReadAccepted(env.g, f, k.readAt.value.1) ==> r == ReadResult(None, k.(readAt := None)))
  {
    hide TreeOk, EnvOk, ReadAccepted, ReaderStands, GivesFile;
    var f := FileAt(root, path).value;
    if ReadHolds(env, f, k, offset) {
      HeldGives(env, root, path, k, offset, count);
      forall r ensures GivesFile(ReadOutcome(ReadGiving(env, r), root, path, k, offset, count), f, offset) {
        SameReading(env, r, root, f, k, offset);
        HeldGives(ReadGiving(env, r), root, path, k, offset, count);
      }
    } else {
      var nothing := (None, k.readAt.value.1);
      SameReading(env, nothing, root, f, k, offset);
      StrayGives(ReadGiving(env, nothing), root, path, k, offset, count);
      assert !GivesFile(ReadOutcome(ReadGiving(env, nothing), root, path, k, offset, count), f, offset) by { NothingGiven(k, f, offset); }
      if !ReadAccepted(env.g, f, k.readAt.value.1) { RefusedGives(env, root, path, k, offset, count); }
    }
  }

  lemma NothingGiven(k: Cache, f: FatFile, offset: nat)
    ensures !GivesFile(ReadResult(None, k.(readAt := None)), f, offset)
  {
  }

  lemma RefusedGives(env: Env, root: Vol, path: Path, k: Cache, offset: nat, count: nat)
    requires EnvOk(env) && FileAt(root, path).Some? && Resumes(k, offset) && !ReadAccepted(env.g, FileAt(root, path).value, k.readAt.value.1)
    ensures ReadOutcome(env, root, path, k, offset, count) == ReadResult(None, k.(readAt := None))
  {
    hide EnvOk, ReadAccepted;
  }

  lemma SameReading(env: Env, r: (Option<seq<Byte>>, ReadCursor), root: Vol, f: FatFile, k: Cache, offset: nat)
    requires EnvOk(env)
    ensures var e := ReadGiving(env, r);
            && e.g == env.g && (TreeOk(env, root) ==> TreeOk(e, root))
            && ReadHolds(e, f, k, offset) == ReadHolds(env, f, k, offset)
            && forall root, path, cursor, count :: e.strayRead(root, path, cursor, count) == r
  {
    if TreeOk(env, root) { SameTree(env, ReadGiving(env, r), root); }
  }

  /** Soundness of a tree depends on the geometry alone. */
  lemma {:induction false} SameTree(env: Env, e: Env, n: Vol)
    requires EnvOk(env) && EnvOk(e) && e.g == env.g && TreeOk(env, n)
    ensures TreeOk(e, n)
    decreases n
  {
    hide EnvOk, Sound, PlainName, Unambiguous;
    match n
    case File(_) => assert EnvOk(e);
    case Dir(_, entries) =>
      forall i | 0 <= i < |entries| ensures TreeOk(e, entries[i].node) { SameTree(env, e, entries[i].node); }
  }

  lemma HeldGives(env: Env, root: Vol, path: Path, k: Cache, offset: nat, count: nat)
    requires EnvOk(env) && TreeOk(env, root) && FileAt(root, path).Some? && Tracked(k)
    requires count > 0 && offset < |FileAt(root, path).value.data| && ReadHolds(env, FileAt(root, path).value, k, offset)
    ensures GivesFile(ReadOutcome(env, root, path, k, offset, count), FileAt(root, path).value, offset)
  {
    hide TreeOk, ReadAccepted;
    var f := FileAt(root, path).value;
    FileSoundAt(env, root, path);
    PositionRoundTrip(env.g, f, offset);
    CursorPlace(env.g, f, offset);
  }

  lemma StrayGives(env: Env, root: Vol, path: Path, k: Cache, offset: nat, count: nat)
    requires EnvOk(env) && FileAt(root, path).Some? && !ReadHolds(env, FileAt(root, path).value, k, offset)
    requires forall root, path, cursor, count :: env.strayRead(root, path, cursor, count).0.None?
    ensures ReadOutcome(env, root, path, k, offset, count) == ReadResult(None, k.(readAt := None))
  {
    hide EnvOk, ReadAccepted, ReaderStands;
  }

  // ---------------------------------------------------------------------
  // One unit of a DATA reply
  // ---------------------------------------------------------------------

  /** The file a DATA reply reads, and the cache it reads through. */
  ghost predicate ReadsFrom(env: Env, m: Machine, f: FatFile, k: Cache) {
    && EnvOk(env) && MachineOk(env, m) && m.core.mode.Reading? && m.core.mode.read.slot < |m.core.slots| && |m.caches| == |m.core.slots|
    && FileAt(m.core.root, PathOf(m.core.slots[m.core.mode.read.slot])) == Some(f) && k == m.caches[m.core.mode.read.slot]
  }

  lemma ReadingFile(env: Env, m: Machine) returns (f: FatFile, k: Cache)
    requires EnvOk(env) && MachineOk(env, m) && m.core.mode.Reading?
    ensures ReadsFrom(env, m, f, k) && TreeOk(env, m.core.root)
    ensures m.core.mode.read.offset + m.core.mode.read.remaining <= |f.data| && m.core.mode.read.remaining > 0
  {
    hide EnvOk, TreeOk, JobOk;
    SlotsInRange(env, m);
    f, k := FileAt(m.core.root, PathOf(m.core.slots[m.core.mode.read.slot])).value, m.caches[m.core.mode.read.slot];
  }

  /** The unit sends the file's next bytes and does not end the session. */
  ghost predicate SendsFile(env: Env, m: Machine, f: FatFile)
    requires EnvOk(env) && MachineOk(env, m) && m.core.mode.Reading?
  {
    var a, offset := OnRead(env, m), m.core.mode.read.offset;
    !a.machine.core.mode.Fatal? && a.out != [] && offset + |a.out| <= |f.data| && a.out == f.data[offset..offset + |a.out|]
  }

  ghost predicate AlwaysSends(env: Env, m: Machine, f: FatFile)
    requires EnvOk(env) && m.core.mode.Reading?
  {
    forall r :: MachineOk(ReadGiving(env, r), m) && SendsFile(ReadGiving(env, r), m, f)
  }

  /**
   A unit of a DATA reply sends the file's bytes, whatever stale cursors give, exactly when its
   cursor holds. One that is refused ends the session inside the reply.
   */
  lemma ReadUnitIff(env: Env, m: Machine, f: FatFile, k: Cache)
    requires ReadsFrom(env, m, f, k) && AllTracked(m)
    ensures AlwaysSends(env, m, f) <==> ReadHolds(env, f, k, m.core.mode.read.offset)
    ensures ReadHolds(env, f, k, m.core.mode.read.offset) ==> SendsFile(env, m, f)
    ensures Resumes(k, m.core.mode.read.offset) && !ReadAccepted(env.g, f, k.readAt.value.1) ==>
              OnRead(env, m).machine.core == m.core.(mode := Fatal) && OnRead(env, m).out == []
  {
    hide EnvOk, MachineOk, TreeOk, AllTracked, ReadOutcome, ReadHolds, GivesFile, ReadAccepted, FileAt, PathOf, ReadGiving;
    var s := m.core.mode.read;
    var path, count := PathOf(m.core.slots[s.slot]), Min(s.remaining, IO_CHUNK);
    var f1, k1 := ReadingFile(env, m);
    CachesTracked(m, s.slot);
    ReadIff(env, m.core.root, path, k, s.offset, count);
    SentIsGiven(env, m, f, k);
    forall r ensures MachineOk(ReadGiving(env, r), m) {
      SameMachine(env, ReadGiving(env, r), m) by { assert ReadGiving(env, r) == env.(strayRead := ReadGiving(env, r).strayRead) by { GivingIs(env, r); } }
    }
    forall r ensures SendsFile(ReadGiving(env, r), m, f) <==> GivesFile(ReadOutcome(ReadGiving(env, r), m.core.root, path, k, s.offset, count), f, s.offset) {
      assert ReadsFrom(ReadGiving(env, r), m, f, k);
      SentIsGiven(ReadGiving(env, r), m, f, k);
    }
  }

  lemma GivingIs(env: Env, r: (Option<seq<Byte>>, ReadCursor))
    requires EnvOk(env)
    ensures ReadGiving(env, r) == env.(strayRead := ReadGiving(env, r).strayRead)
  {
  }

  lemma SentIsGiven(env: Env, m: Machine, f: FatFile, k: Cache)
    requires ReadsFrom(env, m, f, k)
    ensures var s := m.core.mode.read;
            var r := ReadOutcome(env, m.core.root, PathOf(m.core.slots[s.slot]), k, s.offset, Min(s.remaining, IO_CHUNK));
            && (SendsFile(env, m, f) <==> GivesFile(r, f, s.offset))
            && (r.bytes.None? ==> OnRead(env, m).machine.core == m.core.(mode := Fatal) && OnRead(env, m).out == [])
  {
    hide EnvOk, MachineOk, ReadOutcome, FileAt, PathOf;
    SlotsInRange(env, m);
  }

  /** A machine is as well-formed on a card that reads or writes otherwise through stale cursors. */
  lemma SameMachine(env: Env, e: Env, m: Machine)
    requires EnvOk(env) && EnvOk(e) && MachineOk(env, m)
    requires e == env.(strayRead := e.strayRead) || e == env.(strayWrite := e.strayWrite)
    ensures MachineOk(e, m)
  {
    hide EnvOk, TreeOk, FileAt, Lookup, CacheOk;
    SlotsInRange(env, m);
    SameTree(env, e, m.core.root);
    assert AttrsRefusal(e, if m.core.mode.Growing? then m.core.mode.growth.attrs else NO_ATTRS) ==
           AttrsRefusal(env, if m.core.mode.Growing? then m.core.mode.growth.attrs else NO_ATTRS);
  }

  // ---------------------------------------------------------------------
  // Writing
  // ---------------------------------------------------------------------

  /** The write is not refused, goes to the end of the file, and resumes from the saved tail. */
  predicate ResumesTail(f: FatFile, k: Cache, offset: nat, length: nat) {
    WriteRefusal(Some(File(f)), offset, length).None? && offset == |f.data| && k.size == |f.data| && k.append.Some?
  }

  /** If it does, the cursor passes its checks and its cluster is where it says it is. */
  predicate TailHolds(env: Env, f: FatFile, k: Cache, offset: nat, length: nat)
    requires EnvOk(env)
  {
    ResumesTail(f, k, offset, length) ==> AppendAccepted(env.g, f, k.append.value) && Stands(env.g, f, ResumedWriter(k.append.value))
  }

  /** The flat write, or its refusal. */
  predicate StoresFlat(env: Env, root: Vol, path: Path, r: WriteResult, offset: nat, data: seq<Byte>)
    requires EnvOk(env)
  {
    match StoreChunk(env, root, path, false, offset, data)
    case Stored(after) => r.err.None? && r.root == after
    case Refused(status) => r.err == Some(status) && r.root == root
  }

  /** A card on which writing through a stale cursor comes to `s`. */
  function WriteGiving(env: Env, s: Stray): (e: Env)
    requires EnvOk(env)
    ensures EnvOk(e)
  {
    env.(strayWrite := (root, path, w, data) => s)
  }

  lemma WritingIs(env: Env, s: Stray)
    requires EnvOk(env)
    ensures var e := WriteGiving(env, s);
            && e == env.(strayWrite := e.strayWrite) && e.g == env.g
            && forall root, path, w, data :: e.strayWrite(root, path, w, data) == s
  {
  }

  /** A chunk is stored as the flat write stores it, whatever comes of writing through a stale cursor. */
  ghost predicate AlwaysStores(env: Env, root: Vol, path: Path, k: Cache, offset: nat, data: seq<Byte>)
    requires EnvOk(env) && root.Dir?
  {
    forall s :: TreeOk(WriteGiving(env, s), root) &&
                StoresFlat(env, root, path, WriteOutcome(WriteGiving(env, s), root, path, k, offset, data), offset, data)
  }

  /** It is exactly when no tail is resumed from or the one that is holds; one that is refused stores nothing. */
  lemma WriteIff(env: Env, root: Vol, path: Path, k: Cache, offset: nat, data: seq<Byte>)
    requires EnvOk(env) && TreeOk(env, root) && root.Dir? && FileAt(root, path).Some? && offset <= |FileAt(root, path).value.data|
    ensures AlwaysStores(env, root, path, k, offset, data) <==> TailHolds(env, FileAt(root, path).value, k, offset, |data|)
    ensures var f, r := FileAt(root, path).value, WriteOutcome(env, root, path, k, offset, data);
            && (TailHolds(env, f, k, offset, |data|) ==> StoresFlat(env, root, path, r, offset, data))
            && (ResumesTail(f, k, offset, |data|) && !AppendAccepted(env.g, f, k.append.value) ==>
                  r == WriteResult(Some(WRITE_FAILED), root, k.(append := None)))
  {
    hide TreeOk, EnvOk, AppendAccepted, Stands, StoresFlat, WriteOutcome, FileAt, WriteGiving;
    var f := FileAt(root, path).value;
    forall s ensures TreeOk(WriteGiving(env, s), root) {
      WritingIs(env, s);
      SameTree(env, WriteGiving(env, s), root);
    }
    if TailHolds(env, f, k, offset, |data|) {
      HeldStores(env, env, root, path, k, offset, data);
      forall s ensures StoresFlat(env, root, path, WriteOutcome(WriteGiving(env, s), root, path, k, offset, data), offset, data) {
        WritingIs(env, s);
        HeldStores(env, WriteGiving(env, s), root, path, k, offset, data);
      }
    } else {
      var nothing := Stray(false, root, k.append.value);
      WritingIs(env, nothing);
      StrayStores(env, WriteGiving(env, nothing), root, path, k, offset, data);
      if !AppendAccepted(env.g, f, k.append.value) { TailRefused(env, root, path, k, offset, data); }
    }
  }

  lemma HeldStores(env: Env, e: Env, root: Vol, path: Path, k: Cache, offset: nat, data: seq<Byte>)
    requires EnvOk(env) && EnvOk(e) && e.g == env.g && TreeOk(e, root) && root.Dir?
    requires FileAt(root, path).Some? && offset <= |FileAt(root, path).value.data|
    requires TailHolds(env, FileAt(root, path).value, k, offset, |data|)
    ensures StoresFlat(env, root, path, WriteOutcome(e, root, path, k, offset, data), offset, data)
  {
    hide TreeOk, Written, AppendAccepted;
    var f := FileAt(root, path).value;
    FileSoundAt(e, root, path);
    WriterStands(e, f, None, offset);
  }

  lemma TailRefused(env: Env, root: Vol, path: Path, k: Cache, offset: nat, data: seq<Byte>)
    requires EnvOk(env) && TreeOk(env, root) && root.Dir? && FileAt(root, path).Some?
    requires ResumesTail(FileAt(root, path).value, k, offset, |data|) && !AppendAccepted(env.g, FileAt(root, path).value, k.append.value)
    ensures WriteOutcome(env, root, path, k, offset, data) == WriteResult(Some(WRITE_FAILED), root, k.(append := None))
  {
    hide TreeOk, EnvOk, AppendAccepted, Commit;
  }

  lemma StrayStores(env: Env, e: Env, root: Vol, path: Path, k: Cache, offset: nat, data: seq<Byte>)
    requires EnvOk(env) && EnvOk(e) && e.g == env.g && TreeOk(e, root) && root.Dir?
    requires FileAt(root, path).Some? && !TailHolds(env, FileAt(root, path).value, k, offset, |data|)
    requires forall root, path, w, data :: !e.strayWrite(root, path, w, data).ok
    ensures !StoresFlat(env, root, path, WriteOutcome(e, root, path, k, offset, data), offset, data)
  {
    hide TreeOk, EnvOk, AppendAccepted, Stands, Written;
  }

  // ---------------------------------------------------------------------
  // One unit of a WRITE
  // ---------------------------------------------------------------------

  /** Where the next card access of a WRITE goes, and with what: part of the gap before the payload, or the next chunk of it. */
  function Piece(c: Core, size: nat, bytes: seq<Byte>): (nat, seq<Byte>)
    requires c.mode.Writing? && c.mode.write.slot < |c.slots| && c.slots[c.mode.write.slot].FileSlot?
  {
    var w, s := c.mode.write, c.slots[c.mode.write.slot];
    var at := if s.append then size else w.offset;
    if at > size then (size, Zeros(Min(at - size, WRITE_CHUNK))) else (at, bytes)
  }

  /** The file the next chunk goes to, and the cache it goes through. */
  ghost predicate StoresTo(env: Env, m: Machine, f: FatFile, k: Cache, bytes: seq<Byte>) {
    && EnvOk(env) && MachineOk(env, m) && m.core.mode.Writing? && m.core.mode.write.failed.None? && 0 < |bytes| <= m.core.mode.write.remaining
    && m.core.mode.write.slot < |m.core.slots| && |m.caches| == |m.core.slots| && m.core.slots[m.core.mode.write.slot].FileSlot?
    && FileAt(m.core.root, PathOf(m.core.slots[m.core.mode.write.slot])) == Some(f) && k == m.caches[m.core.mode.write.slot]
  }

  /** The unit leaves what the flat write leaves, or its refusal. */
  ghost predicate UnitStores(env: Env, m: Machine, f: FatFile, bytes: seq<Byte>)
    requires EnvOk(env) && MachineOk(env, m) && m.core.mode.Writing? && m.core.mode.write.failed.None? && 0 < |bytes| <= m.core.mode.write.remaining
    requires m.core.mode.write.slot < |m.core.slots| && m.core.slots[m.core.mode.write.slot].FileSlot?
  {
    var after, (at, data) := OnChunk(env, m, bytes).machine.core, Piece(m.core, |f.data|, bytes);
    after.mode.Writing? && match StoreChunk(env, m.core.root, PathOf(m.core.slots[m.core.mode.write.slot]), false, at, data)
                           case Stored(root) => after.mode.write.failed.None? && after.root == root
                           case Refused(status) => after.mode.write.failed == Some(status) && after.root == m.core.root
  }

  ghost predicate AlwaysUnitStores(env: Env, m: Machine, f: FatFile, k: Cache, bytes: seq<Byte>)
    requires StoresTo(env, m, f, k, bytes)
  {
    forall s :: MachineOk(WriteGiving(env, s), m) && UnitStores(WriteGiving(env, s), m, f, bytes)
  }

  /**
   A unit of a WRITE stores what the flat write stores, whatever comes of stale cursors, exactly when
   its tail holds. One that is refused fails the WRITE and stores nothing.
   */
  lemma WriteUnitIff(env: Env, m: Machine, f: FatFile, k: Cache, bytes: seq<Byte>)
    requires StoresTo(env, m, f, k, bytes)
    ensures var (at, data) := Piece(m.core, |f.data|, bytes);
            && (AlwaysUnitStores(env, m, f, k, bytes) <==> TailHolds(env, f, k, at, |data|))
            && (TailHolds(env, f, k, at, |data|) ==> UnitStores(env, m, f, bytes))
            && (ResumesTail(f, k, at, |data|) && !AppendAccepted(env.g, f, k.append.value) ==>
                  var after := OnChunk(env, m, bytes).machine.core;
                  after.mode.Writing? && after.mode.write.failed == Some(WRITE_FAILED) && after.root == m.core.root)
  {
    hide EnvOk, MachineOk, TreeOk, WriteOutcome, TailHolds, ResumesTail, StoresFlat, AppendAccepted, FileAt, PathOf, WriteGiving, Piece;
    var (at, data) := Piece(m.core, |f.data|, bytes);
    var path := PathOf(m.core.slots[m.core.mode.write.slot]);
    SlotsInRange(env, m);
    PieceInside(m.core, |f.data|, bytes);
    WriteIff(env, m.core.root, path, k, at, data);
    UnitIsStore(env, env, m, f, k, bytes);
    forall s ensures MachineOk(WriteGiving(env, s), m) && TreeOk(WriteGiving(env, s), m.core.root)
      ensures UnitStores(WriteGiving(env, s), m, f, bytes) <==>
                StoresFlat(env, m.core.root, path, WriteOutcome(WriteGiving(env, s), m.core.root, path, k, at, data), at, data) {
      WritingIs(env, s);
      SameMachine(env, WriteGiving(env, s), m);
      SlotsInRange(WriteGiving(env, s), m);
      UnitIsStore(env, WriteGiving(env, s), m, f, k, bytes);
    }
  }

  /** Where the handle's path leads to no file the WRITE is refused as it is without cursors. */
  lemma NoFileUnit(env: Env, m: Machine, bytes: seq<Byte>)
    requires EnvOk(env) && MachineOk(env, m) && m.core.mode.Writing? && m.core.mode.write.failed.None? && 0 < |bytes| <= m.core.mode.write.remaining
    requires m.core.mode.write.slot < |m.core.slots| && FileAt(m.core.root, PathOf(m.core.slots[m.core.mode.write.slot])).None?
    ensures var s, after := m.core.slots[m.core.mode.write.slot], OnChunk(env, m, bytes).machine.core;
            var store := StoreChunk(env, m.core.root, PathOf(s), s.FileSlot? && s.append, m.core.mode.write.offset, bytes);
            store.Refused? && after.mode.Writing? && after.mode.write.failed == Some(store.status) && after.root == m.core.root
  {
    hide EnvOk, TreeOk, PathOf, Written, Lookup;
    SlotsInRange(env, m);
    WriteFits(env, m.core);
  }

  lemma PieceInside(c: Core, size: nat, bytes: seq<Byte>)
    requires c.mode.Writing? && c.mode.write.slot < |c.slots| && c.slots[c.mode.write.slot].FileSlot?
    ensures Piece(c, size, bytes).0 <= size
  {
  }

  lemma UnitIsStore(env: Env, e: Env, m: Machine, f: FatFile, k: Cache, bytes: seq<Byte>)
    requires EnvOk(env) && e.g == env.g && StoresTo(e, m, f, k, bytes)
    ensures var (at, data) := Piece(m.core, |f.data|, bytes);
            var path := PathOf(m.core.slots[m.core.mode.write.slot]);
            && TreeOk(e, m.core.root) && m.core.root.Dir?
            && var r := WriteOutcome(e, m.core.root, path, k, at, data);
               && (UnitStores(e, m, f, bytes) <==> StoresFlat(env, m.core.root, path, r, at, data))
               && (r.err.Some? ==> var after := OnChunk(e, m, bytes).machine.core;
                                   after.mode.Writing? && after.mode.write.failed == r.err && after.root == r.root)
  {
    hide EnvOk, MachineOk, TreeOk, WriteOutcome, PathOf, Written;
    SlotsInRange(e, m);
  }

  /** The cursors of a handle that still has its file hold, wherever it reads or writes. */
  lemma ExactHolds(env: Env, f: FatFile, k: Cache, offset: nat, length: nat)
    requires EnvOk(env) && Sound(env.g, f) && CacheOk(env.g, f, k)
    ensures Tracked(k) && ReadHolds(env, f, k, offset) && TailHolds(env, f, k, offset, length)
  {
    hide EnvOk, Sound, AppendAccepted, ReadAccepted, PositionOf;
    PositiveGeometry(env);
    if k.readAt.Some? {
      CursorAccepted(env.g, f, k.readAt.value.0);
      CursorPlace(env.g, f, k.readAt.value.0);
      PositionRoundTrip(env.g, f, k.readAt.value.0);
    }
    TailAccepted(env.g, f);
    PositionRoundTrip(env.g, f, |f.data|);
  }

  // ---------------------------------------------------------------------
  // After a RENAME to the same name, or to another case of it
  // ---------------------------------------------------------------------

  /** The file is where its handles look for it, under another identity. */
  lemma RenamedFile(env: Env, root: Vol, stamp: nat, source: Path, target: Path, path: Path)
    requires EnvOk(env) && TreeOk(env, root) && RenameOf(root, source, target) && SamePath(target, source) && SamePath(path, source)
    requires FileAt(root, source).Some?
    ensures var f, id := FileAt(root, source).value, MovedIdentity(env, root, source, target, stamp);
            id != f.id && FileAt(Renamed(root, id, source, target), path) == Some(f.(id := id))
  {
    hide EnvOk, TreeOk, Lookup, MovedIdentity, RenameOf, Renamed;
    var id := MovedIdentity(env, root, source, target, stamp);
    RenameMoves(env, root, id, source, target, []);
    SameAsBoth(path, target, source);
    LookupSamePath(Renamed(root, id, source, target), path, target);
  }

  lemma SameAsBoth(a: Path, b: Path, c: Path)
    requires SamePath(a, c) && SamePath(b, c)
    ensures SamePath(a, b)
  {
  }

  /** A read through a handle that had exact cursors fails exactly when it resumes from the one it saved. */
  lemma RenamedRead(env: Env, root: Vol, stamp: nat, source: Path, target: Path, path: Path, k: Cache, offset: nat, count: nat)
    requires EnvOk(env) && TreeOk(env, root) && root.Dir? && RenameOf(root, source, target) && env.nameOk(target[|target| - 1])
    requires SamePath(target, source) && SamePath(path, source)
    requires FileAt(root, source).Some? && CacheOk(env.g, FileAt(root, source).value, k)
    requires count > 0 && offset < |FileAt(root, source).value.data|
    ensures var f, after := FileAt(root, source).value, Renamed(root, MovedIdentity(env, root, source, target, stamp), source, target);
            var r := ReadOutcome(env, after, path, k, offset, count);
            if Resumes(k, offset) then r == ReadResult(None, k.(readAt := None)) else GivesFile(r, f, offset)
  {
    hide EnvOk, TreeOk, Lookup, MovedIdentity, RenameOf, Renamed, SamePath, FileAt, TailOf, GivesFile;
    var f, id := FileAt(root, source).value, MovedIdentity(env, root, source, target, stamp);
    var after := Renamed(root, id, source, target);
    RenamedFile(env, root, stamp, source, target, path);
    RenamedOk(env, root, id, source, target);
    PositiveGeometry(env);
    if k.readAt.Some? { CursorPlace(env.g, f, k.readAt.value.0); }
    ReadIff(env, after, path, k, offset, count);
    assert GivesFile(ReadOutcome(env, after, path, k, offset, count), f, offset) || Resumes(k, offset) by { SameGives(f, f.(id := id), ReadOutcome(env, after, path, k, offset, count), offset); }
  }

  lemma SameGives(f: FatFile, h: FatFile, r: ReadResult, offset: nat)
    requires f.data == h.data
    ensures GivesFile(r, f, offset) == GivesFile(r, h, offset)
  {
  }

  /** A write through such a handle fails, and stores nothing, exactly when it resumes from the tail it saved. */
  lemma RenamedWrite(env: Env, root: Vol, stamp: nat, source: Path, target: Path, path: Path, k: Cache, offset: nat, data: seq<Byte>)
    requires EnvOk(env) && TreeOk(env, root) && root.Dir? && RenameOf(root, source, target) && env.nameOk(target[|target| - 1])
    requires SamePath(target, source) && SamePath(path, source)
    requires FileAt(root, source).Some? && CacheOk(env.g, FileAt(root, source).value, k) && offset <= |FileAt(root, source).value.data|
    ensures var f, after := FileAt(root, source).value, Renamed(root, MovedIdentity(env, root, source, target, stamp), source, target);
            && TreeOk(env, after) && after.Dir?
            && var r := WriteOutcome(env, after, path, k, offset, data);
               if ResumesTail(f, k, offset, |data|) then r == WriteResult(Some(WRITE_FAILED), after, k.(append := None))
               else StoresFlat(env, after, path, r, offset, data)
  {
    hide EnvOk, TreeOk, Lookup, MovedIdentity, RenameOf, Renamed, SamePath, FileAt, StoresFlat, WriteOutcome;
    var f, id := FileAt(root, source).value, MovedIdentity(env, root, source, target, stamp);
    var after := Renamed(root, id, source, target);
    RenamedFile(env, root, stamp, source, target, path);
    RenamedOk(env, root, id, source, target);
    PositiveGeometry(env);
    WriteIff(env, after, path, k, offset, data);
  }
}
