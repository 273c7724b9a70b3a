/**
 The server as it works, one card access at a time and with its cached cursors, but
 without buffers and polling. Every unit of work is decided by the state and the
 unused input alone, whatever has happened to the files its handles stand for.
 */
module SftpMachine {
  import opened Bytes
  import opened FatTree
  import opened FatFile
  import opened FsPath
  import opened Wire
  import opened SftpVolume
  import opened SftpModel
  import opened SftpStream
  import opened SftpCursors
  import opened SftpFrames
  import opened SftpRuns
  import opened SftpChunks

  /** `caches[i]` belongs to slot `i`, `job` to the growth in progress. */
  datatype Machine = Machine(core: Core, caches: seq<Cache>, job: Cache)

  datatype Act = Waits | Does(machine: Machine, out: seq<Byte>, used: nat)

  /** A growth works on a file, through a cursor of its own that is exact. */
  ghost predicate JobOk(env: Env, m: Machine)
    requires EnvOk(env)
  {
    m.core.mode.Growing? ==> SlotOk(env, m.core.root, FileSlotAt(m.core.mode.growth.path), m.job)
  }

  function FileSlotAt(path: Path): Slot {
    if path == [] then FileSlot([], [], false, true, false) else FileSlot(path[..|path| - 1], path[|path| - 1], false, true, false)
  }

  ghost predicate MachineOk(env: Env, m: Machine) { Wf(env, m.core) && |m.caches| == MAX_HANDLES && JobOk(env, m) }

  // ---------------------------------------------------------------------
  // Where a session starts
  // ---------------------------------------------------------------------

  function Opening(root: Vol, nextId: nat): Core {
    Core(root, nextId, seq(MAX_HANDLES, _ => Free), seq(MAX_HANDLES, _ => 0), 0, Idle, {})
  }

  function OpeningMachine(root: Vol, nextId: nat): Machine {
    Machine(Opening(root, nextId), seq(MAX_HANDLES, _ => NO_CACHE), NO_CACHE)
  }

  // ---------------------------------------------------------------------
  // Units of work
  // ---------------------------------------------------------------------

  /** Handles that stay open keep their caches, unless their file was rewritten; new ones start empty. */
  function CachesAfter(was: seq<Slot>, now: seq<Slot>, root: Vol, caches: seq<Cache>, rewritten: Option<Path>): (r: seq<Cache>)
    requires |was| == |now| == |caches|
    ensures |r| == |caches|
    ensures forall i :: 0 <= i < |r| ==> r[i] == CacheAfter(was[i], now[i], root, caches[i], rewritten)
  {
    seq(|caches|, i requires 0 <= i < |caches| => CacheAfter(was[i], now[i], root, caches[i], rewritten))
  }

  function CacheAfter(was: Slot, now: Slot, root: Vol, k: Cache, rewritten: Option<Path>): Cache {
    if !now.FileSlot? then NO_CACHE
    else if !was.FileSlot? then Cache(SizeAt(root, PathOf(now)), None, None)
    else if IsAt(PathOf(now), rewritten) then Forgotten(k) else k
  }

  function SizeAt(root: Vol, path: Path): nat {
    var n := Lookup(root, path);
    if n.None? then 0 else SizeOf(n.value)
  }

  /** The file whose cursors a packet makes handles forget. */
  function PacketRewrites(env: Env, c: Core, kind: Byte, body: seq<Byte>): Option<Path> {
    var id := TakeU32(body);
    if kind == FXP_INIT || id.Short? then None else Rewritten(env, c, ParseRequest(kind, id.rest))
  }

  function JobAfter(c: Core): Cache { if c.mode.Growing? then Cache(SizeAt(c.root, c.mode.growth.path), None, None) else NO_CACHE }

  lemma DispatchSlots(env: Env, c: Core, kind: Byte, body: seq<Byte>)
    requires EnvOk(env) && Wf(env, c) && c.mode.Idle?
    ensures |Dispatch(env, c, kind, body).core.slots| == |c.slots|
  {
    hide TreeOk, ModeOk, Dispatch, EnvOk;
    DispatchOk(env, c, kind, body);
  }

  function OnPacket(env: Env, m: Machine, kind: Byte, body: seq<Byte>): (Machine, seq<Byte>)
    requires EnvOk(env) && MachineOk(env, m) && m.core.mode.Idle?
  {
    var s := Dispatch(env, m.core, kind, body);
    DispatchSlots(env, m.core, kind, body);
    (Machine(s.core, CachesAfter(m.core.slots, s.core.slots, s.core.root, m.caches, PacketRewrites(env, m.core, kind, body)), JobAfter(s.core)),
     s.out)
  }

  function OnParse(env: Env, m: Machine, b: seq<Byte>): (a: Act)
    requires EnvOk(env) && MachineOk(env, m) && m.core.mode.Idle?
    ensures a.Does? ==> a.used <= |b|
  {
    if |b| < 5 then Waits
    else
      var length := FromBe32(b[..4]);
      if length == 0 then Does(m.(core := m.core.(mode := Fatal)), [], 0)
      else if b[4] == FXP_WRITE then
        var u := BeginWrite(m.core, b, length);
        if u.Stuck? then Waits else Does(m.(core := u.core), u.out, u.used)
      else if length > MAX_REQUEST then
        if |b| < 9 then Waits
        else Does(m.(core := m.core.(mode := Skipped(WrapUsize(4 + length)))), StatusReply(FromBe32(b[5..9]), REQUEST_TOO_LARGE), 0)
      else if |b| < 4 + length then Waits
      else
        var (after, out) := OnPacket(env, m, b[4], b[5..4 + length]);
        Does(after, out, 4 + length)
  }

  /** One chunk of a DATA reply; a read that fails inside it ends the session. */
  function OnRead(env: Env, m: Machine): (a: Act)
    requires EnvOk(env) && MachineOk(env, m) && m.core.mode.Reading?
    ensures a.Does? && a.used == 0
  {
    var c, s := m.core, m.core.mode.read;
    var r := ReadOutcome(env, c.root, PathOf(c.slots[s.slot]), m.caches[s.slot], s.offset, Min(s.remaining, IO_CHUNK));
    var caches := m.caches[s.slot := r.cache];
    if r.bytes.None? || r.bytes.value == [] then Does(m.(core := c.(mode := Fatal), caches := caches), [], 0)
    else
      var left := s.remaining - |r.bytes.value|;
      var mode := if left == 0 then Idle else Reading(ReadStream(s.slot, s.offset + |r.bytes.value|, left));
      Does(m.(core := c.(mode := mode), caches := caches), r.bytes.value, 0)
  }

  /** The state after a card write through the handle of the WRITE in progress. */
  function Wrote(m: Machine, r: WriteResult, w: WriteStream): Machine
    requires m.core.mode.Writing? && |m.caches| == |m.core.slots| && m.core.mode.write.slot < |m.core.slots|
  {
    var slot := m.core.mode.write.slot;
    m.(core := m.core.(root := r.root, mode := Writing(w)),
       caches := if r.err.Some? then m.caches[slot := r.cache] else AfterWrite(m.core.slots, m.caches, slot, r.cache))
  }

  /** One chunk of payload that is all there: zeros before it, or the chunk itself, or a refusal. */
  function OnChunk(env: Env, m: Machine, bytes: seq<Byte>): (a: Act)
    requires EnvOk(env) && MachineOk(env, m) && m.core.mode.Writing? && m.core.mode.write.failed.None?
    requires 0 < |bytes| <= m.core.mode.write.remaining
    ensures a.Does? && a.out == [] && a.used <= |bytes|
  {
    var c, w := m.core, m.core.mode.write;
    var s := c.slots[w.slot];
    var n := Lookup(c.root, PathOf(s));
    if n.None? then Does(m.(core := c.(mode := Writing(w.(failed := Some(NO_SUCH_FILE))))), [], 0)
    else
      var size := SizeOf(n.value);
      var at := if s.append then size else w.offset;
      if at > size then
        var r := WriteOutcome(env, c.root, PathOf(s), m.caches[w.slot], size, Zeros(Min(at - size, WRITE_CHUNK)));
        Does(Wrote(m, r, if r.err.Some? then w.(failed := r.err) else w), [], 0)
      else
        var r := WriteOutcome(env, c.root, PathOf(s), m.caches[w.slot], at, bytes);
        var left := w.(remaining := w.remaining - |bytes|);
        Does(Wrote(m, r, if r.err.Some? then left.(failed := r.err) else left.(offset := w.offset + |bytes|)), [], |bytes|)
  }

  function OnWrite(env: Env, m: Machine, b: seq<Byte>): (a: Act)
    requires EnvOk(env) && MachineOk(env, m) && m.core.mode.Writing?
    ensures a.Does? ==> a.used <= |b|
  {
    var w := m.core.mode.write;
    var n := Min(w.remaining, WRITE_CHUNK);
    if w.remaining == 0 then Does(m.(core := m.core.(mode := Idle)), WriteReply(w), 0)
    else if |b| < n then Waits
    else if w.failed.Some? then Does(m.(core := m.core.(mode := Writing(w.(remaining := w.remaining - n)))), [], n)
    else OnChunk(env, m, b[..n])
  }

  /** One chunk of zeros at the end of a growing file, or the end of the growth. */
  function OnGrow(env: Env, m: Machine): (a: Act)
    requires EnvOk(env) && MachineOk(env, m) && m.core.mode.Growing?
    ensures a.Does? && a.used == 0
  {
    var c, g := m.core, m.core.mode.growth;
    GrowthFits(env, c);
    JobFile(env, m);
    var f, target := FileAt(c.root, g.path).value, g.attrs.size.value;
    var forgot := Forget(c.slots, m.caches, g.path);
    if |f.data| < target then
      var r := WriteOutcome(env, c.root, g.path, m.job, |f.data|, Zeros(Min(target - |f.data|, WRITE_CHUNK)));
      if r.err.Some? then Does(m.(core := c.(root := r.root, mode := Idle), job := NO_CACHE), StatusReply(g.id, r.err.value), 0)
      else Does(m.(core := c.(root := r.root), caches := forgot, job := r.cache), [], 0)
    else
      Does(m.(core := c.(root := PutFile(c.root, g.path, f.(meta := NewMeta(env, f.meta, g.attrs))), mode := Idle), caches := forgot, job := NO_CACHE),
           StatusReply(g.id, OK), 0)
  }

  lemma JobFile(env: Env, m: Machine)
    requires EnvOk(env) && MachineOk(env, m) && m.core.mode.Growing?
    ensures FileAt(m.core.root, m.core.mode.growth.path).Some?
    ensures CacheOk(env.g, FileAt(m.core.root, m.core.mode.growth.path).value, m.job)
  {
    var path := m.core.mode.growth.path;
    GrowthFits(env, m.core);
    assert path[..|path| - 1] + [path[|path| - 1]] == path;
  }

  function Micro(env: Env, m: Machine, b: seq<Byte>): (a: Act)
    requires EnvOk(env) && MachineOk(env, m)
    ensures a.Does? ==> a.used <= |b|
  {
    match m.core.mode
    case Idle => OnParse(env, m, b)
    case Reading(_) => OnRead(env, m)
    case Writing(_) => OnWrite(env, m, b)
    case Growing(_) => OnGrow(env, m)
    case Skipping(left) => if b == [] then Waits else Does(m.(core := m.core.(mode := Skipped(left - 1))), [], 1)
    case Fatal => Waits
  }

  // ---------------------------------------------------------------------
  // Units keep machines well-formed
  // ---------------------------------------------------------------------

  lemma ModeWf(env: Env, c: Core, mode: Mode)
    requires Wf(env, c) && (mode.Idle? || mode.Fatal? || (mode.Skipping? && mode.left > 0))
    ensures Wf(env, c.(mode := mode))
  {
    hide TreeOk, EnvOk;
  }

  /** A growth starts on a file that is there. */
  lemma GrowthStarts(env: Env, c: Core, kind: Byte, body: seq<Byte>)
    requires EnvOk(env) && Wf(env, c) && c.mode.Idle? && Dispatch(env, c, kind, body).core.mode.Growing?
    ensures var d := Dispatch(env, c, kind, body).core; d.mode.growth.path != [] && FileAt(d.root, d.mode.growth.path).Some?
  {
    hide EnvOk, TreeOk, Serve, ParseRequest, VersionReply, ModeOk;
    var id := TakeU32(body);
    if id.Got? { GrowthTarget(env, c, id.value, ParseRequest(kind, id.rest)); }
  }

  lemma GrowthTarget(env: Env, c: Core, id: nat, r: Request)
    requires EnvOk(env) && Wf(env, c) && c.mode.Idle? && Serve(env, c, id, r).core.mode.Growing?
    ensures var d := Serve(env, c, id, r).core; d.mode.growth.path != [] && FileAt(d.root, d.mode.growth.path).Some?
  {
    ServeOk(env, c, id, r);
    if r.SetStat? {
      StatTarget(env, c, id, Resolved([], r.path), r.attrs);
    } else {
      FStatTarget(env, c, id, r.token, r.attrs);
    }
  }

  lemma StatTarget(env: Env, c: Core, id: nat, path: Path, attrs: RequestedAttrs)
    requires EnvOk(env) && c.mode.Idle? && ServeSetStat(env, c, id, path, attrs).core.mode.Growing?
    ensures var d := ServeSetStat(env, c, id, path, attrs).core; d.mode.growth.path != [] && FileAt(d.root, d.mode.growth.path).Some?
  {
    hide EnvOk, StatusReply, AttrsRefusal, Settled, Text, Lookup;
  }

  lemma FStatTarget(env: Env, c: Core, id: nat, token: Token, attrs: RequestedAttrs)
    requires EnvOk(env) && c.mode.Idle? && ServeFSetStat(env, c, id, token, attrs).core.mode.Growing?
    ensures var d := ServeFSetStat(env, c, id, token, attrs).core; d.mode.growth.path != [] && FileAt(d.root, d.mode.growth.path).Some?
  {
    hide EnvOk, StatusReply, Text, SlotOf, ServeSetStat;
    var slot := SlotOf(c, token);
    if slot.Some? { StatTarget(env, c, id, PathOf(c.slots[slot.value]), attrs); }
  }

  lemma EmptyJobOk(env: Env, c: Core, caches: seq<Cache>)
    requires EnvOk(env) && Wf(env, c) && |caches| == MAX_HANDLES
    requires c.mode.Growing? ==> c.mode.growth.path != [] && FileAt(c.root, c.mode.growth.path).Some?
    ensures MachineOk(env, Machine(c, caches, JobAfter(c)))
  {
    hide TreeOk, EnvOk, ModeOk;
    if c.mode.Growing? {
      var path := c.mode.growth.path;
      assert path[..|path| - 1] + [path[|path| - 1]] == path;
    }
  }

  lemma PacketOk(env: Env, m: Machine, kind: Byte, body: seq<Byte>)
    requires EnvOk(env) && MachineOk(env, m) && m.core.mode.Idle?
    ensures MachineOk(env, OnPacket(env, m, kind, body).0)
  {
    hide EnvOk, TreeOk, ModeOk, Dispatch, PacketRewrites;
    DispatchOk(env, m.core, kind, body);
    var d := Dispatch(env, m.core, kind, body).core;
    if d.mode.Growing? { GrowthStarts(env, m.core, kind, body); }
    DispatchSlots(env, m.core, kind, body);
    EmptyJobOk(env, d, OnPacket(env, m, kind, body).0.caches);
  }

  lemma NoJob(env: Env, m: Machine, d: Core, caches: seq<Cache>)
    requires EnvOk(env) && Wf(env, d) && !d.mode.Growing? && |caches| == MAX_HANDLES
    ensures MachineOk(env, Machine(d, caches, m.job))
  {
    hide Wf, EnvOk;
  }

  lemma OnParseOk(env: Env, m: Machine, b: seq<Byte>)
    requires EnvOk(env) && MachineOk(env, m) && m.core.mode.Idle? && OnParse(env, m, b).Does?
    ensures MachineOk(env, OnParse(env, m, b).machine)
  {
    hide EnvOk, TreeOk, ModeOk, Dispatch, PacketRewrites, BeginWrite, FromBe32, JobOk, OnPacket, StatusReply, WrapUsize;
    var length := FromBe32(b[..4]);
    if length == 0 {
      ModeWf(env, m.core, Fatal);
      NoJob(env, m, m.core.(mode := Fatal), m.caches);
    } else if b[4] == FXP_WRITE {
      BeginWriteOk(env, m.core, b, length);
      NoJob(env, m, BeginWrite(m.core, b, length).core, m.caches);
    } else if length > MAX_REQUEST {
      ModeWf(env, m.core, Skipped(WrapUsize(4 + length)));
      NoJob(env, m, m.core.(mode := Skipped(WrapUsize(4 + length))), m.caches);
    } else {
      PacketOk(env, m, b[4], b[5..4 + length]);
    }
  }

  lemma ReadingLeftWf(env: Env, c: Core, count: nat)
    requires Wf(env, c) && c.mode.Reading? && 0 < count <= c.mode.read.remaining
    ensures var r := c.mode.read;
            var left := r.remaining - count;
            Wf(env, c.(mode := if left == 0 then Idle else Reading(ReadStream(r.slot, r.offset + count, left))))
  {
    hide TreeOk, EnvOk, FileAt, PathOf;
  }

  lemma OnReadOk(env: Env, m: Machine)
    requires EnvOk(env) && MachineOk(env, m) && m.core.mode.Reading?
    ensures MachineOk(env, OnRead(env, m).machine)
  {
    hide EnvOk, TreeOk, ReadOutcome, JobOk, Wf, PathOf;
    var s := m.core.mode.read;
    SlotsInRange(env, m);
    ModeWf(env, m.core, Fatal);
    var r := ReadOutcome(env, m.core.root, PathOf(m.core.slots[s.slot]), m.caches[s.slot], s.offset, Min(s.remaining, IO_CHUNK));
    if r.bytes.Some? && r.bytes.value != [] { ReadingLeftWf(env, m.core, |r.bytes.value|); }
    NoJob(env, m, OnRead(env, m).machine.core, m.caches[s.slot := r.cache]);
  }

  lemma SlotsInRange(env: Env, m: Machine)
    requires MachineOk(env, m)
    ensures EnvOk(env) && |m.core.slots| == MAX_HANDLES && |m.caches| == MAX_HANDLES
    ensures m.core.mode.Reading? ==> m.core.mode.read.slot < MAX_HANDLES && m.core.slots[m.core.mode.read.slot].FileSlot?
    ensures m.core.mode.Writing? && m.core.mode.write.failed.None? ==> m.core.mode.write.slot < MAX_HANDLES && m.core.slots[m.core.mode.write.slot].FileSlot?
    ensures TreeOk(env, m.core.root) && m.core.root.Dir?
  {
    hide TreeOk, EnvOk, JobOk;
  }

  lemma OnChunkOk(env: Env, m: Machine, bytes: seq<Byte>)
    requires EnvOk(env) && MachineOk(env, m) && m.core.mode.Writing? && m.core.mode.write.failed.None?
    requires 0 < |bytes| <= m.core.mode.write.remaining
    ensures MachineOk(env, OnChunk(env, m, bytes).machine) && OnChunk(env, m, bytes).machine.core.mode.Writing?
  {
    hide EnvOk, TreeOk, WriteOutcome, JobOk, Wf, PathOf, Lookup, AfterWrite;
    var c, w := m.core, m.core.mode.write;
    SlotsInRange(env, m);
    var s := c.slots[w.slot];
    var after := OnChunk(env, m, bytes).machine;
    var n := Lookup(c.root, PathOf(s));
    if n.Some? {
      var size := SizeOf(n.value);
      var at := if s.append then size else w.offset;
      if at > size {
        WriteKeepsTree(env, c.root, PathOf(s), m.caches[w.slot], size, Zeros(Min(at - size, WRITE_CHUNK)));
      } else {
        WriteKeepsTree(env, c.root, PathOf(s), m.caches[w.slot], at, bytes);
      }
    }
    WritingWf(env, c, after.core.root, after.core.mode.write);
    NoJob(env, m, after.core, after.caches);
  }

  lemma IdleAfterWrite(env: Env, m: Machine)
    requires MachineOk(env, m)
    ensures MachineOk(env, m.(core := m.core.(mode := Idle)))
  {
    hide EnvOk, TreeOk, JobOk;
    ModeWf(env, m.core, Idle);
    NoJob(env, m, m.core.(mode := Idle), m.caches);
  }

  lemma OnWriteOk(env: Env, m: Machine, b: seq<Byte>)
    requires EnvOk(env) && MachineOk(env, m) && m.core.mode.Writing? && OnWrite(env, m, b).Does?
    ensures MachineOk(env, OnWrite(env, m, b).machine)
  {
    hide EnvOk, TreeOk, OnChunk, JobOk, Wf, WriteReply;
    var w := m.core.mode.write;
    var n := Min(w.remaining, WRITE_CHUNK);
    if w.remaining == 0 {
      IdleAfterWrite(env, m);
    } else if w.failed.Some? {
      SlotsInRange(env, m);
      WritingWf(env, m.core, m.core.root, w.(remaining := w.remaining - n));
      NoJob(env, m, m.core.(mode := Writing(w.(remaining := w.remaining - n))), m.caches);
    } else {
      OnChunkOk(env, m, b[..n]);
    }
  }

  lemma GrownWf(env: Env, c: Core, root: Vol)
    requires Wf(env, c) && c.mode.Growing? && TreeOk(env, root) && root.Dir?
    ensures Wf(env, c.(root := root)) && Wf(env, c.(root := root, mode := Idle))
  {
    hide TreeOk, EnvOk;
  }

  /** Through a growth's own cursor, a chunk of zeros is exact. */
  lemma GrowExact(env: Env, m: Machine)
    requires EnvOk(env) && MachineOk(env, m) && m.core.mode.Growing?
    requires FileAt(m.core.root, m.core.mode.growth.path).Some?
    requires m.core.mode.growth.attrs.size.Some? && |FileAt(m.core.root, m.core.mode.growth.path).value.data| < m.core.mode.growth.attrs.size.value
    ensures var c, g := m.core, m.core.mode.growth;
            var f := FileAt(c.root, g.path).value;
            var count := Min(g.attrs.size.value - |f.data|, WRITE_CHUNK);
            TreeOk(env, c.root) && c.root.Dir? &&
            var r := WriteOutcome(env, c.root, g.path, m.job, |f.data|, Zeros(count));
            && TreeOk(env, r.root) && r.root.Dir?
            && |f.data| + count <= U32_TOP
            && if f.meta.readOnly then r.err == Some(READ_ONLY) && r.root == c.root
               else r.err.None? && r.root == PutFile(c.root, g.path, Padded(env.g, f, count)) && CacheOk(env.g, Padded(env.g, f, count), r.cache)
  {
    hide EnvOk, TreeOk, JobOk, WriteOutcome, CacheOk, Written;
    var c, g := m.core, m.core.mode.growth;
    JobFile(env, m);
    GrowthFits(env, c);
    var f := FileAt(c.root, g.path).value;
    var count := Min(g.attrs.size.value - |f.data|, WRITE_CHUNK);
    WriteExact(env, c.root, g.path, m.job, |f.data|, Zeros(count));
    WriteKeepsTree(env, c.root, g.path, m.job, |f.data|, Zeros(count));
  }

  lemma OnGrowOk(env: Env, m: Machine)
    requires EnvOk(env) && MachineOk(env, m) && m.core.mode.Growing?
    ensures MachineOk(env, OnGrow(env, m).machine)
  {
    hide EnvOk, TreeOk, WriteOutcome, CacheOk, Written, NewMeta, StatusReply, Forget, Wf, PutFile, Padded;
    var c, g := m.core, m.core.mode.growth;
    GrowthFits(env, c);
    JobFile(env, m);
    var f := FileAt(c.root, g.path).value;
    var after := OnGrow(env, m).machine;
    if |f.data| < g.attrs.size.value {
      GrowExact(env, m);
      GrownWf(env, c, after.core.root);
      if after.core.mode.Growing? {
        PositiveClusters(env);
        GrownFile(c.root, g.path, Padded(env.g, f, Min(g.attrs.size.value - |f.data|, WRITE_CHUNK)));
      }
    } else {
      FileSoundAt(env, c.root, g.path);
      MetaSound(env, c.root, g.path, f, NewMeta(env, f.meta, g.attrs));
      GrownWf(env, c, after.core.root);
    }
  }

  lemma GrownFile(root: Vol, path: Path, f: FatFile)
    requires path != [] && Lookup(root, path).Some?
    ensures FileAt(PutFile(root, path, f), PathOf(FileSlotAt(path))) == Some(f)
  {
    assert path[..|path| - 1] + [path[|path| - 1]] == path;
    LookupPut(root, path, File(f));
  }

  lemma MetaSound(env: Env, root: Vol, path: Path, f: FatFile, meta: Meta)
    requires EnvOk(env) && TreeOk(env, root) && root.Dir? && FileAt(root, path) == Some(f)
    ensures TreeOk(env, PutFile(root, path, f.(meta := meta))) && PutFile(root, path, f.(meta := meta)).Dir?
  {
    LookupOk(env, root, path);
    PutOk(env, root, path, File(f.(meta := meta)));
  }

  lemma MicroOk(env: Env, m: Machine, b: seq<Byte>)
    requires EnvOk(env) && MachineOk(env, m) && Micro(env, m, b).Does?
    ensures MachineOk(env, Micro(env, m, b).machine)
  {
    hide EnvOk, Wf, JobOk, OnParse, OnRead, OnWrite, OnGrow;
    match m.core.mode
    case Idle => OnParseOk(env, m, b);
    case Reading(_) => OnReadOk(env, m);
    case Writing(_) => OnWriteOk(env, m, b);
    case Growing(_) => OnGrowOk(env, m);
    case Skipping(left) =>
      SkipWf(env, m.core, left - 1);
      NoJob(env, m, m.core.(mode := Skipped(left - 1)), m.caches);
    case Fatal =>
  }

  // ---------------------------------------------------------------------
  // Any number of units
  // ---------------------------------------------------------------------

  lemma ParseStaysSame(env: Env, m: Machine, x: seq<Byte>, y: seq<Byte>)
    requires EnvOk(env) && MachineOk(env, m) && m.core.mode.Idle? && OnParse(env, m, x).Does?
    ensures OnParse(env, m, x + y) == OnParse(env, m, x)
  {
    hide EnvOk, MachineOk, OnPacket, BeginWrite, FromBe32, StatusReply, WrapUsize;
    SliceOfMore(x, y, 0, 4);
    var length := FromBe32(x[..4]);
    if length > 0 && x[4] == FXP_WRITE {
      WriteHeaderStays(m.core, x, y, length);
    } else if length > MAX_REQUEST {
      SliceOfMore(x, y, 5, 9);
    } else if length > 0 {
      SliceOfMore(x, y, 5, 4 + length);
    }
  }

  /** A unit of work that can be done is not changed by bytes that come after it. */
  lemma MicroStays(env: Env, m: Machine, x: seq<Byte>, y: seq<Byte>)
    requires EnvOk(env) && MachineOk(env, m) && Micro(env, m, x).Does?
    ensures Micro(env, m, x + y) == Micro(env, m, x)
  {
    hide EnvOk, MachineOk, OnParse, OnRead, OnChunk, OnGrow, WriteReply;
    match m.core.mode
    case Idle => ParseStaysSame(env, m, x, y);
    case Writing(w) => SliceOfMore(x, y, 0, if w.remaining == 0 || |x| < Min(w.remaining, WRITE_CHUNK) then 0 else Min(w.remaining, WRITE_CHUNK));
    case _ =>
  }

  /** A machine, all it has emitted, and the input it has not used. */
  datatype Config = Config(machine: Machine, out: seq<Byte>, rest: seq<Byte>)

  ghost predicate Busy(env: Env, g: Config)
    requires EnvOk(env)
  {
    MachineOk(env, g.machine) && Micro(env, g.machine, g.rest).Does?
  }

  function Then(env: Env, g: Config): Config
    requires EnvOk(env) && Busy(env, g)
  {
    var a := Micro(env, g.machine, g.rest);
    Config(a.machine, g.out + a.out, g.rest[a.used..])
  }

  /** A DATA reply always has something to do, and uses no input. */
  lemma ReadMoves(env: Env, g: Config)
    requires EnvOk(env) && MachineOk(env, g.machine) && g.machine.core.mode.Reading?
    ensures Busy(env, g) && MachineOk(env, Then(env, g).machine)
    ensures Then(env, g) == Config(OnRead(env, g.machine).machine, g.out + OnRead(env, g.machine).out, g.rest)
  {
    hide EnvOk, MachineOk, OnRead;
    OnReadOk(env, g.machine);
    assert g.rest[0..] == g.rest;
  }

  /** A payload waits for a whole chunk, or for all that is left of it. */
  lemma PayloadWaits(env: Env, g: Config)
    requires EnvOk(env) && MachineOk(env, g.machine) && g.machine.core.mode.Writing? && g.machine.core.mode.write.remaining > 0
    ensures |g.rest| < Min(g.machine.core.mode.write.remaining, WRITE_CHUNK) ==> !Busy(env, g)
  {
    hide EnvOk, MachineOk, OnChunk;
  }

  /** So does a growth. */
  lemma GrowMoves(env: Env, g: Config)
    requires EnvOk(env) && MachineOk(env, g.machine) && g.machine.core.mode.Growing?
    ensures Busy(env, g) && MachineOk(env, Then(env, g).machine)
    ensures Then(env, g) == Config(OnGrow(env, g.machine).machine, g.out + OnGrow(env, g.machine).out, g.rest)
  {
    hide EnvOk, MachineOk, OnGrow;
    OnGrowOk(env, g.machine);
    assert g.rest[0..] == g.rest;
  }

  /** A growing file gets one chunk of zeros more, or the growth is refused. */
  lemma ChunkGrows(env: Env, g: Config)
    requires EnvOk(env) && MachineOk(env, g.machine) && g.machine.core.mode.Growing?
    requires var c, job := g.machine.core, g.machine.core.mode.growth;
             FileAt(c.root, job.path).Some? && job.attrs.size.Some? && |FileAt(c.root, job.path).value.data| < job.attrs.size.value
    ensures Busy(env, g) && MachineOk(env, Then(env, g).machine)
    ensures var m, c, job := g.machine, g.machine.core, g.machine.core.mode.growth;
            var size := |FileAt(c.root, job.path).value.data|;
            TreeOk(env, c.root) && c.root.Dir? &&
            var r := WriteOutcome(env, c.root, job.path, m.job, size, Zeros(Min(job.attrs.size.value - size, WRITE_CHUNK)));
            Then(env, g) ==
              if r.err.Some? then
                Config(m.(core := c.(root := r.root, mode := Idle), job := NO_CACHE), g.out + StatusReply(job.id, r.err.value), g.rest)
              else Config(m.(core := c.(root := r.root), caches := Forget(c.slots, m.caches, job.path), job := r.cache), g.out, g.rest)
  {
    hide EnvOk, TreeOk, WriteOutcome, StatusReply, Forget, MachineOk, Then, Busy, Micro;
    GrowingFile(env, g.machine);
    GrowMoves(env, g);
    assert g.out + [] == g.out;
  }

  /** A growth has a file to grow and a size to reach. */
  lemma GrowingFile(env: Env, m: Machine)
    requires EnvOk(env) && MachineOk(env, m) && m.core.mode.Growing?
    ensures TreeOk(env, m.core.root) && m.core.root.Dir?
    ensures var job := m.core.mode.growth;
            job.path != [] && FileAt(m.core.root, job.path).Some? && job.attrs.size.Some? && AttrsRefusal(env, job.attrs).None?
  {
    hide EnvOk, TreeOk, Wf, JobOk;
    GrowthFits(env, m.core);
    JobFile(env, m);
  }

  lemma MachineWf(env: Env, m: Machine)
    requires EnvOk(env) && MachineOk(env, m)
    ensures Wf(env, m.core)
  {
    hide Wf, EnvOk;
  }

  /** A packet that is all there is one unit. */
  lemma PacketMoves(env: Env, g: Config, kind: Byte, id: nat, body: seq<Byte>, rest: seq<Byte>)
    requires EnvOk(env) && MachineOk(env, g.machine) && g.machine.core.mode.Idle?
    requires kind != FXP_INIT && kind != FXP_WRITE && id < U32_LIMIT && |body| + 5 <= MAX_REQUEST
    requires g.rest == Frame(kind, Be32(id) + body) + rest
    ensures var c, s := g.machine.core, Serve(env, g.machine.core, id, ParseRequest(kind, body));
            && Busy(env, g) && |s.core.slots| == |c.slots| == |g.machine.caches| && MachineOk(env, Then(env, g).machine)
            && Then(env, g) ==
                 Config(Machine(s.core, CachesAfter(c.slots, s.core.slots, s.core.root, g.machine.caches, Rewritten(env, c, ParseRequest(kind, body))),
                                JobAfter(s.core)),
                        g.out + s.out, rest)
  {
    hide EnvOk, MachineOk, Serve, ParseRequest, Be32, FromBe32, Rewritten, JobAfter, VersionReply;
    var b, length := g.rest, |body| + 5;
    Be32RoundTrip(length);
    Be32RoundTrip(id);
    assert b[..4] == Be32(length) && b[4] == kind && b[5..4 + length] == Be32(id) + body && b[4 + length..] == rest;
    assert (Be32(id) + body)[..4] == Be32(id) && (Be32(id) + body)[4..] == body;
    SlotsInRange(env, g.machine);
    DispatchSlots(env, g.machine.core, kind, Be32(id) + body) by { MachineWf(env, g.machine); }
    MicroOk(env, g.machine, b);
  }

  /** `d` is where `c` is after `n` units of work. */
  ghost predicate Reaches(env: Env, c: Config, n: nat, d: Config)
    requires EnvOk(env)
    decreases n
  {
    if n == 0 then c == d && MachineOk(env, c.machine)
    else Busy(env, c) && Reaches(env, Then(env, c), n - 1, d)
  }

  lemma {:induction false} ReachesOk(env: Env, c: Config, n: nat, d: Config)
    requires EnvOk(env) && Reaches(env, c, n, d)
    ensures MachineOk(env, c.machine) && MachineOk(env, d.machine)
    decreases n
  {
    hide EnvOk, MachineOk, Micro;
    if n > 0 { ReachesOk(env, Then(env, c), n - 1, d); }
  }

  lemma {:induction false} ReachesMore(env: Env, c: Config, n: nat, d: Config, k: nat, e: Config)
    requires EnvOk(env) && Reaches(env, c, n, d) && Reaches(env, d, k, e)
    ensures Reaches(env, c, n + k, e)
    decreases n
  {
    hide EnvOk, MachineOk, Micro;
    if n > 0 { ReachesMore(env, Then(env, c), n - 1, d, k, e); }
  }

  lemma ReachesOne(env: Env, c: Config)
    requires EnvOk(env) && Busy(env, c)
    ensures Reaches(env, c, 1, Then(env, c))
  {
    MicroOk(env, c.machine, c.rest);
    hide EnvOk, MachineOk, Micro;
    assert Reaches(env, Then(env, c), 0, Then(env, c));
  }

  /** Output only grows. */
  lemma {:induction false} OutputGrows(env: Env, c: Config, n: nat, d: Config)
    requires EnvOk(env) && Reaches(env, c, n, d)
    ensures c.out <= d.out && |d.rest| <= |c.rest|
    decreases n
  {
    hide EnvOk, MachineOk, Micro;
    if n > 0 { OutputGrows(env, Then(env, c), n - 1, d); }
  }

  function With(c: Config, more: seq<Byte>): Config { c.(rest := c.rest + more) }

  /** Work that has been done stays done when more input comes. */
  lemma {:induction false} ReachesWith(env: Env, c: Config, n: nat, d: Config, more: seq<Byte>)
    requires EnvOk(env) && Reaches(env, c, n, d)
    ensures Reaches(env, With(c, more), n, With(d, more))
    decreases n
  {
    hide EnvOk, MachineOk, Micro;
    if n > 0 {
      MicroStays(env, c.machine, c.rest, more);
      var a := Micro(env, c.machine, c.rest);
      assert (c.rest + more)[a.used..] == c.rest[a.used..] + more;
      ReachesWith(env, Then(env, c), n - 1, d, more);
    }
  }

  /** What has been emitted before shifts along. */
  lemma {:induction false} ReachesShift(env: Env, c: Config, n: nat, d: Config, before: seq<Byte>)
    requires EnvOk(env) && Reaches(env, c, n, d)
    ensures Reaches(env, c.(out := before + c.out), n, d.(out := before + d.out))
    decreases n
  {
    hide EnvOk, MachineOk, Micro;
    if n > 0 {
      var a := Micro(env, c.machine, c.rest);
      assert (before + c.out) + a.out == before + (c.out + a.out);
      ReachesShift(env, Then(env, c), n - 1, d, before);
    }
  }

  /** From one configuration the same number of units leads to one other. */
  lemma {:induction false} ReachesUnique(env: Env, c: Config, n: nat, d: Config, k: nat, e: Config)
    requires EnvOk(env) && Reaches(env, c, n, d) && Reaches(env, c, k, e) && n <= k
    ensures Reaches(env, d, k - n, e)
    decreases n
  {
    hide EnvOk, MachineOk, Micro;
    if n > 0 { ReachesUnique(env, Then(env, c), n - 1, d, k - 1, e); }
  }

  /** Of any two ways a stream has been served so far, the output of one is the beginning of the other's. */
  lemma OneOutput(env: Env, c: Config, n: nat, d: Config, k: nat, e: Config)
    requires EnvOk(env) && Reaches(env, c, n, d) && Reaches(env, c, k, e)
    ensures d.out <= e.out || e.out <= d.out
    ensures n <= k ==> d.out <= e.out
  {
    hide EnvOk, MachineOk, Micro, Busy, Reaches;
    if n <= k {
      ReachesUnique(env, c, n, d, k, e);
      OutputGrows(env, d, k - n, e);
    } else {
      ReachesUnique(env, c, k, e, n, d);
      OutputGrows(env, e, n - k, d);
    }
  }

  /** Where nothing is left to do, every way of serving the stream has come to the same end. */
  lemma OneEnd(env: Env, c: Config, n: nat, d: Config, k: nat, e: Config)
    requires EnvOk(env) && Reaches(env, c, n, d) && Reaches(env, c, k, e) && !Busy(env, d) && !Busy(env, e)
    ensures d == e
  {
    hide EnvOk, Busy;
    if n <= k { ReachesUnique(env, c, n, d, k, e); } else { ReachesUnique(env, c, k, e, n, d); }
  }

  /** A session that waits for input has room for it. */
  lemma WaitingHasRoom(env: Env, m: Machine, b: seq<Byte>)
    requires EnvOk(env) && MachineOk(env, m) && Micro(env, m, b).Waits? && !m.core.mode.Fatal?
    ensures |b| < MAX_INPUT
  {
    hide EnvOk, Wf, JobOk, OnPacket, OnRead, OnChunk, OnGrow, WriteReply, CheckWrite, FromBe32, WrapUsize;
  }

  /** While a DATA reply or a WRITE is in progress its slot keeps the handle it started on. */
  lemma StreamKeepsHandles(env: Env, m: Machine, b: seq<Byte>)
    requires EnvOk(env) && MachineOk(env, m) && Micro(env, m, b).Does? && (m.core.mode.Reading? || m.core.mode.Writing?)
    ensures var c, d := m.core, Micro(env, m, b).machine.core;
            && d.slots == c.slots && d.tokens == c.tokens && d.generation == c.generation && d.lost == c.lost
            && (c.mode.Reading? && d.mode.Reading? ==> d.mode.read.slot == c.mode.read.slot)
            && (c.mode.Writing? && d.mode.Writing? ==> d.mode.write.slot == c.mode.write.slot && d.mode.write.id == c.mode.write.id)
            && (c.mode.Reading? ==> d.mode.Reading? || d.mode.Idle? || d.mode.Fatal?) && (c.mode.Writing? ==> d.mode.Writing? || d.mode.Idle?)
  {
    hide EnvOk, MachineOk, ReadOutcome, WriteOutcome, WriteReply;
  }
}
