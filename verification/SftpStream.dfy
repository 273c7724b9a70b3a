/**
 What a byte stream means to the server: one unit of work at a time, each
 decided by a prefix of the bytes that have not been used yet.
 */
module SftpStream {
  import opened Bytes
  import opened FatTree
  import opened FatFile
  import opened FsPath
  import opened Wire
  import opened SftpVolume
  import opened SftpModel

  // ---------------------------------------------------------------------
  // Well-formed states
  // ---------------------------------------------------------------------

  ghost predicate ModeOk(env: Env, c: Core)
    requires EnvOk(env)
  {
    match c.mode
    case Reading(ReadStream(slot, offset, remaining)) =>
      && slot < |c.slots| && c.slots[slot].FileSlot? && remaining > 0
      && var f := FileAt(c.root, PathOf(c.slots[slot])); f.Some? && offset + remaining <= |f.value.data|
    case Writing(WriteStream(_, slot, remaining, offset, failed)) =>
      failed.None? ==> slot < |c.slots| && c.slots[slot].FileSlot? && offset + remaining <= U32_TOP
    case Growing(Growth(_, path, attrs)) =>
      path != [] && attrs.size.Some? && AttrsRefusal(env, attrs).None?
    case Skipping(left) => left > 0
    case _ => true
  }

  ghost predicate Wf(env: Env, c: Core) {
    && EnvOk(env) && TreeOk(env, c.root) && c.root.Dir?
    && |c.slots| == MAX_HANDLES && |c.tokens| == MAX_HANDLES && c.generation < GENERATIONS
    && (forall i :: i in c.lost ==> i < |c.slots| && c.slots[i].FileSlot?)
    && ModeOk(env, c)
  }

  // ---------------------------------------------------------------------
  // Units of work
  // ---------------------------------------------------------------------

  datatype Unit = Stuck | Worked(core: Core, out: seq<Byte>, used: nat)

  datatype Check = Pass(slot: nat) | Fail(status: Status)

  /** Whether a WRITE may store its payload. */
  function CheckWrite(c: Core, token: Token, offset: nat, length: nat): Check {
    var slot := SlotOf(c, token);
    if slot.None? then Fail(INVALID_HANDLE)
    else if !c.slots[slot.value].FileSlot? then Fail(Failure("Not a file handle"))
    else if !c.slots[slot.value].writable then Fail(Failure("Handle not open for writing"))
    else if offset + length > U32_TOP then Fail(TOO_LARGE)
    else Pass(slot.value)
  }

  /** The fixed part of a WRITE; its payload is used later, chunk by chunk. */
  function BeginWrite(c: Core, b: seq<Byte>, length: nat): (u: Unit)
    ensures u.Worked? ==> u.used <= |b|
  {
    if |b| < 13 then Stuck
    else
      var handleLen := FromBe32(b[9..13]);
      var header := 13 + handleLen + 12;
      if handleLen > 64 then Worked(c.(mode := Fatal), [], 0)
      else if |b| < header then Stuck
      else
        var id := FromBe32(b[5..9]);
        var token := b[13..13 + handleLen];
        var offset := FromBe32(b[13 + handleLen..17 + handleLen]) * U32_LIMIT + FromBe32(b[17 + handleLen..21 + handleLen]);
        var dataLen := FromBe32(b[21 + handleLen..header]);
        if length != WrapUsize(header - 4 + dataLen) then Worked(c.(mode := Fatal), [], header)
        else
          match CheckWrite(c, token, offset, dataLen)
          case Pass(slot) => Worked(c.(mode := Writing(WriteStream(id, slot, dataLen, offset, None))), [], header)
          case Fail(status) => Worked(c.(mode := Writing(WriteStream(id, 0, dataLen, offset, Some(status)))), [], header)
  }

  function Skipped(left: nat): Mode { if left == 0 then Idle else Skipping(left) }

  const REQUEST_TOO_LARGE := Status(FX_BAD_MESSAGE, Text("Request too large"))

  /**
   A request too long to be parsed is answered, and its bytes are skipped. One whose
   length wraps to zero is answered without end, so nothing more can be said of it.
   */
  function BeginSkip(c: Core, b: seq<Byte>, length: nat): (u: Unit)
    ensures u.Worked? ==> u.used == 0
  {
    var whole := WrapUsize(4 + length);
    if |b| < 9 || whole == 0 then Stuck
    else Worked(c.(mode := Skipping(whole)), StatusReply(FromBe32(b[5..9]), REQUEST_TOO_LARGE), 0)
  }

  function ParseNext(env: Env, c: Core, b: seq<Byte>): (u: Unit)
    requires EnvOk(env)
    ensures u.Worked? ==> u.used <= |b|
  {
    if |b| < 5 then Stuck
    else
      var length := FromBe32(b[..4]);
      if length == 0 then Worked(c.(mode := Fatal), [], 0)
      else if b[4] == FXP_WRITE then BeginWrite(c, b, length)
      else if length > MAX_REQUEST then BeginSkip(c, b, length)
      else if |b| < 4 + length then Stuck
      else
        var s := Dispatch(env, c, b[4], b[5..4 + length]);
        Worked(s.core, s.out, 4 + length)
  }

  /** After a chunk of a WRITE payload: stored, refused, or dropped because an earlier one was refused. */
  function AfterChunk(env: Env, c: Core, w: WriteStream, bytes: seq<Byte>): Core
    requires EnvOk(env) && |bytes| <= w.remaining && (w.failed.None? ==> w.slot < |c.slots|)
  {
    var left := w.(remaining := w.remaining - |bytes|);
    if w.failed.Some? then c.(mode := Writing(left))
    else
      var s := c.slots[w.slot];
      match StoreChunk(env, c.root, PathOf(s), s.FileSlot? && s.append, w.offset, bytes)
      case Stored(root) => c.(root := root, mode := Writing(left.(offset := w.offset + |bytes|)))
      case Refused(status) => c.(mode := Writing(left.(failed := Some(status))))
  }

  function WriteReply(w: WriteStream): seq<Byte> {
    StatusReply(w.id, if w.failed.Some? then w.failed.value else OK)
  }

  /** The next chunk would go through a handle whose file has another entry now, or none: its cursors may be stale. */
  predicate Strays(c: Core) {
    match c.mode
    case Reading(r) => r.slot in c.lost
    case Writing(w) =>
      w.failed.None? && w.remaining > 0 && w.slot in c.lost && w.slot < |c.slots| && Lookup(c.root, PathOf(c.slots[w.slot])).Some?
    case _ => false
  }

  function Next(env: Env, c: Core, b: seq<Byte>): (u: Unit)
    requires Wf(env, c)
    ensures u.Worked? ==> u.used <= |b|
  {
    if Strays(c) then Stuck
    else match c.mode
    case Idle => ParseNext(env, c, b)
    case Reading(r) =>
      var data := FileAt(c.root, PathOf(c.slots[r.slot])).value.data;
      Worked(c.(mode := Idle), data[r.offset..r.offset + r.remaining], 0)
    case Writing(w) =>
      var n := Min(w.remaining, WRITE_CHUNK);
      if w.remaining == 0 then Worked(c.(mode := Idle), WriteReply(w), 0)
      else if |b| < n then Stuck
      else Worked(AfterChunk(env, c, w, b[..n]), [], n)
    case Growing(g) =>
      (match FinishGrowth(env, c.root, g.path, g.attrs)
       case Stored(root) => Worked(c.(root := root, mode := Idle), StatusReply(g.id, OK), 0)
       case Refused(status) => Worked(c.(mode := Idle), StatusReply(g.id, status), 0))
    case Skipping(left) =>
      var have := Min(left, |b|);
      if have == 0 then Stuck else Worked(c.(mode := Skipped(left - have)), [], have)
    case Fatal => Stuck
  }

  function Stage(m: Mode): nat {
    match m
    case Reading(_) => 2
    case Writing(_) => 2
    case Growing(_) => 2
    case Idle => 1
    case _ => 0
  }

  // ---------------------------------------------------------------------
  // Serving keeps states well-formed
  // ---------------------------------------------------------------------

  lemma RootStaysDir(root: Vol, path: Path, node: Vol)
    requires root.Dir? && Lookup(root, path).Some? && (path == [] ==> node.Dir?)
    ensures Put(root, path, node).Dir?
  {
  }

  lemma AllocatedOk(env: Env, c: Core, s: Slot)
    requires Wf(env, c) && c.mode.Idle?
    ensures var a := Allocated(c, s);
            a.Some? ==> Wf(env, a.value.0) && a.value.0.mode.Idle? && a.value.0.root == c.root && a.value.1 < MAX_HANDLES
  {
  }

  lemma OpenOk(env: Env, c: Core, id: nat, path: Path, flags: nat, attrs: RequestedAttrs)
    requires Wf(env, c) && c.mode.Idle?
    ensures Wf(env, ServeOpen(env, c, id, path, flags, attrs).core) && ServeOpen(env, c, id, path, flags, attrs).core.mode.Idle?
  {
    if path != [] && AttrsRefusal(env, attrs).None? {
      var parent, leaf := path[..|path| - 1], path[|path| - 1];
      var target := OpenTarget(env, c.root, c.nextId, parent, leaf, flags, attrs);
      if target.Target? {
        TargetOk(env, c.root, c.nextId, parent, leaf, flags, attrs);
        var c1 := c.(root := target.root, nextId := target.nextId);
        var writable := Bit(flags, 2);
        AllocatedOk(env, c1, FileSlot(parent, leaf, Bit(flags, 1) || !writable, writable, Bit(flags, 4)));
      }
    }
  }

  lemma TargetOk(env: Env, root: Vol, nextId: nat, parent: Path, leaf: Name, flags: nat, attrs: RequestedAttrs)
    requires EnvOk(env) && TreeOk(env, root) && root.Dir?
    ensures var t := OpenTarget(env, root, nextId, parent, leaf, flags, attrs);
            t.Target? ==> TreeOk(env, t.root) && t.root.Dir?
  {
    var path := parent + [leaf];
    var n := Lookup(root, path);
    if n.Some? {
      LookupOk(env, root, path);
      if n.value.File? {
        ShrunkSound(env.g, n.value.file, 0);
        PutOk(env, root, path, File(Shrunk(env.g, n.value.file, 0)));
        RootStaysDir(root, path, File(Shrunk(env.g, n.value.file, 0)));
      }
    } else if IsDir(root, parent) && env.nameOk(leaf) {
      var f := EmptyFile(env, root, path, nextId).(meta := NewMeta(env, env.newMeta, attrs));
      assert path[..|path| - 1] == parent;
      NewNameFree(root, path);
      AddedOk(env, root, parent, Entry(leaf, File(f)));
    }
  }

  lemma DeletedOk(env: Env, c: Core, path: Path)
    requires Wf(env, c) && c.mode.Idle? && path != [] && Lookup(c.root, path).Some?
    ensures Wf(env, Deleted(c, path)) && Deleted(c, path).mode.Idle?
  {
    EntryFound(c.root, path);
    RemovedOk(env, c.root, path[..|path| - 1], path[|path| - 1]);
  }

  lemma MkDirOk(env: Env, c: Core, id: nat, path: Path, attrs: RequestedAttrs)
    requires Wf(env, c) && c.mode.Idle?
    ensures Wf(env, ServeMkDir(env, c, id, path, attrs).core) && ServeMkDir(env, c, id, path, attrs).core.mode.Idle?
  {
    if path != [] {
      var parent, leaf := path[..|path| - 1], path[|path| - 1];
      if IsDir(c.root, parent) && env.nameOk(leaf) && Lookup(c.root, path).None? {
        NewNameFree(c.root, path);
        AddedOk(env, c.root, parent, Entry(leaf, Dir(NewMeta(env, env.newMeta, attrs), [])));
      }
    }
  }

  lemma RenamedOk(env: Env, root: Vol, id: nat, source: Path, target: Path)
    requires EnvOk(env) && TreeOk(env, root) && root.Dir? && RenameOf(root, source, target) && env.nameOk(target[|target| - 1])
    ensures TreeOk(env, Renamed(root, id, source, target)) && Renamed(root, id, source, target).Dir?
  {
    var dir, parent := source[..|source| - 1], target[..|target| - 1];
    RenameKeepsParent(root, source, target);
    var without := Removed(root, dir, source[|source| - 1]);
    RemovedOk(env, root, dir, source[|source| - 1]);
    LookupOk(env, root, source);
    TargetFree(env, root, source, target);
    AddedOk(env, without, parent, Entry(target[|target| - 1], Relabeled(Lookup(root, source).value, id)));
  }

  lemma TargetGone(env: Env, root: Vol, source: Path, target: Path)
    requires EnvOk(env) && TreeOk(env, root) && RenameOf(root, source, target)
    ensures IsDir(root, source[..|source| - 1]) && Holds(Lookup(root, source[..|source| - 1]).value.entries, source[|source| - 1])
    ensures Lookup(Removed(root, source[..|source| - 1], source[|source| - 1]), target).None?
  {
    hide Inside, Removed, TreeOk, EnvOk, Lookup, FindIn;
    EntryFound(root, source);
    if Lookup(root, target).Some? {
      assert source[..|source| - 1] + [source[|source| - 1]] == source;
      EntryGone(env, root, source[..|source| - 1], source[|source| - 1]);
      LookupSamePath(Removed(root, source[..|source| - 1], source[|source| - 1]), target, source);
    } else {
      NewNameStaysFree(root, source, target);
    }
  }

  /** With the old entry gone the new name is free, even if it was the old one's. */
  lemma TargetFree(env: Env, root: Vol, source: Path, target: Path)
    requires EnvOk(env) && TreeOk(env, root) && RenameOf(root, source, target)
    ensures IsDir(root, source[..|source| - 1]) && Holds(Lookup(root, source[..|source| - 1]).value.entries, source[|source| - 1])
    ensures var without := Removed(root, source[..|source| - 1], source[|source| - 1]);
            IsDir(without, target[..|target| - 1]) && !Holds(Lookup(without, target[..|target| - 1]).value.entries, target[|target| - 1])
  {
    hide RenameOf, TreeOk, EnvOk;
    TargetNotRoot(root, source, target);
    TargetGone(env, root, source, target);
    RenameKeepsParent(root, source, target);
    NewNameFree(Removed(root, source[..|source| - 1], source[|source| - 1]), target);
  }

  lemma TargetNotRoot(root: Vol, source: Path, target: Path)
    requires RenameOf(root, source, target)
    ensures source != [] && target != []
  {
  }

  /** After an entry is removed its name leads nowhere. */
  lemma EntryGone(env: Env, root: Vol, dir: Path, name: Name)
    requires EnvOk(env) && TreeOk(env, root) && IsDir(root, dir) && Holds(Lookup(root, dir).value.entries, name)
    ensures Lookup(Removed(root, dir, name), dir + [name]).None?
  {
    LookupOk(env, root, dir);
    var d := Lookup(root, dir).value;
    var left := d.(entries := Without(d.entries, FindIn(d.entries, name)));
    LookupPut(root, dir, left);
    LookupConcat(Removed(root, dir, name), dir, [name]);
    OnceRemoved(d.entries, name);
  }

  /** A name that led nowhere still does after another entry is removed. */
  lemma NewNameStaysFree(root: Vol, source: Path, target: Path)
    requires RenameOf(root, source, target) && Lookup(root, target).None?
    ensures IsDir(root, source[..|source| - 1]) && Holds(Lookup(root, source[..|source| - 1]).value.entries, source[|source| - 1])
    ensures Lookup(Removed(root, source[..|source| - 1], source[|source| - 1]), target).None?
  {
    var dir, name := source[..|source| - 1], source[|source| - 1];
    EntryFound(root, source);
    assert dir + [name] == source;
    NothingBelow(root, dir, target) by { LookupPrefix(root, dir, [name]); }
    NotItself(root, source, target);
    LookupRemoved(root, dir, name, target);
  }

  lemma NotItself(root: Vol, source: Path, target: Path)
    requires RenameOf(root, source, target) && Lookup(root, target).None?
    ensures !Inside(target, source)
  {
    if Inside(target, source) && |target| == |source| { LookupSamePath(root, target, source); }
  }

  lemma RenameOk(env: Env, c: Core, id: nat, source: Path, target: Path)
    requires Wf(env, c) && c.mode.Idle?
    ensures Wf(env, ServeRename(env, c, id, source, target).core) && ServeRename(env, c, id, source, target).core.mode.Idle?
  {
    hide TreeOk, StatusReply, Text, Renamed, EnvOk, Inside, SamePath, Lookup;
    var r := ServeRename(env, c, id, source, target);
    if r.core != c { RenamedOk(env, c.root, MovedIdentity(env, c.root, source, target, c.nextId), source, target); }
  }

  lemma SetStatOk(env: Env, c: Core, id: nat, path: Path, attrs: RequestedAttrs)
    requires Wf(env, c) && c.mode.Idle?
    ensures Wf(env, ServeSetStat(env, c, id, path, attrs).core)
    ensures ServeSetStat(env, c, id, path, attrs).core.mode.Idle? || ServeSetStat(env, c, id, path, attrs).core.mode.Growing?
  {
    hide Settled, TreeOk, StatusReply, EnvOk, Put;
    var n := Lookup(c.root, path);
    if n.Some? && path != [] {
      SettledOk(env, c.root, path, attrs);
      LookupOk(env, c.root, path);
      FileSound(env, n.value);
    }
  }

  lemma FileSound(env: Env, n: Vol)
    requires EnvOk(env) && TreeOk(env, n)
    ensures SizeOf(n) <= U32_TOP
  {
  }

  lemma SettledOk(env: Env, root: Vol, path: Path, attrs: RequestedAttrs)
    requires EnvOk(env) && TreeOk(env, root) && root.Dir? && path != [] && Lookup(root, path).Some?
    ensures var after := Put(root, path, Settled(env, Lookup(root, path).value, attrs)); TreeOk(env, after) && after.Dir?
  {
    var n := Lookup(root, path).value;
    LookupOk(env, root, path);
    var node := Resized(env, n, attrs.size);
    ResizedOk(env, n, attrs.size);
    MetaKeepsOk(env, node, NewMeta(env, MetaOf(node), attrs));
    PutOk(env, root, path, Settled(env, n, attrs));
  }

  lemma ResizedOk(env: Env, n: Vol, size: Option<nat>)
    requires EnvOk(env) && TreeOk(env, n)
    ensures TreeOk(env, Resized(env, n, size)) && (Resized(env, n, size).Dir? <==> n.Dir?)
  {
    if n.File? && size.Some? && size.value < SizeOf(n) { ShrunkSound(env.g, n.file, size.value); }
  }

  lemma ReadOk(env: Env, c: Core, id: nat, token: Token, offset: nat, wanted: nat)
    requires Wf(env, c) && c.mode.Idle?
    ensures var r := ServeRead(c, id, token, offset, wanted).core;
            Wf(env, r) && (r.mode.Idle? || r.mode.Reading?)
  {
  }

  /** Requests that only answer. */
  predicate IsQuery(r: Request) {
    r.RealPath? || r.Stat? || r.FStat? || r.Limits? || r.FSync? || r.StatVfs? || r.FStatVfs? ||
    r.UnknownExtension? || r.BadMessage? || r.Unsupported?
  }

  lemma QueryChangesNothing(env: Env, c: Core, id: nat, r: Request)
    requires EnvOk(env) && IsQuery(r)
    ensures Serve(env, c, id, r).core == c
  {
    hide EnvOk, Resolved, Displayed, Lookup, Frame, StatusReply, Text, AttrBytes, Words, ServeOpenDir, ServeReadDir, ServeOpen, ServeClose,
         ServeRead, ServeRemove, ServeMkDir, ServeRmDir, ServeRename, ServeSetStat, ServeFSetStat;
  }

  lemma ReadDirOk(env: Env, c: Core, id: nat, token: Token)
    requires Wf(env, c) && c.mode.Idle?
    ensures Wf(env, ServeReadDir(env, c, id, token).core) && ServeReadDir(env, c, id, token).core.mode.Idle?
  {
    hide TreeOk, EnvOk, StatusReply, Text, Batch, NamesBytes, NamesReply, Unsent, SlotOf, Lookup;
  }

  lemma OpenDirOk(env: Env, c: Core, id: nat, path: Path)
    requires Wf(env, c) && c.mode.Idle?
    ensures Wf(env, ServeOpenDir(c, id, path).core) && ServeOpenDir(c, id, path).core.mode.Idle?
  {
    hide TreeOk, EnvOk, ModeOk, StatusReply, HandleReply, Text, Allocated, Lookup;
    AllocatedOk(env, c, DirSlot(path, 0));
  }

  lemma RemoveOk(env: Env, c: Core, id: nat, path: Path)
    requires Wf(env, c) && c.mode.Idle?
    ensures Wf(env, ServeRemove(c, id, path).core) && ServeRemove(c, id, path).core.mode.Idle?
  {
    hide TreeOk, ModeOk, Deleted, StatusReply;
    if path != [] && Lookup(c.root, path).Some? { DeletedOk(env, c, path); }
  }

  lemma RmDirOk(env: Env, c: Core, id: nat, path: Path)
    requires Wf(env, c) && c.mode.Idle?
    ensures Wf(env, ServeRmDir(c, id, path).core) && ServeRmDir(c, id, path).core.mode.Idle?
  {
    hide TreeOk, ModeOk, Deleted, StatusReply;
    if path != [] && Lookup(c.root, path).Some? { DeletedOk(env, c, path); }
  }

  lemma CloseOk(env: Env, c: Core, id: nat, token: Token)
    requires Wf(env, c) && c.mode.Idle?
    ensures Wf(env, ServeClose(c, id, token).core) && ServeClose(c, id, token).core.mode.Idle?
  {
  }

  lemma FSetStatOk(env: Env, c: Core, id: nat, token: Token, attrs: RequestedAttrs)
    requires Wf(env, c) && c.mode.Idle?
    ensures Wf(env, ServeFSetStat(env, c, id, token, attrs).core)
    ensures ServeFSetStat(env, c, id, token, attrs).core.mode.Idle? || ServeFSetStat(env, c, id, token, attrs).core.mode.Growing?
  {
    hide TreeOk, ModeOk, ServeSetStat;
    var slot := SlotOf(c, token);
    if slot.Some? { SetStatOk(env, c, id, PathOf(c.slots[slot.value]), attrs); }
  }

  lemma ServeOk(env: Env, c: Core, id: nat, r: Request)
    requires EnvOk(env) && Wf(env, c) && c.mode.Idle?
    ensures var after := Serve(env, c, id, r).core;
            Wf(env, after) && (after.mode.Idle? || (after.mode.Reading? && r.Read?) || (after.mode.Growing? && (r.SetStat? || r.FSetStat?)))
  {
    hide EnvOk, Wf, Resolved, ServeOpenDir, ServeReadDir, ServeOpen, ServeClose, ServeRead, ServeRemove, ServeMkDir, ServeRmDir,
         ServeRename, ServeSetStat, ServeFSetStat, ServeRealPath, ServeStat, ServeFStat, WordsReply, ServeFSync, ServeStatVfs, ServeFStatVfs, Refuse;
    if IsQuery(r) {
      QueryChangesNothing(env, c, id, r);
    } else {
      match r
      case OpenDir(path) => OpenDirOk(env, c, id, Resolved([], path));
      case ReadDir(token) => ReadDirOk(env, c, id, token);
      case Open(path, flags, attrs) => OpenOk(env, c, id, Resolved([], path), flags, attrs);
      case Close(token) => CloseOk(env, c, id, token);
      case Read(token, offset, wanted) => ReadOk(env, c, id, token, offset, wanted);
      case Remove(path) => RemoveOk(env, c, id, Resolved([], path));
      case RmDir(path) => RmDirOk(env, c, id, Resolved([], path));
      case MkDir(path, attrs) => MkDirOk(env, c, id, Resolved([], path), attrs);
      case Rename(source, target) => RenameOk(env, c, id, Resolved([], source), Resolved([], target));
      case SetStat(path, attrs) => SetStatOk(env, c, id, Resolved([], path), attrs);
      case FSetStat(token, attrs) => FSetStatOk(env, c, id, token, attrs);
    }
  }

  lemma ChunkOk(env: Env, c: Core, w: WriteStream, bytes: seq<Byte>)
    requires Wf(env, c) && c.mode == Writing(w) && |bytes| <= w.remaining
    ensures Wf(env, AfterChunk(env, c, w, bytes)) && AfterChunk(env, c, w, bytes).mode.Writing?
  {
    if w.failed.None? {
      var s := c.slots[w.slot];
      StoreChunkOk(env, c.root, PathOf(s), s.append, w.offset, bytes);
      StoreKeepsDir(env, c.root, PathOf(s), s.append, w.offset, bytes);
    }
  }

  lemma DispatchOk(env: Env, c: Core, kind: Byte, body: seq<Byte>)
    requires EnvOk(env) && Wf(env, c) && c.mode.Idle?
    ensures Wf(env, Dispatch(env, c, kind, body).core)
    ensures var m := Dispatch(env, c, kind, body).core.mode; m.Idle? || m.Reading? || m.Growing? || m.Fatal?
  {
    hide EnvOk, TreeOk, Serve, ParseRequest, VersionReply;
    var id := TakeU32(body);
    if id.Got? { ServeOk(env, c, id.value, ParseRequest(kind, id.rest)); }
  }

  lemma BeginWriteOk(env: Env, c: Core, b: seq<Byte>, length: nat)
    requires Wf(env, c) && c.mode.Idle? && BeginWrite(c, b, length).Worked?
    ensures var u := BeginWrite(c, b, length);
            Wf(env, u.core) && (u.core.mode.Fatal? || (u.core.mode.Writing? && u.used > 0))
  {
    hide TreeOk, SlotOf, EnvOk;
    var u := BeginWrite(c, b, length);
    if u.core.mode.Writing? {
      var handleLen := FromBe32(b[9..13]);
      CheckedSlot(c, b[13..13 + handleLen]);
    }
  }

  lemma BeginSkipOk(env: Env, c: Core, b: seq<Byte>, length: nat)
    requires Wf(env, c) && c.mode.Idle? && BeginSkip(c, b, length).Worked?
    ensures var u := BeginSkip(c, b, length);
            Wf(env, u.core) && u.core.mode.Skipping?
  {
    hide TreeOk, EnvOk, StatusReply;
  }

  lemma ParseOk(env: Env, c: Core, b: seq<Byte>)
    requires EnvOk(env) && Wf(env, c) && c.mode.Idle? && ParseNext(env, c, b).Worked?
    ensures var u := ParseNext(env, c, b); Wf(env, u.core) && (u.used > 0 || Stage(u.core.mode) == 0)
  {
    hide EnvOk, TreeOk, Dispatch, BeginWrite, BeginSkip, FromBe32;
    var length := FromBe32(b[..4]);
    if length == 0 {
    } else if b[4] == FXP_WRITE {
      BeginWriteOk(env, c, b, length);
    } else if length > MAX_REQUEST {
      BeginSkipOk(env, c, b, length);
    } else {
      DispatchOk(env, c, b[4], b[5..4 + length]);
    }
  }

  lemma CheckedSlot(c: Core, token: Token)
    ensures SlotOf(c, token).Some? ==> SlotOf(c, token).value < |c.slots|
  {
  }

  lemma GrowthOk(env: Env, c: Core, g: Growth)
    requires Wf(env, c) && c.mode == Growing(g)
    ensures var r := FinishGrowth(env, c.root, g.path, g.attrs);
            Wf(env, c.(mode := Idle)) && (r.Stored? ==> Wf(env, c.(root := r.root, mode := Idle)))
  {
    FinishGrowthOk(env, c.root, g.path, g.attrs);
  }

  lemma NextOk(env: Env, c: Core, b: seq<Byte>)
    requires Wf(env, c) && Next(env, c, b).Worked?
    ensures var u := Next(env, c, b); Wf(env, u.core) && (u.used > 0 || Stage(u.core.mode) < Stage(c.mode))
  {
    hide TreeOk, ParseNext, AfterChunk, StoreChunk, FinishGrowth, Lookup;
    match c.mode
    case Idle => ParseOk(env, c, b);
    case Writing(w) =>
      if w.remaining > 0 { ChunkOk(env, c, w, b[..Min(w.remaining, WRITE_CHUNK)]); }
    case Growing(g) => GrowthOk(env, c, g);
    case _ =>
  }

  /** While a DATA reply or a WRITE is in progress its slot keeps the handle it started on. */
  lemma NextKeepsHandles(env: Env, c: Core, b: seq<Byte>)
    requires Wf(env, c) && Next(env, c, b).Worked? && (c.mode.Reading? || c.mode.Writing?)
    ensures var d := Next(env, c, b).core;
            && d.slots == c.slots && d.tokens == c.tokens && d.generation == c.generation && d.lost == c.lost
            && (d.mode.Idle? || (c.mode.Writing? && d.mode.Writing? && d.mode.write.slot == c.mode.write.slot && d.mode.write.id == c.mode.write.id))
  {
    hide Wf, StoreChunk, WriteReply, FileAt, PathOf;
  }

  lemma StoreKeepsDir(env: Env, root: Vol, path: Path, append: bool, offset: nat, bytes: seq<Byte>)
    requires EnvOk(env) && root.Dir?
    ensures var r := StoreChunk(env, root, path, append, offset, bytes); r.Stored? ==> r.root.Dir?
  {
  }
}
