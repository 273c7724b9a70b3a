/**
 The SFTP server as its client and its card see it: what each request does and
 what the byte stream means, without buffers, polling, card chunks or cursors.
 */
module SftpModel {
  import opened Bytes
  import opened FatTree
  import opened FatFile
  import opened FsPath
  import opened Wire
  import opened SftpVolume

  const MAX_REQUEST := 4096
  const MAX_READ_REPLY := 32768
  const IO_CHUNK := 8192
  const WRITE_CHUNK := 8192
  const MAX_INPUT := WRITE_CHUNK + 2048
  const MAX_OUTPUT := IO_CHUNK + 64
  const MAX_HANDLES := 8
  const GENERATIONS := 0x100_0000
  const READDIR_MAX_ENTRIES := 24
  const READDIR_MAX_BYTES := 3072

  function Min(a: nat, b: nat): nat { if a < b then a else b }

  // ---------------------------------------------------------------------
  // State
  // ---------------------------------------------------------------------

  datatype Slot =
    | Free
    | FileSlot(parent: Path, leaf: Name, readable: bool, writable: bool, append: bool)
    | DirSlot(path: Path, next: nat)

  /** What a DATA reply has promised and not yet delivered. */
  datatype ReadStream = ReadStream(slot: nat, offset: nat, remaining: nat)

  /** What a WRITE has still to take from the input, and the refusal it will answer with, if any. */
  datatype WriteStream = WriteStream(id: nat, slot: nat, remaining: nat, offset: nat, failed: Option<Status>)

  /** A SETSTAT that grows a file. */
  datatype Growth = Growth(id: nat, path: Path, attrs: RequestedAttrs)

  /** What the server is in the middle of. */
  datatype Mode =
    | Idle
    | Reading(read: ReadStream)
    | Writing(write: WriteStream)
    | Growing(growth: Growth)
    | Skipping(left: nat)
    | Fatal

  datatype Core = Core(
    root: Vol, nextId: nat, slots: seq<Slot>, tokens: seq<nat>, generation: nat, mode: Mode,
    /** Slots of open files whose entry has been removed or renamed since. */
    lost: set<nat>)

  datatype Served = Served(core: Core, out: seq<Byte>)

  function PathOf(s: Slot): Path {
    match s
    case Free => []
    case FileSlot(parent, leaf, _, _, _) => parent + [leaf]
    case DirSlot(path, _) => path
  }

  // ---------------------------------------------------------------------
  // Replies
  // ---------------------------------------------------------------------

  function StatusReply(id: nat, s: Status): seq<Byte> {
    Frame(FXP_STATUS, Be32(id) + (Be32(s.code) + Str(s.message) + Str([])))
  }

  const OK := Status(FX_OK, Text("OK"))

  function HandleReply(id: nat, token: nat): seq<Byte> { Frame(FXP_HANDLE, Be32(id) + Str(Be32(token))) }

  const EXTENSIONS := [("fsync@openssh.com", "1"), ("statvfs@openssh.com", "2"), ("fstatvfs@openssh.com", "2"), ("limits@openssh.com", "1")]

  function ExtensionBytes(extensions: seq<(string, string)>): seq<Byte> {
    if extensions == [] then []
    else
      var (name, version) := extensions[|extensions| - 1];
      ExtensionBytes(extensions[..|extensions| - 1]) + Str(Text(name)) + Str(Text(version))
  }

  function VersionReply(): seq<Byte> { Frame(FXP_VERSION, Be32(3) + ExtensionBytes(EXTENSIONS)) }

  /** The header of a DATA reply promises its whole length before any payload is read. */
  function DataHeader(id: nat, length: nat): seq<Byte> {
    Be32(9 + length) + [FXP_DATA] + Be32(id) + Be32(length)
  }

  // ---------------------------------------------------------------------
  // Handles
  // ---------------------------------------------------------------------

  function FirstFree(slots: seq<Slot>): (i: nat)
    ensures i <= |slots| && (i < |slots| ==> slots[i].Free?)
    ensures forall k :: 0 <= k < i ==> !slots[k].Free?
  {
    if slots == [] then 0 else if slots[0].Free? then 0 else 1 + FirstFree(slots[1..])
  }

  function TokenFor(generation: nat, slot: nat): nat { generation * 256 + slot }

  /** A new handle in the first free slot, with the next generation in its token. */
  function Allocated(c: Core, slot: Slot): Option<(Core, nat)> {
    var i := FirstFree(c.slots);
    if i == |c.slots| || i >= |c.tokens| then None
    else
      var generation := (c.generation + 1) % GENERATIONS;
      Some((c.(slots := c.slots[i := slot], generation := generation, tokens := c.tokens[i := TokenFor(generation, i)]), i))
  }

  /** The slot a client's handle string stands for, while that handle is open. */
  function SlotOf(c: Core, token: Token): (slot: Option<nat>)
    ensures slot.Some? ==> slot.value < |c.slots| && slot.value < |c.tokens| && !c.slots[slot.value].Free?
  {
    if |token| != 4 then None
    else
      var t := FromBe32(token);
      var i := t % 256;
      if i >= |c.slots| || i >= |c.tokens| || c.slots[i].Free? || c.tokens[i] != t then None else Some(i)
  }

  const INVALID_HANDLE := Status(FX_FAILURE, Text("Invalid handle"))

  /** The open files whose path is `path` or lies below it. */
  function OpenBelow(slots: seq<Slot>, path: Path): set<nat> {
    set i: nat | i < |slots| && slots[i].FileSlot? && Inside(PathOf(slots[i]), path)
  }

  // ---------------------------------------------------------------------
  // Handlers of complete requests
  // ---------------------------------------------------------------------

  function Refuse(c: Core, id: nat, s: Status): Served { Served(c, StatusReply(id, s)) }

  function ServeRealPath(c: Core, id: nat, path: seq<Byte>): Served {
    var canonical := Displayed(Resolved([], path));
    Served(c, Frame(FXP_NAME, Be32(id) + (Be32(1) + Str(canonical) + Str(canonical) + Be32(0))))
  }

  function ServeStat(env: Env, c: Core, id: nat, path: Path): Served {
    if path == [] then Served(c, Frame(FXP_ATTRS, Be32(id) + RootAttrBytes()))
    else
      var n := Lookup(c.root, path);
      if n.None? then Refuse(c, id, NO_SUCH_FILE)
      else Served(c, Frame(FXP_ATTRS, Be32(id) + AttrBytes(env, n.value)))
  }

  function ServeFStat(env: Env, c: Core, id: nat, token: Token): Served {
    var slot := SlotOf(c, token);
    if slot.None? then Refuse(c, id, INVALID_HANDLE) else ServeStat(env, c, id, PathOf(c.slots[slot.value]))
  }

  function ServeOpenDir(c: Core, id: nat, path: Path): Served {
    if !IsDir(c.root, path) then
      Refuse(c, id, if path != [] && Lookup(c.root, path).Some? then Failure("Not a directory") else NO_SUCH_FILE)
    else
      var a := Allocated(c, DirSlot(path, 0));
      if a.None? then Refuse(c, id, Failure("Too many open handles"))
      else Served(a.value.0, HandleReply(id, a.value.0.tokens[a.value.1]))
  }

  /** One entry of a NAME reply. */
  function NameBytes(env: Env, e: Item): seq<Byte> {
    Str(e.name) + Str(env.listing(e)) + AttrBytes(env, e.node)
  }

  function NamesBytes(env: Env, entries: seq<Item>): seq<Byte> {
    if entries == [] then [] else NamesBytes(env, entries[..|entries| - 1]) + NameBytes(env, entries[|entries| - 1])
  }

  /** How many of `entries` fit one reply after `taken` of them do. */
  function BatchFrom(env: Env, entries: seq<Item>, taken: nat): (n: nat)
    requires taken <= |entries|
    ensures taken <= n <= |entries|
    decreases |entries| - taken
  {
    if taken == |entries| || taken >= READDIR_MAX_ENTRIES || |NamesBytes(env, entries[..taken])| >= READDIR_MAX_BYTES then taken
    else BatchFrom(env, entries, taken + 1)
  }

  function Batch(env: Env, entries: seq<Item>): (n: nat)
    ensures n <= |entries|
  {
    BatchFrom(env, entries, 0)
  }

  function ServeReadDir(env: Env, c: Core, id: nat, token: Token): Served {
    var slot := SlotOf(c, token);
    if slot.None? then Refuse(c, id, INVALID_HANDLE)
    else if !c.slots[slot.value].DirSlot? then Refuse(c, id, Failure("Not a directory handle"))
    else ServeNames(env, c, id, slot.value)
  }

  /** The next entries of an open directory, or the end of it. */
  function ServeNames(env: Env, c: Core, id: nat, slot: nat): Served
    requires slot < |c.slots| && c.slots[slot].DirSlot?
  {
    var s := c.slots[slot];
    if !IsDir(c.root, s.path) then Refuse(c, id, NO_SUCH_FILE)
    else
      var left := Unsent(Lookup(c.root, s.path).value.entries, s.next);
      var count := Batch(env, left);
      if count == 0 then Refuse(c, id, END_OF_DIRECTORY)
      else Served(c.(slots := c.slots[slot := s.(next := s.next + count)]), NamesReply(id, count, NamesBytes(env, left[..count])))
  }

  const END_OF_DIRECTORY := Status(FX_EOF, Text("End of directory"))

  function Unsent(entries: seq<Item>, next: nat): seq<Item> { if next <= |entries| then entries[next..] else [] }

  function NamesReply(id: nat, count: nat, names: seq<Byte>): seq<Byte> { Frame(FXP_NAME, Be32(id) + (Be32(count) + names)) }

  datatype OpenResult = Target(root: Vol, nextId: nat) | Denied(status: Status)

  /** OPEN of an entry that exists. */
  function OpenFound(env: Env, root: Vol, nextId: nat, path: Path, n: Vol, flags: nat): OpenResult
    requires EnvOk(env) && Lookup(root, path) == Some(n)
  {
    if n.Dir? then Denied(Failure("Is a directory"))
    else if Bit(flags, 8) && Bit(flags, 32) then Denied(Failure("File exists"))
    else if Bit(flags, 2) && n.file.meta.readOnly then Denied(READ_ONLY)
    else if Bit(flags, 2) && Bit(flags, 16) then Target(PutFile(root, path, Shrunk(env.g, n.file, 0)), nextId)
    else Target(root, nextId)
  }

  /** What OPEN does to the volume: truncate, create, or nothing. */
  function OpenTarget(env: Env, root: Vol, nextId: nat, parent: Path, leaf: Name, flags: nat, attrs: RequestedAttrs): OpenResult
    requires EnvOk(env)
  {
    if !IsDir(root, parent) then Denied(NO_SUCH_FILE)
    else
      var path := parent + [leaf];
      var n := Lookup(root, path);
      if n.Some? then OpenFound(env, root, nextId, path, n.value, flags)
      else if !(Bit(flags, 2) && Bit(flags, 8)) then Denied(NO_SUCH_FILE)
      else if !env.nameOk(leaf) then Denied(Failure("Cannot create file"))
      else
        var f := EmptyFile(env, root, path, nextId).(meta := NewMeta(env, env.newMeta, attrs));
        Target(Added(root, parent, Entry(leaf, File(f))), nextId + 1)
  }

  function ServeOpen(env: Env, c: Core, id: nat, path: Path, flags: nat, attrs: RequestedAttrs): Served
    requires EnvOk(env)
  {
    var refusal := AttrsRefusal(env, attrs);
    if refusal.Some? then Refuse(c, id, refusal.value)
    else if path == [] then Refuse(c, id, Failure("Is a directory"))
    else
      var parent, leaf := path[..|path| - 1], path[|path| - 1];
      var target := OpenTarget(env, c.root, c.nextId, parent, leaf, flags, attrs);
      if target.Denied? then Refuse(c, id, target.status)
      else
        OpenedReply(c.(root := target.root, nextId := target.nextId), id, parent, leaf, flags)
  }

  /** The handle OPEN answers with; a handle that is not for writing is for reading. */
  function OpenedReply(c: Core, id: nat, parent: Path, leaf: Name, flags: nat): Served {
    var writable := Bit(flags, 2);
    var a := Allocated(c, FileSlot(parent, leaf, Bit(flags, 1) || !writable, writable, Bit(flags, 4)));
    if a.None? then Refuse(c, id, Failure("Too many open handles"))
    else Served(a.value.0, HandleReply(id, a.value.0.tokens[a.value.1]))
  }

  function ServeClose(c: Core, id: nat, token: Token): Served {
    var slot := SlotOf(c, token);
    if slot.None? then Refuse(c, id, INVALID_HANDLE)
    else Served(c.(slots := c.slots[slot.value := Free], lost := c.lost - {slot.value}), StatusReply(id, OK))
  }

  /** A READ is accepted with a header; its payload follows. */
  function AcceptRead(c: Core, id: nat, slot: nat, offset: nat, length: nat): Served {
    Served(c.(mode := Reading(ReadStream(slot, offset, length))), DataHeader(id, length))
  }

  const END_OF_FILE := Status(FX_EOF, Text("End of file"))

  function ServeRead(c: Core, id: nat, token: Token, offset: nat, wanted: nat): Served {
    var slot := SlotOf(c, token);
    if slot.None? then Refuse(c, id, INVALID_HANDLE)
    else if !c.slots[slot.value].FileSlot? then Refuse(c, id, Failure("Not a file handle"))
    else if !c.slots[slot.value].readable then Refuse(c, id, Failure("Handle not open for reading"))
    else
      var n := Lookup(c.root, PathOf(c.slots[slot.value]));
      if n.None? then Refuse(c, id, NO_SUCH_FILE)
      else if offset >= SizeOf(n.value) || wanted == 0 then Refuse(c, id, END_OF_FILE)
      else
        AcceptRead(c, id, slot.value, offset, Min(SizeOf(n.value) - offset, Min(wanted, MAX_READ_REPLY)))
  }

  function ServeRemove(c: Core, id: nat, path: Path): Served {
    if path == [] then Refuse(c, id, Failure("Is a directory"))
    else
      var n := Lookup(c.root, path);
      if n.None? then Refuse(c, id, NO_SUCH_FILE)
      else if n.value.Dir? then Refuse(c, id, Failure("Is a directory"))
      else if n.value.file.meta.readOnly then Refuse(c, id, READ_ONLY)
      else Served(Deleted(c, path), StatusReply(id, OK))
  }

  /** The entry at `path` deleted; handles on files there lose them. */
  function Deleted(c: Core, path: Path): Core
    requires path != [] && Lookup(c.root, path).Some?
  {
    EntryFound(c.root, path);
    c.(root := Removed(c.root, path[..|path| - 1], path[|path| - 1]), lost := c.lost + OpenBelow(c.slots, path))
  }

  lemma EntryFound(root: Vol, path: Path)
    requires path != [] && Lookup(root, path).Some?
    ensures IsDir(root, path[..|path| - 1]) && Holds(Lookup(root, path[..|path| - 1]).value.entries, path[|path| - 1])
  {
    var parent, leaf := path[..|path| - 1], path[|path| - 1];
    assert parent + [leaf] == path;
    LookupPrefix(root, parent, [leaf]);
    LookupConcat(root, parent, [leaf]);
  }

  function ServeMkDir(env: Env, c: Core, id: nat, path: Path, attrs: RequestedAttrs): Served {
    var refusal := AttrsRefusal(env, attrs);
    if refusal.Some? then Refuse(c, id, refusal.value)
    else if attrs.size.Some? then Refuse(c, id, Failure("Directory size cannot be set"))
    else if path == [] then Refuse(c, id, Failure("Exists"))
    else
      var parent, leaf := path[..|path| - 1], path[|path| - 1];
      if !IsDir(c.root, parent) then Refuse(c, id, NO_SUCH_FILE)
      else if !env.nameOk(leaf) then Refuse(c, id, Failure("Cannot create directory"))
      else if Lookup(c.root, path).Some? then Refuse(c, id, Failure("File exists"))
      else Served(c.(root := Added(c.root, parent, Entry(leaf, Dir(NewMeta(env, env.newMeta, attrs), [])))), StatusReply(id, OK))
  }

  function ServeRmDir(c: Core, id: nat, path: Path): Served {
    if path == [] then Refuse(c, id, Failure("Cannot remove the root"))
    else
      var n := Lookup(c.root, path);
      if n.None? then Refuse(c, id, NO_SUCH_FILE)
      else if n.value.File? then Refuse(c, id, Failure("Not a directory"))
      else if n.value.entries != [] then Refuse(c, id, Failure("Directory not empty"))
      else Served(Deleted(c, path), StatusReply(id, OK))
  }

  /** A renamed file has a new directory slot, which is part of what a cursor checks. */
  function Relabeled(n: Vol, id: nat): Vol { if n.File? then File(n.file.(id := id)) else n }

  /** A renamed entry gets its new slot while it still has the old one, so its identity changes. */
  function MovedIdentity(env: Env, root: Vol, source: Path, target: Path, stamp: nat): (id: nat)
    ensures FileAt(root, source).Some? ==> id != FileAt(root, source).value.id
  {
    var id, f := env.identity(root, target, stamp), FileAt(root, source);
    if f.Some? && id == f.value.id then id + 1 else id
  }

  /** Neither path of a rename can be the root, and the target is not below the source. */
  predicate RenameOf(root: Vol, source: Path, target: Path) {
    && source != [] && target != [] && !(|target| > |source| && Inside(target, source))
    && Lookup(root, source).Some? && IsDir(root, target[..|target| - 1])
    && (Lookup(root, target).Some? ==> SamePath(target, source))
  }

  /** The entry under its new name, and its old name gone. */
  function Renamed(root: Vol, id: nat, source: Path, target: Path): Vol
    requires RenameOf(root, source, target)
  {
    EntryFound(root, source);
    RenameKeepsParent(root, source, target);
    var without := Removed(root, source[..|source| - 1], source[|source| - 1]);
    Added(without, target[..|target| - 1], Entry(target[|target| - 1], Relabeled(Lookup(root, source).value, id)))
  }

  /** Taking the old entry away leaves the directory the new one goes to. */
  lemma RenameKeepsParent(root: Vol, source: Path, target: Path)
    requires RenameOf(root, source, target)
    ensures IsDir(root, source[..|source| - 1]) && Holds(Lookup(root, source[..|source| - 1]).value.entries, source[|source| - 1])
    ensures IsDir(Removed(root, source[..|source| - 1], source[|source| - 1]), target[..|target| - 1])
  {
    EntryFound(root, source);
    var dir, parent := source[..|source| - 1], target[..|target| - 1];
    assert parent + [target[|target| - 1]] == target && dir + [source[|source| - 1]] == source;
    if Inside(parent, source) { BelowStaysBelow(parent, target[|target| - 1], source); }
    DirAfterRemoved(root, dir, source[|source| - 1], parent);
  }

  function ServeRename(env: Env, c: Core, id: nat, source: Path, target: Path): Served {
    if source == [] then Refuse(c, id, Failure("Cannot rename the root"))
    else if target == [] then Refuse(c, id, Failure("Invalid target"))
    else if |target| > |source| && Inside(target, source) then Refuse(c, id, Failure("Cannot move a directory into itself"))
    else if Lookup(c.root, source).None? || !IsDir(c.root, target[..|target| - 1]) then Refuse(c, id, NO_SUCH_FILE)
    else if !env.nameOk(target[|target| - 1]) then Refuse(c, id, Failure("Rename failed"))
    else if Lookup(c.root, target).Some? && !SamePath(target, source) then Refuse(c, id, Failure("Target exists"))
    else Served(c.(root := Renamed(c.root, MovedIdentity(env, c.root, source, target, c.nextId), source, target), nextId := c.nextId + 1,
                   lost := c.lost + OpenBelow(c.slots, source)), StatusReply(id, OK))
  }

  /** A file cut to `size`, if it is longer. */
  function Resized(env: Env, n: Vol, size: Option<nat>): Vol
    requires EnvOk(env)
  {
    if n.File? && size.Some? && size.value < SizeOf(n) then File(Shrunk(env.g, n.file, size.value)) else n
  }

  /** What a SETSTAT that does not grow makes of a file or directory. */
  function Settled(env: Env, n: Vol, attrs: RequestedAttrs): Vol
    requires EnvOk(env)
  {
    var node := Resized(env, n, attrs.size);
    WithMeta(node, NewMeta(env, MetaOf(node), attrs))
  }

  /** SETSTAT and FSETSTAT: shrink at once, grow later, then times and the read-only bit. */
  function ServeSetStat(env: Env, c: Core, id: nat, path: Path, attrs: RequestedAttrs): Served
    requires EnvOk(env)
  {
    var refusal := AttrsRefusal(env, attrs);
    if refusal.Some? then Refuse(c, id, refusal.value)
    else if path == [] then Refuse(c, id, Status(FX_OP_UNSUPPORTED, Text("Root metadata cannot be changed")))
    else
      var n := Lookup(c.root, path);
      if n.None? then Refuse(c, id, NO_SUCH_FILE)
      else if attrs.size.Some? && n.value.Dir? then Refuse(c, id, Failure("Cannot resize a directory"))
      else if attrs.size.Some? && attrs.size.value != SizeOf(n.value) && MetaOf(n.value).readOnly then Refuse(c, id, READ_ONLY)
      else if attrs.size.Some? && attrs.size.value > SizeOf(n.value) then Served(c.(mode := Growing(Growth(id, path, attrs))), [])
      else
        Served(c.(root := Put(c.root, path, Settled(env, n.value, attrs))), StatusReply(id, OK))
  }

  function ServeFSetStat(env: Env, c: Core, id: nat, token: Token, attrs: RequestedAttrs): Served
    requires EnvOk(env)
  {
    var slot := SlotOf(c, token);
    if slot.None? then Refuse(c, id, INVALID_HANDLE)
    else
      var s := c.slots[slot.value];
      if attrs.size.Some? && !s.FileSlot? then Refuse(c, id, Failure("Not a file handle"))
      else if attrs.size.Some? && !s.writable then Refuse(c, id, Status(FX_PERMISSION_DENIED, Text("Handle not open for writing")))
      else ServeSetStat(env, c, id, PathOf(s), attrs)
  }

  function ServeFSync(c: Core, id: nat, token: Token): Served {
    var slot := SlotOf(c, token);
    if slot.None? then Refuse(c, id, INVALID_HANDLE)
    else if !c.slots[slot.value].FileSlot? then Refuse(c, id, Failure("Not a file handle"))
    else Served(c, StatusReply(id, OK))
  }

  function Words(values: seq<nat>): seq<Byte> {
    if values == [] then [] else Words(values[..|values| - 1]) + Be64(values[|values| - 1])
  }

  function WordsReply(id: nat, values: seq<nat>): seq<Byte> { Frame(FXP_EXTENDED_REPLY, Be32(id) + Words(values)) }

  const LIMITS := [65536, MAX_READ_REPLY, 32768, MAX_HANDLES]

  function ServeStatVfs(env: Env, c: Core, id: nat, path: Path): Served {
    var free := env.freeClusters(c.root);
    if path != [] && Lookup(c.root, path).None? then Refuse(c, id, NO_SUCH_FILE)
    else if free.None? then Refuse(c, id, FREE_UNKNOWN)
    else if free.value > env.totalClusters then Refuse(c, id, Failure("Invalid FAT free-space count"))
    else
      Served(c, WordsReply(id, VolumeWords(env, free.value)))
  }

  /** Block sizes, blocks, free blocks twice, no inodes, the volume id, no flags, the longest name. */
  function VolumeWords(env: Env, free: nat): seq<nat> {
    [env.g.clusterSize, env.g.clusterSize, env.totalClusters, free, free, 0, 0, 0, env.volumeId, 0, 255]
  }

  const UNSUPPORTED := Status(FX_OP_UNSUPPORTED, Text("Operation not supported"))
  const NO_EXTENSION := Status(FX_OP_UNSUPPORTED, Text("Extension not supported"))
  const FREE_UNKNOWN := Status(FX_OP_UNSUPPORTED, Text("FAT free-space count is unknown"))

  function ServeFStatVfs(env: Env, c: Core, id: nat, token: Token): Served {
    var slot := SlotOf(c, token);
    if slot.None? then Refuse(c, id, INVALID_HANDLE) else ServeStatVfs(env, c, id, PathOf(c.slots[slot.value]))
  }

  function Serve(env: Env, c: Core, id: nat, r: Request): Served
    requires EnvOk(env)
  {
    match r
    case RealPath(path) => ServeRealPath(c, id, path)
    case Stat(path) => ServeStat(env, c, id, Resolved([], path))
    case FStat(token) => ServeFStat(env, c, id, token)
    case OpenDir(path) => ServeOpenDir(c, id, Resolved([], path))
    case ReadDir(token) => ServeReadDir(env, c, id, token)
    case Open(path, flags, attrs) => ServeOpen(env, c, id, Resolved([], path), flags, attrs)
    case Close(token) => ServeClose(c, id, token)
    case Read(token, offset, wanted) => ServeRead(c, id, token, offset, wanted)
    case Remove(path) => ServeRemove(c, id, Resolved([], path))
    case MkDir(path, attrs) => ServeMkDir(env, c, id, Resolved([], path), attrs)
    case RmDir(path) => ServeRmDir(c, id, Resolved([], path))
    case Rename(source, target) => ServeRename(env, c, id, Resolved([], source), Resolved([], target))
    case SetStat(path, attrs) => ServeSetStat(env, c, id, Resolved([], path), attrs)
    case FSetStat(token, attrs) => ServeFSetStat(env, c, id, token, attrs)
    case Limits => Served(c, WordsReply(id, LIMITS))
    case FSync(token) => ServeFSync(c, id, token)
    case StatVfs(path) => ServeStatVfs(env, c, id, Resolved([], path))
    case FStatVfs(token) => ServeFStatVfs(env, c, id, token)
    case UnknownExtension => Refuse(c, id, NO_EXTENSION)
    case BadMessage => Refuse(c, id, BAD_MESSAGE)
    case Unsupported => Refuse(c, id, UNSUPPORTED)
  }

  function Reply(env: Env, c: Core, kind: Byte, id: nat, b: seq<Byte>): Served
    requires EnvOk(env)
  {
    Serve(env, c, id, ParseRequest(kind, b))
  }

  /** `dispatch`: INIT has no id; anything else too short to hold one ends the session. */
  function Dispatch(env: Env, c: Core, kind: Byte, body: seq<Byte>): Served
    requires EnvOk(env)
  {
    if kind == FXP_INIT then Served(c, VersionReply())
    else
      var id := TakeU32(body);
      if id.Short? then Served(c.(mode := Fatal), []) else Reply(env, c, kind, id.value, id.rest)
  }
}
