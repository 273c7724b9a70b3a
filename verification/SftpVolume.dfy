/** The volume an SFTP session serves: a tree of FAT files, and what the server does to it (src/sftp.rs). */
module SftpVolume {
  import opened Bytes
  import opened FatTree
  import opened FatFile
  import opened Wire
  import FatTime
  import Clock

  type Vol = Node<FatFile, Meta>
  type Item = Entry<FatFile, Meta>

  const MAX_NAME := 765
  const MAX_LISTING := 896

  /** What the session's surroundings decide: geometry, clock setting, names FAT accepts, listing lines, free space. */
  datatype Env = Env(
    g: Geometry, clock: Clock.ClockConfig, nameOk: Name -> bool, listing: Item -> seq<Byte>,
    newMeta: Meta, freeClusters: Vol -> Option<nat>, totalClusters: nat, volumeId: nat,
    /** What a cursor sees of the directory slot a new entry gets; a slot that was given back may be used again. */
    identity: (Vol, Path, nat) -> nat,
    /** How much one card read gives, and what comes of reading and writing through a stale cursor. */
    burst: (FatFile, nat, nat) -> nat, strayRead: (Vol, Path, ReadCursor, nat) -> (Option<seq<Byte>>, ReadCursor),
    strayWrite: (Vol, Path, Writer, seq<Byte>) -> Stray)

  /** A write that went to clusters of another file, or failed. */
  datatype Stray = Stray(ok: bool, root: Vol, tail: AppendCursor)

  /** A name FAT can give an entry; the dot entries are not names. */
  predicate PlainName(n: Name) { |n| <= MAX_NAME && n != DOT && n != DOT_DOT }

  ghost predicate EnvOk(env: Env) {
    && GeometryOk(env.g)
    && (forall n: Name :: env.nameOk(n) ==> PlainName(n))
    && (forall e: Item :: |e.name| <= MAX_NAME ==> |env.listing(e)| <= MAX_LISTING)
  }

  /** Every file is sound, every name is one FAT can store, and no directory holds a name twice. */
  predicate TreeOk(env: Env, n: Vol)
    requires EnvOk(env)
  {
    match n
    case File(f) => Sound(env.g, f)
    case Dir(_, entries) =>
      Unambiguous(entries) && forall i :: 0 <= i < |entries| ==> PlainName(entries[i].name) && TreeOk(env, entries[i].node)
  }

  function FileAt(root: Vol, path: Path): Option<FatFile> {
    var n := Lookup(root, path);
    if n.Some? && n.value.File? then Some(n.value.file) else None
  }

  /** A new file, the `stamp`-th entry to be made. */
  function EmptyFile(env: Env, root: Vol, path: Path, stamp: nat): FatFile {
    FatFile(env.identity(root, path, stamp), stamp, [], [], env.newMeta)
  }

  function PutFile(root: Vol, path: Path, f: FatFile): Vol
    requires Lookup(root, path).Some?
  {
    Put(root, path, File(f))
  }

  function MetaOf(n: Vol): Meta {
    match n
    case File(f) => f.meta
    case Dir(info, _) => info
  }

  function WithMeta(n: Vol, meta: Meta): Vol {
    match n
    case File(f) => File(f.(meta := meta))
    case Dir(info, entries) => Dir(meta, entries)
  }

  function SizeOf(n: Vol): nat {
    match n
    case File(f) => |f.data|
    case Dir(_, _) => 0
  }

  // ---------------------------------------------------------------------
  // Keeping the tree sound
  // ---------------------------------------------------------------------

  lemma {:induction false} LookupOk(env: Env, root: Vol, path: Path)
    requires EnvOk(env) && TreeOk(env, root) && Lookup(root, path).Some?
    ensures TreeOk(env, Lookup(root, path).value)
    decreases path
  {
    if path != [] { LookupOk(env, root.entries[FindIn(root.entries, path[0])].node, path[1..]); }
  }

  lemma {:induction false} PutOk(env: Env, root: Vol, path: Path, node: Vol)
    requires EnvOk(env) && TreeOk(env, root) && Lookup(root, path).Some? && TreeOk(env, node)
    ensures TreeOk(env, Put(root, path, node))
    decreases path
  {
    if path != [] {
      PutOk(env, root.entries[FindIn(root.entries, path[0])].node, path[1..], node);
    }
  }

  lemma AddedOk(env: Env, root: Vol, dir: Path, e: Item)
    requires EnvOk(env) && TreeOk(env, root) && IsDir(root, dir) && PlainName(e.name) && TreeOk(env, e.node)
    requires !Holds(Lookup(root, dir).value.entries, e.name)
    ensures TreeOk(env, Added(root, dir, e))
  {
    LookupOk(env, root, dir);
    var d := Lookup(root, dir).value;
    AppendedUnambiguous(d.entries, e);
    PutOk(env, root, dir, d.(entries := d.entries + [e]));
  }

  lemma AppendedUnambiguous(entries: seq<Item>, e: Item)
    requires Unambiguous(entries) && !Holds(entries, e.name)
    ensures Unambiguous(entries + [e])
  {
  }

  lemma RemovedOk(env: Env, root: Vol, dir: Path, name: Name)
    requires EnvOk(env) && TreeOk(env, root) && IsDir(root, dir) && Holds(Lookup(root, dir).value.entries, name)
    ensures TreeOk(env, Removed(root, dir, name))
  {
    LookupOk(env, root, dir);
    var d := Lookup(root, dir).value;
    var i := FindIn(d.entries, name);
    PutOk(env, root, dir, d.(entries := Without(d.entries, i)));
  }

  lemma MetaKeepsOk(env: Env, n: Vol, meta: Meta)
    requires EnvOk(env) && TreeOk(env, n)
    ensures TreeOk(env, WithMeta(n, meta))
  {
  }

  // ---------------------------------------------------------------------
  // Attributes
  // ---------------------------------------------------------------------

  /** The server's messages are short fixed texts. */
  type ShortText = s: seq<Byte> | |s| <= 64

  datatype Status = Status(code: nat, message: ShortText)

  function Failure(message: string): Status
    requires |message| <= 64
  {
    Status(FX_FAILURE, Text(message))
  }

  const NO_SUCH_FILE := Status(FX_NO_SUCH_FILE, Text("No such file or directory"))
  const BAD_MESSAGE := Status(FX_BAD_MESSAGE, Text("Malformed request"))
  const READ_ONLY := Status(FX_PERMISSION_DENIED, Text("File is read-only"))
  const TOO_LARGE := Status(FX_FAILURE, Text("File exceeds FAT's 4 GiB limit"))

  /** Permission bits 0222 are all clear. */
  predicate Unwritable(permissions: nat) { !Bit(permissions, 128) && !Bit(permissions, 16) && !Bit(permissions, 2) }

  /** `validate_attrs`: what FAT cannot hold is refused before anything changes. */
  function AttrsRefusal(env: Env, a: RequestedAttrs): Option<Status> {
    if a.owner then Some(Status(FX_OP_UNSUPPORTED, Text("FAT has no UID/GID")))
    else if a.size.Some? && a.size.value > U32_TOP then Some(TOO_LARGE)
    else if a.times.Some? && (FatTime.FatTimeOf(a.times.value.0, env.clock).OutsideFatRange? ||
                              FatTime.FatTimeOf(a.times.value.1, env.clock).OutsideFatRange?)
      then Some(Status(FX_OP_UNSUPPORTED, Text("Timestamp is outside FAT's date range")))
    else None
  }

  /** `apply_metadata`, once the attributes have been validated. */
  function NewMeta(env: Env, meta: Meta, a: RequestedAttrs): Meta {
    var timed := match a.times {
                   case None => meta
                   case Some((accessed, modified)) =>
                     var m, d := FatTime.FatTimeOf(modified, env.clock), FatTime.FatTimeOf(accessed, env.clock);
                     if m.Fits? && d.Fits? then meta.(modified := m.stamp, accessed := d.stamp.date) else meta
                 };
    if a.permissions.Some? then timed.(readOnly := Unwritable(a.permissions.value)) else timed
  }

  /** `Attrs::of` encoded: size, permissions, access and modification time. */
  function AttrBytes(env: Env, n: Vol): (s: seq<Byte>)
    ensures |s| == 24
  {
    var m := MetaOf(n);
    var permissions := if n.Dir? then (if m.readOnly then 0x416D else 0x41ED) else (if m.readOnly then 0x8124 else 0x81A4);
    Be32(13) + Be64(SizeOf(n)) + Be32(permissions) +
    Be32(FatTime.ReportedAtime(m.accessed, env.clock)) + Be32(FatTime.ReportedMtime(m.modified, env.clock))
  }

  /** The root has no times. */
  function RootAttrBytes(): (s: seq<Byte>)
    ensures |s| == 16
  {
    Be32(5) + Be64(0) + Be32(0x41ED)
  }

  // ---------------------------------------------------------------------
  // One chunk of a WRITE, and the end of a growing SETSTAT
  // ---------------------------------------------------------------------

  datatype Chunk = Stored(root: Vol) | Refused(status: Status)

  /** A chunk at `offset`, or at the end in append mode; a gap before it is filled with zeros. */
  function StoreChunk(env: Env, root: Vol, path: Path, append: bool, offset: nat, bytes: seq<Byte>): Chunk
    requires EnvOk(env)
  {
    var n := Lookup(root, path);
    if n.None? then Refused(NO_SUCH_FILE)
    else if MetaOf(n.value).readOnly then Refused(READ_ONLY)
    else if n.value.Dir? then Refused(Failure("SD write failed"))
    else
      var f := n.value.file;
      var at := if append then |f.data| else offset;
      if at + |bytes| > U32_TOP then Refused(TOO_LARGE)
      else Stored(PutFile(root, path, Written(env.g, Extended(env.g, f, at), at, bytes)))
  }

  /** Growth to `size`, then the other attributes. */
  function FinishGrowth(env: Env, root: Vol, path: Path, a: RequestedAttrs): Chunk
    requires EnvOk(env) && a.size.Some?
  {
    var n := Lookup(root, path);
    if n.None? then Refused(NO_SUCH_FILE)
    else if SizeOf(n.value) < a.size.value && MetaOf(n.value).readOnly then Refused(READ_ONLY)
    else if n.value.Dir? then Refused(Failure("SD write failed"))
    else
      var f := Extended(env.g, n.value.file, a.size.value);
      Stored(PutFile(root, path, f.(meta := NewMeta(env, f.meta, a))))
  }

  lemma StoreChunkOk(env: Env, root: Vol, path: Path, append: bool, offset: nat, bytes: seq<Byte>)
    requires EnvOk(env) && TreeOk(env, root)
    ensures var r := StoreChunk(env, root, path, append, offset, bytes); r.Stored? ==> TreeOk(env, r.root)
  {
    var r := StoreChunk(env, root, path, append, offset, bytes);
    if r.Stored? {
      LookupOk(env, root, path);
      var f := Lookup(root, path).value.file;
      var at := if append then |f.data| else offset;
      ExtendedSound(env.g, f, at);
      WrittenSound(env.g, Extended(env.g, f, at), at, bytes);
      PutOk(env, root, path, File(Written(env.g, Extended(env.g, f, at), at, bytes)));
    }
  }

  lemma ExtendedSound(g: Geometry, f: FatFile, size: nat)
    requires GeometryOk(g) && Sound(g, f) && size <= U32_TOP
    ensures Sound(g, Extended(g, f, size))
  {
    if size > |f.data| { WrittenSound(g, f, |f.data|, Zeros(size - |f.data|)); }
  }

  lemma FinishGrowthOk(env: Env, root: Vol, path: Path, a: RequestedAttrs)
    requires EnvOk(env) && TreeOk(env, root) && a.size.Some? && a.size.value <= U32_TOP
    ensures var r := FinishGrowth(env, root, path, a); r.Stored? ==> TreeOk(env, r.root)
  {
    var r := FinishGrowth(env, root, path, a);
    if r.Stored? {
      LookupOk(env, root, path);
      var f := Extended(env.g, Lookup(root, path).value.file, a.size.value);
      ExtendedSound(env.g, Lookup(root, path).value.file, a.size.value);
      PutOk(env, root, path, File(f.(meta := NewMeta(env, f.meta, a))));
    }
  }
}
