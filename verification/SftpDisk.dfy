/**
 The mounted volume as src/sftp.rs uses it: finding entries, changing the tree,
 and reading and writing files through cursors and writers.
 */
module SftpDisk {
  import opened Bytes
  import opened FatTree
  import opened FatFile
  import opened Wire
  import opened SftpVolume
  import opened SftpModel
  import opened SftpStream
  import opened SftpCursors
  import opened SftpChunks

  /** What comes of making an entry. */
  datatype EntryResult = Made | AlreadyExists | NameRefused

  /** `touches` counts the calls that read or write the card. */
  class Disk {
    var root: Vol
    var nextId: nat
    ghost var touches: nat

    constructor (root: Vol, nextId: nat)
      ensures this.root == root && this.nextId == nextId
    {
      this.root, this.nextId, touches := root, nextId, 0;
    }

    ghost predicate Valid(env: Env)
      reads this
    {
      EnvOk(env) && TreeOk(env, root) && root.Dir?
    }

    // -------------------------------------------------------------------
    // Finding entries
    // -------------------------------------------------------------------

    method OpenDirPath(components: Path) returns (dir: Option<Vol>)
      modifies this`touches
      ensures dir.Some? <==> IsDir(root, components)
      ensures dir.Some? ==> Lookup(root, components) == dir && dir.value.Dir?
    {
      touches := touches + 1;
      if !root.Dir? {
        if components != [] { NothingBelowRootFile(root, components); }
        return None;
      }
      var current := root;
      for i := 0 to |components|
        invariant Lookup(root, components[..i]) == Some(current) && current.Dir?
      {
        assert components[..i + 1] == components[..i] + [components[i]];
        LookupConcat(root, components[..i], [components[i]]);
        var at := FindIn(current.entries, components[i]);
        if at == |current.entries| || current.entries[at].node.File? {
          NotADir(root, components, i + 1);
          return None;
        }
        current := current.entries[at].node;
      }
      assert components[..|components|] == components;
      return Some(current);
    }

    method FindEntry(parent: Path, leaf: Name) returns (n: Option<Vol>)
      modifies this`touches
      ensures n == Lookup(root, parent + [leaf])
    {
      var dir := OpenDirPath(parent);
      if dir.None? {
        if Lookup(root, parent + [leaf]).Some? { LookupPrefix(root, parent, [leaf]); }
        return None;
      }
      LookupConcat(root, parent, [leaf]);
      var i := FindIn(dir.value.entries, leaf);
      return if i < |dir.value.entries| then Some(dir.value.entries[i].node) else None;
    }

    // -------------------------------------------------------------------
    // Changing the tree
    // -------------------------------------------------------------------

    method Truncate(env: Env, path: Path, size: nat)
      requires Valid(env) && FileAt(root, path).Some? && size <= |FileAt(root, path).value.data|
      requires path != []
      modifies this`root, this`touches
      ensures Valid(env) && root == PutFile(old(root), path, Shrunk(env.g, FileAt(old(root), path).value, size))
    {
      touches := touches + 1;
      var f := FileAt(root, path).value;
      LookupOk(env, root, path);
      ShrunkSound(env.g, f, size);
      PutOk(env, root, path, File(Shrunk(env.g, f, size)));
      root := PutFile(root, path, Shrunk(env.g, f, size));
    }

    /** A new entry at the end of the directory; never over an existing one. */
    method Create(env: Env, dir: Path, name: Name, node: Vol) returns (r: EntryResult)
      requires Valid(env) && IsDir(root, dir) && TreeOk(env, node)
      modifies this`root, this`touches
      ensures Valid(env)
      ensures r == if !env.nameOk(name) then NameRefused else if Lookup(old(root), dir + [name]).Some? then AlreadyExists else Made
      ensures root == if r.Made? then Added(old(root), dir, Entry(name, node)) else old(root)
    {
      hide TreeOk, FindIn;
      touches := touches + 1;
      if !env.nameOk(name) { return NameRefused; }
      assert (dir + [name])[..|dir|] == dir;
      HeldIsFound(root, dir + [name]);
      if Holds(Lookup(root, dir).value.entries, name) { return AlreadyExists; }
      AddedOk(env, root, dir, Entry(name, node));
      root := Added(root, dir, Entry(name, node));
      return Made;
    }

    method CreateDir(env: Env, dir: Path, name: Name) returns (r: EntryResult)
      requires Valid(env) && IsDir(root, dir)
      modifies this`root, this`touches
      ensures Valid(env)
      ensures r == if !env.nameOk(name) then NameRefused else if Lookup(old(root), dir + [name]).Some? then AlreadyExists else Made
      ensures root == if r.Made? then Added(old(root), dir, Entry(name, Dir(env.newMeta, []))) else old(root)
    {
      r := Create(env, dir, name, Dir(env.newMeta, []));
    }

    method CreateFile(env: Env, dir: Path, name: Name) returns (r: EntryResult)
      requires Valid(env) && IsDir(root, dir)
      modifies this
      ensures Valid(env)
      ensures r == if !env.nameOk(name) then NameRefused else if Lookup(old(root), dir + [name]).Some? then AlreadyExists else Made
      ensures root == if r.Made? then Added(old(root), dir, Entry(name, File(EmptyFile(env, old(root), dir + [name], old(nextId))))) else old(root)
      ensures nextId == if r.Made? then old(nextId) + 1 else old(nextId)
    {
      r := Create(env, dir, name, File(EmptyFile(env, root, dir + [name], nextId)));
      if r.Made? { nextId := nextId + 1; }
    }

    /** A new name for `source`. Another entry that has it already is in the way; the source itself is not. */
    method Rename(env: Env, source: Path, target: Path) returns (r: EntryResult)
      requires Valid(env) && source != [] && target != [] && !(|target| > |source| && Inside(target, source))
      requires Lookup(root, source).Some? && IsDir(root, target[..|target| - 1])
      modifies this
      ensures Valid(env)
      ensures r == if !env.nameOk(target[|target| - 1]) then NameRefused
                   else if Lookup(old(root), target).Some? && !SamePath(target, source) then AlreadyExists
                   else Made
      ensures if r.Made? then
                && RenameOf(old(root), source, target) && nextId == old(nextId) + 1
                && root == Renamed(old(root), MovedIdentity(env, old(root), source, target, old(nextId)), source, target)
              else root == old(root) && nextId == old(nextId)
    {
      hide TreeOk, EnvOk, Lookup, Inside, Removed, Added, FindIn;
      touches := touches + 1;
      var parent, leaf := target[..|target| - 1], target[|target| - 1];
      if !env.nameOk(leaf) { return NameRefused; }
      HeldIsFound(root, target);
      if Holds(Lookup(root, parent).value.entries, leaf) && !SamePath(target, source) { return AlreadyExists; }
      RenameKeepsParent(root, source, target);
      var id := MovedIdentity(env, root, source, target, nextId);
      RenamedOk(env, root, id, source, target);
      var entry := Entry(leaf, Relabeled(Lookup(root, source).value, id));
      root := Removed(root, source[..|source| - 1], source[|source| - 1]);
      root := Added(root, parent, entry);
      nextId := nextId + 1;
      return Made;
    }

    method Delete(env: Env, path: Path)
      requires Valid(env) && path != [] && Lookup(root, path).Some?
      modifies this`root, this`touches
      ensures Valid(env)
      ensures IsDir(old(root), path[..|path| - 1]) && Holds(Lookup(old(root), path[..|path| - 1]).value.entries, path[|path| - 1])
      ensures root == Removed(old(root), path[..|path| - 1], path[|path| - 1])
    {
      touches := touches + 1;
      EntryFound(root, path);
      RemovedOk(env, root, path[..|path| - 1], path[|path| - 1]);
      root := Removed(root, path[..|path| - 1], path[|path| - 1]);
    }

    method SetMeta(env: Env, path: Path, meta: Meta)
      requires Valid(env) && path != [] && Lookup(root, path).Some?
      modifies this`root, this`touches
      ensures Valid(env) && root == Put(old(root), path, WithMeta(Lookup(old(root), path).value, meta))
      ensures Lookup(root, path) == Some(WithMeta(Lookup(old(root), path).value, meta))
    {
      touches := touches + 1;
      var n := Lookup(root, path).value;
      LookupOk(env, root, path);
      MetaKeepsOk(env, n, meta);
      PutOk(env, root, path, WithMeta(n, meta));
      LookupPut(root, path, WithMeta(n, meta));
      root := Put(root, path, WithMeta(n, meta));
    }

    // -------------------------------------------------------------------
    // Reading and writing files
    // -------------------------------------------------------------------

    /** `FileReader::read`: what a reader at this cursor gives, and where it stands then. */
    method ReadFrom(env: Env, path: Path, cursor: ReadCursor, count: nat) returns (bytes: Option<seq<Byte>>, after: ReadCursor)
      requires Valid(env) && FileAt(root, path).Some?
      modifies this`touches
      ensures (bytes, after) == SftpChunks.ReadFrom(env, root, path, FileAt(root, path).value, cursor, count)
    {
      touches := touches + 1;
      var f := FileAt(root, path).value;
      var read := SftpChunks.ReadFrom(env, root, path, f, cursor, count);
      return read.0, read.1;
    }

    /** `write`, `append_cursor` and `finish`: what the writer commits, if its cluster is where it counts to be. */
    method WriteAndFinish(env: Env, path: Path, k: Cache, w: Writer, data: seq<Byte>) returns (err: Option<Status>, cache: Cache)
      requires Valid(env) && FileAt(root, path).Some? && w.total + |data| <= U32_TOP
      modifies this`root, this`touches
      ensures Valid(env) && WriteResult(err, root, cache) == Commit(env, old(root), path, FileAt(old(root), path).value, k, w, data)
    {
      hide Committed, Written, TreeOk, EnvOk, Lookup;
      touches := touches + 1;
      var f := FileAt(root, path).value;
      FileSoundAt(env, root, path);
      PositiveGeometry(env);
      var end := w.total + |data|;
      var size := if end > |f.data| then end else |f.data|;
      if Stands(env.g, f, w) {
        CommittedIsWritten(env.g, f, w, data);
        WrittenSound(env.g, f, w.total, data);
        var after := Committed(env.g, f, w, data).value;
        PutFileOk(env, root, path, after);
        WrittenSize(env.g, f, w.total, data);
        var tail := AppendCursor(after.id, ClusterAt(after.chain, 0), ClusterAt(after.chain, IndexOf(env.g, end)), InCluster(env.g, end), end);
        root := PutFile(root, path, after);
        return None, Cache(size, if end >= |f.data| then Some(tail) else None, None);
      }
      var stray := StrayWrite(env, root, path, w, data);
      root := stray.root;
      if !stray.ok { return Some(WRITE_FAILED), k.(append := None); }
      return None, Cache(size, if end >= |f.data| then Some(stray.tail) else None, None);
    }
  }

  lemma PositiveGeometry(env: Env)
    requires EnvOk(env)
    ensures env.g.clusterSize > 0 && GeometryOk(env.g)
  {
  }

  lemma PutFileOk(env: Env, root: Vol, path: Path, f: FatFile)
    requires EnvOk(env) && TreeOk(env, root) && root.Dir? && FileAt(root, path).Some? && Sound(env.g, f)
    ensures TreeOk(env, PutFile(root, path, f)) && PutFile(root, path, f).Dir?
  {
    PutOk(env, root, path, File(f));
  }

  lemma HeldIsFound(root: Vol, target: Path)
    requires target != [] && IsDir(root, target[..|target| - 1])
    ensures Holds(Lookup(root, target[..|target| - 1]).value.entries, target[|target| - 1]) <==> Lookup(root, target).Some?
  {
    assert target[..|target| - 1] + [target[|target| - 1]] == target;
    LookupConcat(root, target[..|target| - 1], [target[|target| - 1]]);
  }

  lemma NothingBelowRootFile(root: Vol, path: Path)
    requires path != [] && root.File?
    ensures Lookup(root, path).None?
  {
  }

  lemma NotADir(root: Vol, path: Path, i: nat)
    requires 0 < i <= |path| && !IsDir(root, path[..i])
    ensures !IsDir(root, path)
  {
    assert path[..|path|] == path;
    if IsDir(root, path) {
      assert path == path[..i] + path[i..];
      LookupPrefix(root, path[..i], path[i..]);
    }
  }

  // ---------------------------------------------------------------------
  // One chunk through a handle
  // ---------------------------------------------------------------------

  /** `read_chunk`: resume from the saved cursor if it stands at `offset`, else walk there. */
  method ReadChunk(env: Env, disk: Disk, h: FileHandle, offset: nat, count: nat) returns (bytes: Option<seq<Byte>>, after: FileHandle)
    requires disk.Valid(env)
    modifies disk`touches
    ensures after == h.(cache := after.cache)
    ensures ReadResult(bytes, after.cache) == ReadOutcome(env, disk.root, FilePath(h), h.cache, offset, count)
  {
    hide TreeOk, Lookup, CursorAt, EnvOk, ReadAccepted, SftpChunks.ReadFrom;
    PositiveGeometry(env);
    after := h.(cache := h.cache.(readAt := None));
    var entry := disk.FindEntry(h.parent, h.leaf);
    if entry.None? || entry.value.Dir? { return None, after; }
    var f := entry.value.file;
    var cursor := CursorAt(env.g, f, offset);
    if h.cache.readAt.Some? && h.cache.readAt.value.0 == offset {
      cursor := h.cache.readAt.value.1;
      if !ReadAccepted(env.g, f, cursor) { return None, after; }
    } else if offset > |f.data| {
      return None, after;
    }
    var read, stopped := disk.ReadFrom(env, FilePath(h), cursor, count);
    if read.None? { return None, after; }
    after := h.(cache := h.cache.(readAt := Some((offset + |read.value|, stopped))));
    bytes := read;
  }

  /** Where `write_chunk` starts: at the tail, from the saved cursor if there is one, or inside the file. */
  method OpenWriter(env: Env, disk: Disk, f: FatFile, append: Option<AppendCursor>, offset: nat) returns (w: Option<Writer>)
    requires disk.Valid(env) && Sound(env.g, f) && offset <= |f.data|
    ensures w == OpenedWriter(env, f, append, offset)
  {
    hide TreeOk, AppendAccepted, TailOf, IndexOf, InCluster;
    if offset == |f.data| {
      if append.Some? {
        if !AppendAccepted(env.g, f, append.value) { return None; }
        return Some(ResumedWriter(append.value));
      }
      return Some(AppendWriter(env.g, f));
    }
    var start := NewAt(env.g, f, offset);
    return if start.Opened? then Some(start.writer) else None;
  }

  /** `write_chunk`: at an existing offset, keeping the tail, or at the end. */
  method WriteChunk(env: Env, disk: Disk, h: FileHandle, offset: nat, data: seq<Byte>) returns (err: Option<Status>, after: FileHandle)
    requires disk.Valid(env)
    modifies disk`root, disk`touches
    ensures disk.Valid(env) && after == h.(cache := after.cache)
    ensures WriteResult(err, disk.root, after.cache) == WriteOutcome(env, old(disk.root), FilePath(h), h.cache, offset, data)
  {
    hide TreeOk, Lookup, Put, EnvOk, Commit, OpenedWriter, Sound;
    after := h;
    var entry := disk.FindEntry(h.parent, h.leaf);
    if entry.None? { return Some(NO_SUCH_FILE), after; }
    if MetaOf(entry.value).readOnly { return Some(READ_ONLY), after; }
    if offset + |data| > U32_TOP { return Some(TOO_LARGE), after; }
    if offset > SizeOf(entry.value) { return Some(GAP_FIRST), after; }
    var append := if h.cache.size == SizeOf(entry.value) then h.cache.append else None;
    after := h.(cache := h.cache.(append := None));
    if entry.value.Dir? { return Some(WRITE_FAILED), after; }
    var f := entry.value.file;
    FileSoundAt(env, disk.root, FilePath(h));
    var w := OpenWriter(env, disk, f, append, offset);
    if w.None? { return Some(WRITE_FAILED), after; }
    OpenedTotal(env, f, append, offset);
    var cache;
    err, cache := disk.WriteAndFinish(env, FilePath(h), h.cache, w.value, data);
    after := h.(cache := cache);
  }
}
