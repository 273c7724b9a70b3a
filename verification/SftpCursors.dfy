/**
 Open handles and the positions they cache (src/sftp.rs, `FileHandle`). A cache
 is coherent when resuming from it is the same as walking the chain again.
 */
module SftpCursors {
  import opened FatTree
  import opened FatFile
  import opened Wire
  import opened SftpVolume
  import opened SftpModel

  /** The size last seen, the tail for the next WRITE, and where the last READ stopped. */
  datatype Cache = Cache(size: nat, append: Option<AppendCursor>, readAt: Option<(nat, ReadCursor)>)

  const NO_CACHE := Cache(0, None, None)

  datatype FileHandle = FileHandle(parent: Path, leaf: Name, readable: bool, writable: bool, appendMode: bool, cache: Cache)

  datatype Handle = Closed | OpenFile(file: FileHandle) | OpenDirectory(components: Path, next: nat)

  function SlotOfHandle(h: Handle): Slot {
    match h
    case Closed => Free
    case OpenFile(f) => FileSlot(f.parent, f.leaf, f.readable, f.writable, f.appendMode)
    case OpenDirectory(components, next) => DirSlot(components, next)
  }

  function Slots(handles: seq<Handle>): (s: seq<Slot>)
    ensures |s| == |handles| && forall i :: 0 <= i < |s| ==> s[i] == SlotOfHandle(handles[i])
  {
    seq(|handles|, i requires 0 <= i < |handles| => SlotOfHandle(handles[i]))
  }

  function CacheOf(h: Handle): Cache { if h.OpenFile? then h.file.cache else NO_CACHE }

  function Caches(handles: seq<Handle>): (s: seq<Cache>)
    ensures |s| == |handles| && forall i :: 0 <= i < |s| ==> s[i] == CacheOf(handles[i])
  {
    seq(|handles|, i requires 0 <= i < |handles| => CacheOf(handles[i]))
  }

  lemma SlotsWith(handles: seq<Handle>, at: nat, h: Handle)
    requires at < |handles|
    ensures Slots(handles[at := h]) == Slots(handles)[at := SlotOfHandle(h)]
    ensures Caches(handles[at := h]) == Caches(handles)[at := CacheOf(h)]
  {
  }

  function FilePath(h: FileHandle): Path { h.parent + [h.leaf] }

  /** A used append cursor is the file's true tail; a read cursor stands at the offset it was saved with. */
  ghost predicate CacheOk(g: Geometry, f: FatFile, k: Cache)
    requires g.clusterSize > 0
  {
    && (k.append.Some? && k.size == |f.data| ==> k.append.value == TailOf(g, f))
    && (k.readAt.Some? ==> k.readAt.value.0 <= |f.data| && k.readAt.value.1 == CursorAt(g, f, k.readAt.value.0))
  }

  ghost predicate SlotOk(env: Env, root: Vol, s: Slot, k: Cache)
    requires EnvOk(env)
  {
    var f := FileAt(root, PathOf(s));
    f.Some? && CacheOk(env.g, f.value, k)
  }

  /** The cursors of every open file that still has the entry it was opened on are exact. */
  ghost predicate Coherent(env: Env, c: Core, caches: seq<Cache>)
    requires EnvOk(env)
  {
    |caches| == |c.slots| && forall i :: 0 <= i < |c.slots| && c.slots[i].FileSlot? && i !in c.lost ==> SlotOk(env, c.root, c.slots[i], caches[i])
  }

  function Forgotten(k: Cache): Cache { k.(append := None, readAt := None) }

  /** Handles on the file at `path` forget their cursors. */
  function Forget(slots: seq<Slot>, caches: seq<Cache>, path: Path): (r: seq<Cache>)
    requires |slots| == |caches|
    ensures |r| == |caches|
    ensures forall i :: 0 <= i < |r| ==> r[i] == (if slots[i].FileSlot? && SamePath(PathOf(slots[i]), path) then Forgotten(caches[i]) else caches[i])
  {
    seq(|caches|, i requires 0 <= i < |caches| => if slots[i].FileSlot? && SamePath(PathOf(slots[i]), path) then Forgotten(caches[i]) else caches[i])
  }

  /** After a write through `slot`, whose cache is now `k`: it keeps only its tail, and others on the file forget theirs. */
  function AfterWrite(slots: seq<Slot>, caches: seq<Cache>, slot: nat, k: Cache): (r: seq<Cache>)
    requires |slots| == |caches| && slot < |slots|
    ensures |r| == |caches|
  {
    Forget(slots, caches, PathOf(slots[slot]))[slot := k.(readAt := None)]
  }

  // ---------------------------------------------------------------------
  // Which files a change of the tree leaves alone
  // ---------------------------------------------------------------------

  /** Nothing lies below a file. */
  lemma FileIsLeaf(root: Vol, p: Path, q: Path)
    requires FileAt(root, p).Some? && Inside(q, p) && Lookup(root, q).Some?
    ensures SamePath(q, p)
  {
    SplitInside(q, p);
    LookupPrefix(root, q[..|p|], q[|p|..]);
    LookupSamePath(root, q[..|p|], p);
  }

  lemma FileAfterPutFile(root: Vol, q: Path, f: FatFile, p: Path)
    requires FileAt(root, q).Some? && FileAt(root, p).Some?
    ensures FileAt(PutFile(root, q, f), p) == if SamePath(p, q) then Some(f) else FileAt(root, p)
  {
    if SamePath(p, q) {
      LookupSamePath(PutFile(root, q, f), p, q);
      LookupPut(root, q, File(f));
    } else {
      if Inside(p, q) { FileIsLeaf(root, q, p); }
      if Inside(q, p) { FileIsLeaf(root, p, q); SamePathSymmetric(q, p); }
      LookupPutApart(root, q, File(f), p);
    }
  }

  lemma SamePathSymmetric(a: Path, b: Path)
    requires SamePath(a, b)
    ensures SamePath(b, a)
  {
  }

  lemma FileAfterPutDir(root: Vol, q: Path, info: Meta, p: Path)
    requires IsDir(root, q) && FileAt(root, p).Some?
    ensures FileAt(Put(root, q, Lookup(root, q).value.(info := info)), p) == FileAt(root, p)
  {
    var d := Lookup(root, q).value.(info := info);
    if Inside(p, q) {
      var rest := p[|q|..];
      SplitInside(p, q);
      LookupSamePath(root, p[..|q|], q);
      LookupConcat(root, p[..|q|], rest);
      LookupPut(root, q, d);
      LookupSamePath(Put(root, q, d), p[..|q|], q);
      LookupConcat(Put(root, q, d), p[..|q|], rest);
    } else {
      DirNotBelowFile(root, q, p);
      LookupPutApart(root, q, d, p);
    }
  }

  lemma DirNotBelowFile(root: Vol, q: Path, p: Path)
    requires IsDir(root, q) && FileAt(root, p).Some?
    ensures !Inside(q, p)
  {
    if Inside(q, p) {
      FileIsLeaf(root, p, q);
      LookupSamePath(root, q, p);
    }
  }

  lemma FileAfterAdded(root: Vol, dir: Path, entry: Item, p: Path)
    requires IsDir(root, dir) && !Holds(Lookup(root, dir).value.entries, entry.name) && FileAt(root, p).Some?
    ensures FileAt(Added(root, dir, entry), p) == FileAt(root, p)
  {
    LookupConcat(root, dir, [entry.name]);
    NothingBelow(root, p, dir + [entry.name]);
    DirNotBelowFile(root, dir, p);
    LookupAdded(root, dir, entry, p);
  }

  lemma FileAfterRemoved(root: Vol, dir: Path, name: Name, p: Path)
    requires IsDir(root, dir) && Holds(Lookup(root, dir).value.entries, name)
    requires FileAt(root, p).Some? && !Inside(p, dir + [name])
    ensures FileAt(Removed(root, dir, name), p) == FileAt(root, p)
  {
    hide Inside, Removed;
    DirNotBelowFile(root, dir, p);
    LookupRemoved(root, dir, name, p);
  }

  // ---------------------------------------------------------------------
  // Coherence after each kind of change
  // ---------------------------------------------------------------------

  lemma CoherentWith(env: Env, c: Core, caches: seq<Cache>, i: nat, k: Cache)
    requires EnvOk(env) && Coherent(env, c, caches) && i < |c.slots|
    requires c.slots[i].FileSlot? && i !in c.lost ==> SlotOk(env, c.root, c.slots[i], k)
    ensures Coherent(env, c, caches[i := k])
  {
  }

  lemma CoherentAt(env: Env, c: Core, caches: seq<Cache>, i: nat)
    requires EnvOk(env) && Coherent(env, c, caches) && i < |c.slots| && c.slots[i].FileSlot? && i !in c.lost
    ensures SlotOk(env, c.root, c.slots[i], caches[i]) && FileAt(c.root, PathOf(c.slots[i])).Some?
    ensures CacheOk(env.g, FileAt(c.root, PathOf(c.slots[i])).value, caches[i])
  {
  }

  /** Handles on a changed file that forget their cursors stay coherent. */
  lemma CoherentAfterPutFile(env: Env, c: Core, caches: seq<Cache>, path: Path, f: FatFile)
    requires EnvOk(env) && Coherent(env, c, caches) && FileAt(c.root, path).Some?
    ensures Coherent(env, c.(root := PutFile(c.root, path, f)), Forget(c.slots, caches, path))
  {
    hide CacheOk;
    var after := PutFile(c.root, path, f);
    forall i | 0 <= i < |c.slots| && c.slots[i].FileSlot? && i !in c.lost
      ensures SlotOk(env, after, c.slots[i], Forget(c.slots, caches, path)[i])
    {
      CoherentAt(env, c, caches, i);
      FileAfterPutFile(c.root, path, f, PathOf(c.slots[i]));
      NothingToCheck(env.g, f, caches[i]);
    }
  }

  lemma NothingToCheck(g: Geometry, f: FatFile, k: Cache)
    requires g.clusterSize > 0
    ensures CacheOk(g, f, Forgotten(k))
  {
  }

  /** After a write through one handle every cached cursor is still exact. */
  lemma CoherentAfterWrite(env: Env, c: Core, caches: seq<Cache>, slot: nat, f: FatFile, k: Cache)
    requires EnvOk(env) && Coherent(env, c, caches) && slot < |c.slots| && c.slots[slot].FileSlot? && slot !in c.lost && CacheOk(env.g, f, k)
    ensures FileAt(c.root, PathOf(c.slots[slot])).Some?
    ensures Coherent(env, c.(root := PutFile(c.root, PathOf(c.slots[slot]), f)), AfterWrite(c.slots, caches, slot, k))
  {
    var path := PathOf(c.slots[slot]);
    CoherentAt(env, c, caches, slot);
    CoherentAfterPutFile(env, c, caches, path, f);
    FileAfterPutFile(c.root, path, f, path);
    CoherentWith(env, c.(root := PutFile(c.root, path, f)), Forget(c.slots, caches, path), slot, k.(readAt := None));
  }
}
