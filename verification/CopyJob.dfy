/** The on-device recursive copy, one bounded step at a time (src/filemanager.rs). */
module CopyJob {
  import opened FatTree
  import opened CopyTree

  const COPY_CHUNK := 2048
  const MAX_COPY_DEPTH := 12

  /** A cursor as far as a copy can tell: where it stands and the size it was taken at. */
  datatype ReadCursor = ReadCursor(position: nat, size: nat)
  datatype AppendCursor = AppendCursor(total: nat)

  datatype DirectoryCopy = DirectoryCopy(source: Path, target: Path, next: nat)

  datatype FileCopy = FileCopy(source: Path, target: Path, name: Name,
                               readCursor: Option<ReadCursor>, writeCursor: Option<AppendCursor>, started: bool)

  datatype Clipboard = Clipboard(parent: Path, name: Name, directory: bool, moving: bool)

  datatype Step = Running | Complete | Failed

  datatype Pasted = Copying | Moved | Refused(refusal: Refusal)

  datatype Refusal = ClipboardEmpty | IntoSelf | SameDirectory | SourceNotFound | SourceChanged | DestinationError | NameExists | CopyFailed | MoveFailed

  // ---------------------------------------------------------------------
  // Listings
  // ---------------------------------------------------------------------

  /** The records of a FAT directory: below the root the dot entries come first. */
  function Records(path: Path, entries: seq<Item>): seq<Item> {
    if path == [] then entries else [Entry(DOT, Dir((), [])), Entry(DOT_DOT, Dir((), []))] + entries
  }

  // ---------------------------------------------------------------------
  // Moving an entry
  // ---------------------------------------------------------------------

  /** The volume with a second entry for `parent/name` in `dir`. */
  function WithCopy(root: Tree, parent: Path, name: Name, dir: Path): Tree
    requires Lookup(root, parent + [name]).Some? && IsDir(root, dir)
  {
    Added(root, dir, Entry(name, Lookup(root, parent + [name]).value))
  }

  ghost predicate MovePossible(root: Tree, parent: Path, name: Name, dir: Path) {
    && Lookup(root, parent + [name]).Some? && IsDir(root, dir)
    && IsDir(WithCopy(root, parent, name, dir), parent) && Holds(Lookup(WithCopy(root, parent, name, dir), parent).value.entries, name)
  }

  function AfterMove(root: Tree, parent: Path, name: Name, dir: Path): Tree
    requires MovePossible(root, parent, name, dir)
  {
    Removed(WithCopy(root, parent, name, dir), parent, name)
  }

  lemma MoveFinds(root: Tree, parent: Path, name: Name, dir: Path)
    requires Lookup(root, parent + [name]).Some? && IsDir(root, dir) && Lookup(root, dir + [name]).None? && !Inside(dir, parent + [name])
    ensures MovePossible(root, parent, name, dir)
    ensures Lookup(WithCopy(root, parent, name, dir), parent + [name]) == Lookup(root, parent + [name])
    ensures !Holds(Lookup(root, dir).value.entries, name)
  {
    var node := Lookup(root, parent + [name]).value;
    AddedKeeps(root, dir, Entry(name, node), parent + [name]);
    LookupPrefix(WithCopy(root, parent, name, dir), parent, [name]);
    LookupConcat(WithCopy(root, parent, name, dir), parent, [name]);
  }

  /** A moved entry is found at its new place with all it holds, and every path that leads elsewhere is as it was. */
  lemma MoveKeeps(root: Tree, parent: Path, name: Name, dir: Path, p: Path)
    requires Lookup(root, parent + [name]).Some? && IsDir(root, dir) && Lookup(root, dir + [name]).None? && !Inside(dir, parent + [name])
    ensures MovePossible(root, parent, name, dir)
    ensures Lookup(AfterMove(root, parent, name, dir), dir + [name]) == Lookup(root, parent + [name])
    ensures !Inside(p, parent + [name]) && !Inside(p, dir + [name]) && !Inside(parent, p) && !Inside(dir, p) ==>
              Lookup(AfterMove(root, parent, name, dir), p) == Lookup(root, p)
  {
    MoveFinds(root, parent, name, dir);
    hide Lookup, Added, Removed, Holds;
    var src, dst := parent + [name], dir + [name];
    var entry := Entry(name, Lookup(root, src).value);
    var added := WithCopy(root, parent, name, dir);
    LookupAddedEntry(root, dir, entry);
    DestinationApart(root, parent, name, dir);
    LookupRemoved(added, parent, name, dst);
    if !Inside(p, src) && !Inside(p, dst) && !Inside(parent, p) && !Inside(dir, p) {
      LookupAdded(root, dir, entry, p);
      LookupRemoved(added, parent, name, p);
    }
  }

  lemma DestinationApart(root: Tree, parent: Path, name: Name, dir: Path)
    requires Lookup(root, parent + [name]).Some? && Lookup(root, dir + [name]).None? && !Inside(dir, parent + [name])
    ensures !Inside(dir + [name], parent + [name]) && !Inside(parent, dir + [name])
  {
    var src, dst := parent + [name], dir + [name];
    LookupPrefix(root, parent, [name]);
    NothingBelow(root, parent, dst);
    if Inside(dst, src) {
      if |dst| == |src| {
        LookupSamePath(root, dst, src);
      } else {
        forall i | 0 <= i < |src| ensures SameName(dir[i], src[i]) { assert SameName(dst[i], src[i]); }
      }
    }
  }

  // ---------------------------------------------------------------------
  // The volume: FAT operations that may fail
  // ---------------------------------------------------------------------

  datatype Found = Present(node: Tree) | Absent | Broken

  class Volume {
    var root: Tree
    var faults: nat

    constructor (root: Tree)
      ensures this.root == root && faults == 0
    {
      this.root, faults := root, 0;
    }

    method OpenDir(path: Path) returns (ok: bool)
      modifies this`faults
      ensures ok ==> IsDir(root, path) && faults == old(faults)
      ensures !ok && IsDir(root, path) ==> faults > old(faults)
      ensures faults >= old(faults)
    {
      ok := *;
      if !IsDir(root, path) { return false; }
      if !ok { faults := faults + 1; }
    }

    method Find(dir: Path, name: Name) returns (r: Found)
      modifies this`faults
      ensures r.Present? ==> Lookup(root, dir + [name]) == Some(r.node) && IsDir(root, dir) && Holds(Lookup(root, dir).value.entries, name)
      ensures r.Absent? ==> IsDir(root, dir) && !Holds(Lookup(root, dir).value.entries, name) && Lookup(root, dir + [name]).None?
      ensures r.Broken? && IsDir(root, dir) ==> faults > old(faults)
      ensures faults >= old(faults) && (!r.Broken? ==> IsDir(root, dir) && faults == old(faults))
    {
      var ok := OpenDir(dir);
      if !ok { return Broken; }
      var entries := Lookup(root, dir).value.entries;
      LookupConcat(root, dir, [name]);
      var i := FindIn(entries, name);
      if i == |entries| { return Absent; }
      return Present(entries[i].node);
    }

    /** The entry `index` of a directory, found by counting from its start. */
    method ItemAt(path: Path, index: nat) returns (ok: bool, item: Option<Item>)
      requires IsDir(root, path) ==> EntriesOk(Lookup(root, path).value.entries)
      modifies this`faults
      ensures faults >= old(faults) && (ok ==> faults == old(faults) && IsDir(root, path))
      ensures !ok && IsDir(root, path) ==> faults > old(faults)
      ensures ok ==> var entries := Lookup(root, path).value.entries;
                     item == if index < |entries| then Some(entries[index]) else None
    {
      item := None;
      ok := OpenDir(path);
      if !ok { return; }
      var entries := Lookup(root, path).value.entries;
      var records := Records(path, entries);
      var dots := |records| - |entries|;
      var at, position := 0, 0;
      while at < |records|
        invariant at <= |records| && position == (if at < dots then 0 else at - dots) && position <= index
        invariant faults == old(faults)
      {
        var broken := *;
        if broken { faults := faults + 1; return false, None; }
        var record := records[at];
        at := at + 1;
        if record.name == DOT || record.name == DOT_DOT { continue; }
        assert at > dots && record == entries[at - 1 - dots];
        if position == index { return true, Some(record); }
        position := position + 1;
      }
    }

    /** `create_file` and `create_dir`: a new entry, never over an existing one. */
    method Create(dir: Path, name: Name, node: Tree) returns (ok: bool)
      modifies this
      ensures ok ==> IsDir(old(root), dir) && !Holds(Lookup(old(root), dir).value.entries, name)
      ensures ok ==> root == Added(old(root), dir, Entry(name, node)) && faults == old(faults)
      ensures !ok ==> root == old(root)
      ensures !ok && IsDir(root, dir) && !Holds(Lookup(root, dir).value.entries, name) ==> faults > old(faults)
      ensures faults >= old(faults)
    {
      ok := *;
      if !IsDir(root, dir) || Holds(Lookup(root, dir).value.entries, name) { return false; }
      if ok { root := Added(root, dir, Entry(name, node)); } else { faults := faults + 1; }
    }

    /** `rename`: the entry goes to another directory. */
    method Rename(parent: Path, name: Name, dir: Path) returns (ok: bool)
      requires Lookup(root, parent + [name]).Some? && IsDir(root, dir) && Lookup(root, dir + [name]).None? && !Inside(dir, parent + [name])
      modifies this
      ensures ok ==> MovePossible(old(root), parent, name, dir) && root == AfterMove(old(root), parent, name, dir) && faults == old(faults)
      ensures !ok ==> root == old(root) && faults > old(faults)
    {
      ok := *;
      MoveFinds(root, parent, name, dir);
      if ok { root := AfterMove(root, parent, name, dir); } else { faults := faults + 1; }
    }

    /** `FileReader`: from a cursor or from the start; reads may be short, but not empty before the end. */
    method Read(path: Path, cursor: Option<ReadCursor>, limit: nat)
      returns (ok: bool, data: Contents, next: ReadCursor)
      requires Lookup(root, path).Some? && Lookup(root, path).value.File? && limit > 0
      modifies this`faults
      ensures faults >= old(faults)
      ensures var file := Lookup(root, path).value.file;
              var at := if cursor.Some? then cursor.value.position else 0;
              && (ok ==> at + |data| <= |file| && data == file[at..at + |data|] && |data| <= limit
                         && (data == [] ==> at == |file|)
                         && next == ReadCursor(at + |data|, |file|) && faults == old(faults))
              && (!ok && (cursor.None? || (cursor.value.size == |file| && at <= |file|)) ==> faults > old(faults))
    {
      var file := Lookup(root, path).value.file;
      var at := if cursor.Some? then cursor.value.position else 0;
      ok, data, next := *, [], ReadCursor(at, |file|);
      if cursor.Some? && (cursor.value.size != |file| || at > |file|) { ok := false; return; }
      if !ok { faults := faults + 1; return; }
      var most := if |file| - at < limit then |file| - at else limit;
      var count := *;
      if count < 1 || count > most { count := most; }
      data := file[at..at + count];
      next := ReadCursor(at + count, |file|);
    }

    /** `FileWriter`, written and finished: a failure may leave any part of the data committed. */
    method Append(path: Path, cursor: Option<AppendCursor>, data: Contents) returns (ok: bool, next: AppendCursor)
      requires Lookup(root, path).Some? && Lookup(root, path).value.File?
      requires cursor.None? ==> Lookup(root, path).value.file == []
      modifies this
      ensures faults >= old(faults)
      ensures var file := Lookup(old(root), path).value.file;
              && (ok ==> root == Put(old(root), path, File(file + data)) && next == AppendCursor(|file| + |data|)
                         && faults == old(faults))
              && (!ok ==> exists k :: 0 <= k <= |data| && root == Put(old(root), path, File(file + data[..k])))
              && (!ok && (cursor.None? || cursor.value.total == |file|) ==> faults > old(faults))
    {
      var file := Lookup(root, path).value.file;
      ok, next := *, AppendCursor(|file| + |data|);
      PutSame(root, path);
      assert file + data[..0] == file;
      if cursor.Some? && cursor.value.total != |file| { ok := false; return; }
      if ok {
        root := Put(root, path, File(file + data));
      } else {
        faults := faults + 1;
        var k := *;
        if k < 0 || k > |data| { k := 0; }
        root := Put(root, path, File(file + data[..k]));
      }
    }
  }

  // ---------------------------------------------------------------------
  // One file in progress
  // ---------------------------------------------------------------------

  ghost function DoneOf(fc: FileCopy): nat {
    if fc.started && fc.readCursor.Some? then fc.readCursor.value.position else 0
  }

  /** A file job over `base`, the volume without the file's copy. */
  ghost predicate FileOk(base: Tree, fc: FileCopy, data: Contents) {
    && Lookup(base, fc.source + [fc.name]) == Some(File(data))
    && IsDir(base, fc.target) && !Holds(Lookup(base, fc.target).value.entries, fc.name)
    && !Inside(fc.source + [fc.name], fc.target + [fc.name]) && !Inside(fc.target, fc.source + [fc.name])
    && DoneOf(fc) <= |data|
    && fc.readCursor == (if fc.started then Some(ReadCursor(DoneOf(fc), |data|)) else None)
    && fc.writeCursor == (if fc.started then Some(AppendCursor(DoneOf(fc))) else None)
  }

  ghost function Grown(base: Tree, fc: FileCopy, data: Contents): Tree
    requires IsDir(base, fc.target)
  {
    Added(base, fc.target, Entry(fc.name, File(data)))
  }

  ghost predicate FileRoot(root: Tree, base: Tree, fc: FileCopy, data: Contents)
    requires FileOk(base, fc, data)
  {
    root == if fc.started then Grown(base, fc, data[..DoneOf(fc)]) else base
  }

  /** The part of a file copy that a failed step leaves. */
  ghost predicate PartOfFile(root: Tree, base: Tree, fc: FileCopy, data: Contents)
    requires IsDir(base, fc.target)
  {
    root == base || exists k :: 0 <= k <= |data| && root == Grown(base, fc, data[..k])
  }

  /** What the volume looks like around a file copy. */
  lemma FileSurroundings(base: Tree, fc: FileCopy, data: Contents, part: Contents)
    requires FileOk(base, fc, data)
    ensures var root := Grown(base, fc, part);
            && Lookup(root, fc.source + [fc.name]) == Some(File(data)) && IsDir(root, fc.source)
            && IsDir(root, fc.target) && Lookup(root, fc.target + [fc.name]) == Some(File(part))
            && forall more: Contents :: Put(root, fc.target + [fc.name], File(more)) == Grown(base, fc, more)
    ensures IsDir(base, fc.source)
  {
    var entry := Entry(fc.name, File(part));
    var root := Grown(base, fc, part);
    LookupPrefix(base, fc.source, [fc.name]);
    LookupAdded(base, fc.target, entry, fc.source + [fc.name]);
    LookupPrefix(root, fc.source, [fc.name]);
    LookupAddedEntry(base, fc.target, entry);
    LookupPrefix(root, fc.target, [fc.name]);
    forall more: Contents ensures Put(root, fc.target + [fc.name], File(more)) == Grown(base, fc, more) {
      PutAdded(base, fc.target, entry, [], File(more));
      assert fc.target + [fc.name] + [] == fc.target + [fc.name];
    }
  }

  // ---------------------------------------------------------------------
  // A whole copy: what it started from, and what the volume looks like on the way
  // ---------------------------------------------------------------------

  /** `source` at `src` is copied to a new entry `name` of the directory `cwd`. */
  datatype Plan = Plan(start: Tree, source: Tree, src: Path, cwd: Path, name: Name) {
    function Dst(): Path { cwd + [name] }
  }

  ghost predicate PlanOk(p: Plan) {
    && Lookup(p.start, p.src) == Some(p.source) && NamesOk(p.source)
    && IsDir(p.start, p.cwd) && !Holds(Lookup(p.start, p.cwd).value.entries, p.name)
    && Apart(p.src, p.Dst())
  }

  /** The volume the copy started from, with one more entry. */
  ghost function Whole(p: Plan, node: Tree): Tree
    requires PlanOk(p)
  {
    Added(p.start, p.cwd, Entry(p.name, node))
  }

  lemma NotAbove(p: Plan, q: Path)
    requires PlanOk(p)
    ensures !Inside(p.cwd, p.src + q) && !Inside(p.src + q, p.Dst())
  {
    ApartExtends(p.src, p.Dst(), q);
    if Inside(p.cwd, p.src + q) {
      forall i | 0 <= i < |p.src| ensures SameName(p.Dst()[i], p.src[i]) {
        assert SameName(p.cwd[i], (p.src + q)[i]);
      }
      assert Inside(p.Dst(), p.src);
    }
  }

  /** Nothing that is added at the destination can be seen in the source. */
  lemma SourceStays(p: Plan, node: Tree, q: Path)
    requires PlanOk(p)
    ensures Lookup(Whole(p, node), p.src + q) == Lookup(p.source, q)
  {
    NotAbove(p, q);
    LookupAdded(p.start, p.cwd, Entry(p.name, node), p.src + q);
    LookupConcat(p.start, p.src, q);
  }

  /** A new entry in the directory in progress is one more entry of the partial copy. */
  lemma LeafAdded(p: Plan, ns: seq<nat>, entries: seq<Item>, e: Item)
    requires PlanOk(p) && PosOk(p.source, ns)
    ensures var root := Whole(p, Partial(p.source, ns, Dir((), entries)));
            var target := p.Dst() + Trail(p.source, ns);
            && Lookup(root, target) == Some(Dir((), entries))
            && Added(root, target, e) == Whole(p, Partial(p.source, ns, Dir((), entries + [e])))
  {
    var leaf, next := Dir((), entries), Dir((), entries + [e]);
    var partial := Partial(p.source, ns, leaf);
    PartialLookup(p.source, ns, leaf);
    PartialPut(p.source, ns, leaf, next);
    PutAdded(p.start, p.cwd, Entry(p.name, partial), Trail(p.source, ns), next);
  }

  ghost function Nexts(dirs: seq<DirectoryCopy>): seq<nat> { seq(|dirs|, i requires 0 <= i < |dirs| => dirs[i].next) }

  /** The stacked paths follow the trail, in the source and in the copy. */
  ghost predicate FramesOk(p: Plan, dirs: seq<DirectoryCopy>)
    requires dirs != [] && PosOk(p.source, Nexts(dirs))
  {
    var trail := Trail(p.source, Nexts(dirs));
    forall i :: 0 <= i < |dirs| ==> dirs[i].source == p.src + trail[..i] && dirs[i].target == p.Dst() + trail[..i]
  }

  /** The volume while the top directory's copy holds `entries`. */
  ghost function Seen(p: Plan, ns: seq<nat>, entries: seq<Item>): Tree
    requires PlanOk(p) && PosOk(p.source, ns)
  {
    Whole(p, Partial(p.source, ns, Dir((), entries)))
  }

  ghost predicate StackOk(p: Plan, dirs: seq<DirectoryCopy>) {
    && PlanOk(p) && dirs != [] && PosOk(p.source, Nexts(dirs)) && FramesOk(p, dirs)
    && DepthFits(p.source, Nexts(dirs), MAX_COPY_DEPTH)
  }

  /** Between files: every entry before the positions is copied, nothing after them is. */
  ghost predicate Walking(p: Plan, root: Tree, dirs: seq<DirectoryCopy>) {
    && StackOk(p, dirs)
    && var ns := Nexts(dirs);
       root == Seen(p, ns, TopOf(p.source, ns).entries[..ns[|ns| - 1]])
  }

  /** The file in progress is the entry before the top position. */
  ghost predicate Filing(p: Plan, dirs: seq<DirectoryCopy>, fc: FileCopy) {
    && StackOk(p, dirs)
    && var ns := Nexts(dirs);
       var top, n := TopOf(p.source, ns), ns[|ns| - 1];
       && n > 0 && top.entries[n - 1].node.File?
       && fc.name == top.entries[n - 1].name
       && fc.source == p.src + Trail(p.source, ns) && fc.target == p.Dst() + Trail(p.source, ns)
       && FileOk(Seen(p, ns, top.entries[..n - 1]), fc, top.entries[n - 1].node.file)
  }

  ghost function FileData(p: Plan, dirs: seq<DirectoryCopy>): Contents
    requires StackOk(p, dirs)
  {
    var ns := Nexts(dirs);
    var top, n := TopOf(p.source, ns), ns[|ns| - 1];
    if n > 0 && top.entries[n - 1].node.File? then top.entries[n - 1].node.file else []
  }

  ghost function FileBase(p: Plan, dirs: seq<DirectoryCopy>): Tree
    requires StackOk(p, dirs)
  {
    var ns := Nexts(dirs);
    var n := ns[|ns| - 1];
    Seen(p, ns, TopOf(p.source, ns).entries[..if n == 0 then 0 else n - 1])
  }

  // ---------------------------------------------------------------------
  // The moves, on the volume
  // ---------------------------------------------------------------------

  /** What the top frame sees of the volume. */
  lemma TopView(p: Plan, root: Tree, dirs: seq<DirectoryCopy>)
    requires Walking(p, root, dirs)
    ensures var ns, top := Nexts(dirs), dirs[|dirs| - 1];
            var node := TopOf(p.source, ns);
            && Lookup(root, top.source) == Some(node) && EntriesOk(node.entries)
            && Lookup(root, top.target) == Some(Dir((), node.entries[..top.next]))
            && top.source == p.src + Trail(p.source, ns) && top.target == p.Dst() + Trail(p.source, ns)
  {
    var ns := Nexts(dirs);
    var trail := Trail(p.source, ns);
    assert trail[..|dirs| - 1] == trail;
    TrailLookup(p.source, ns);
    var leaf := Dir((), TopOf(p.source, ns).entries[..ns[|ns| - 1]]);
    SourceStays(p, Partial(p.source, ns, leaf), trail);
    LeafAdded(p, ns, leaf.entries, Entry([], File([])));
  }

  lemma NamesDistinct(entries: seq<Item>, n: nat)
    requires EntriesOk(entries) && n < |entries|
    ensures !Holds(entries[..n], entries[n].name)
    ensures Lookup(Dir((), entries), [entries[n].name]) == Some(entries[n].node)
  {
    assert forall k :: 0 <= k < n ==> !SameName(entries[..n][k].name, entries[n].name);
    FindUnique(entries, entries[n].name, n);
  }

  function Advanced(dirs: seq<DirectoryCopy>): seq<DirectoryCopy>
    requires dirs != []
  {
    var top := dirs[|dirs| - 1];
    dirs[|dirs| - 1 := top.(next := top.next + 1)]
  }

  lemma AdvancedNexts(dirs: seq<DirectoryCopy>)
    requires dirs != []
    ensures Nexts(Advanced(dirs)) == Bumped(Nexts(dirs))
  {
  }

  lemma AdvancedStack(p: Plan, dirs: seq<DirectoryCopy>)
    requires StackOk(p, dirs)
    requires var ns := Nexts(dirs);
             ns[|ns| - 1] < |TopOf(p.source, ns).entries| && TopOf(p.source, ns).entries[ns[|ns| - 1]].node.File?
    ensures StackOk(p, Advanced(dirs))
    ensures var ns, after := Nexts(dirs), Nexts(Advanced(dirs));
            TopOf(p.source, after) == TopOf(p.source, ns) && Trail(p.source, after) == Trail(p.source, ns) &&
            after[|after| - 1] == ns[|ns| - 1] + 1 &&
            forall leaf :: Partial(p.source, after, leaf) == Partial(p.source, ns, leaf)
  {
    AdvancedNexts(dirs);
    var ns := Nexts(dirs);
    Bump(p.source, ns, Dir((), []), STEPS);
    forall leaf ensures Partial(p.source, Bumped(ns), leaf) == Partial(p.source, ns, leaf) {
      Bump(p.source, ns, leaf, STEPS);
    }
    BumpFits(p.source, ns, MAX_COPY_DEPTH);
  }

  function FreshFile(top: DirectoryCopy, name: Name): FileCopy {
    FileCopy(top.source, top.target, name, None, None, false)
  }

  lemma StartFile(p: Plan, root: Tree, dirs: seq<DirectoryCopy>)
    requires Walking(p, root, dirs)
    requires var ns := Nexts(dirs);
             ns[|ns| - 1] < |TopOf(p.source, ns).entries| && TopOf(p.source, ns).entries[ns[|ns| - 1]].node.File?
    ensures var ns, top := Nexts(dirs), dirs[|dirs| - 1];
            var fc := FreshFile(top, TopOf(p.source, ns).entries[top.next].name);
            && Filing(p, Advanced(dirs), fc) && FileRoot(root, FileBase(p, Advanced(dirs)), fc, FileData(p, Advanced(dirs)))
  {
    hide Put, Added, Trail, DepthFits, Inside, SameName, EntriesOk, PosOk;
    var ns, top := Nexts(dirs), dirs[|dirs| - 1];
    var node := TopOf(p.source, ns);
    var e := node.entries[top.next];
    AdvancedStack(p, dirs);
    TopView(p, root, dirs);
    NamesDistinct(node.entries, top.next);
    var trail := Trail(p.source, ns);
    assert FileBase(p, Advanced(dirs)) == root;
    LookupConcat(root, top.source, [e.name]);
    assert node.info == ();
    assert Lookup(root, top.source + [e.name]) == Some(e.node);
    assert top.source + [e.name] == p.src + (trail + [e.name]) && top.target + [e.name] == p.Dst() + (trail + [e.name]);
    ApartExtends(p.src, p.Dst(), trail + [e.name]);
    ApartExtends(p.src + (trail + [e.name]), p.Dst(), trail + [e.name]);
    ApartExtends(p.src + (trail + [e.name]), p.Dst(), trail);
  }

  lemma EnterDirectory(p: Plan, root: Tree, dirs: seq<DirectoryCopy>)
    requires Walking(p, root, dirs) && |dirs| < MAX_COPY_DEPTH
    requires var ns := Nexts(dirs);
             ns[|ns| - 1] < |TopOf(p.source, ns).entries| && TopOf(p.source, ns).entries[ns[|ns| - 1]].node.Dir?
    ensures var ns, top := Nexts(dirs), dirs[|dirs| - 1];
            var name := TopOf(p.source, ns).entries[top.next].name;
            && IsDir(root, top.target)
            && Walking(p, Added(root, top.target, Entry(name, Dir((), []))),
                       Advanced(dirs) + [DirectoryCopy(top.source + [name], top.target + [name], 0)])
  {
    hide Put, Added, Trail, DepthFits, Inside, SameName, EntriesOk;
    var ns, top := Nexts(dirs), dirs[|dirs| - 1];
    var node := TopOf(p.source, ns);
    var name := node.entries[top.next].name;
    var after := Advanced(dirs) + [DirectoryCopy(top.source + [name], top.target + [name], 0)];
    AdvancedNexts(dirs);
    assert Nexts(after) == Bumped(ns) + [0];
    TopView(p, root, dirs);
    LeafAdded(p, ns, node.entries[..top.next], Entry(name, Dir((), [])));
    Push(p.source, ns, Dir((), []));
    PushFits(p.source, ns, MAX_COPY_DEPTH);
    var child := node.entries[top.next].node;
    assert child.entries[..0] == [];
    EnteredFrames(p, dirs, Trail(p.source, ns), name);
  }

  lemma EnteredFrames(p: Plan, dirs: seq<DirectoryCopy>, trail: Path, name: Name)
    requires dirs != [] && |trail| == |dirs| - 1
    requires forall i :: 0 <= i < |dirs| ==> dirs[i].source == p.src + trail[..i] && dirs[i].target == p.Dst() + trail[..i]
    ensures var top := dirs[|dirs| - 1];
            var after := Advanced(dirs) + [DirectoryCopy(top.source + [name], top.target + [name], 0)];
            forall i :: 0 <= i < |after| ==>
              after[i].source == p.src + (trail + [name])[..i] && after[i].target == p.Dst() + (trail + [name])[..i]
  {
    forall i | 0 <= i < |dirs| ensures (trail + [name])[..i] == trail[..i] { }
    assert (trail + [name])[..|dirs|] == trail + [name];
    assert trail[..|dirs| - 1] == trail;
    assert p.src + (trail + [name]) == p.src + trail + [name] && p.Dst() + (trail + [name]) == p.Dst() + trail + [name];
  }

  lemma LeaveDirectory(p: Plan, root: Tree, dirs: seq<DirectoryCopy>)
    requires Walking(p, root, dirs) && |dirs| > 1
    requires dirs[|dirs| - 1].next == |TopOf(p.source, Nexts(dirs)).entries|
    ensures Walking(p, root, dirs[..|dirs| - 1])
  {
    var ns := Nexts(dirs);
    var after := dirs[..|dirs| - 1];
    assert Nexts(after) == Popped(ns);
    Pop(p.source, ns, STEPS);
    PopFits(p.source, ns, MAX_COPY_DEPTH);
    var node := TopOf(p.source, ns);
    assert node.entries[..ns[|ns| - 1]] == node.entries && node.info == ();
    forall i | 0 <= i < |after|
      ensures after[i].source == p.src + Trail(p.source, Popped(ns))[..i] && after[i].target == p.Dst() + Trail(p.source, Popped(ns))[..i]
    {
      assert Trail(p.source, ns)[..|ns| - 2][..i] == Trail(p.source, ns)[..i];
    }
  }

  lemma CopyComplete(p: Plan, root: Tree, dirs: seq<DirectoryCopy>)
    requires Walking(p, root, dirs) && |dirs| == 1
    requires dirs[0].next == |TopOf(p.source, Nexts(dirs)).entries|
    ensures root == Whole(p, p.source) && Depth(p.source) <= MAX_COPY_DEPTH
  {
    Finished(p.source, Nexts(dirs), STEPS);
    assert p.source.entries[..dirs[0].next] == p.source.entries;
  }

  lemma FileCopied(p: Plan, root: Tree, dirs: seq<DirectoryCopy>, fc: FileCopy)
    requires Filing(p, dirs, fc) && root == Grown(FileBase(p, dirs), fc, FileData(p, dirs))
    ensures Walking(p, root, dirs)
  {
    var ns := Nexts(dirs);
    var node, n := TopOf(p.source, ns), ns[|ns| - 1];
    LeafAdded(p, ns, node.entries[..n - 1], node.entries[n - 1]);
    assert node.entries[..n - 1] + [node.entries[n - 1]] == node.entries[..n];
  }

  /** A directory met on a full stack shows that the source is nested too deeply. */
  lemma TooDeep(p: Plan, dirs: seq<DirectoryCopy>)
    requires StackOk(p, dirs) && |dirs| >= MAX_COPY_DEPTH
    requires var ns := Nexts(dirs);
             ns[|ns| - 1] < |TopOf(p.source, ns).entries| && TopOf(p.source, ns).entries[ns[|ns| - 1]].node.Dir?
    ensures Depth(p.source) > MAX_COPY_DEPTH
  {
    DepthAtLeast(p.source, Nexts(dirs));
    MaxDepthAt(TopOf(p.source, Nexts(dirs)).entries, dirs[|dirs| - 1].next);
  }

  // ---------------------------------------------------------------------
  // What is still to be done
  // ---------------------------------------------------------------------

  ghost function Pending(p: Plan, dirs: seq<DirectoryCopy>, file: Option<FileCopy>, w: Weight): nat
    requires StackOk(p, dirs) && (file.Some? ==> DoneOf(file.value) <= |FileData(p, dirs)|)
  {
    Left(p.source, Nexts(dirs), w) +
    (if file.None? then 0 else w.finish + ByteWeight(|FileData(p, dirs)| - DoneOf(file.value), w))
  }

  lemma StartFilePending(p: Plan, root: Tree, dirs: seq<DirectoryCopy>, fc: FileCopy, w: Weight)
    requires Walking(p, root, dirs) && StackOk(p, Advanced(dirs)) && !fc.started
    requires var ns := Nexts(dirs);
             ns[|ns| - 1] < |TopOf(p.source, ns).entries| && TopOf(p.source, ns).entries[ns[|ns| - 1]].node.File?
    ensures Pending(p, Advanced(dirs), Some(fc), w) + w.start == Pending(p, dirs, None, w)
  {
    AdvancedNexts(dirs);
    Bump(p.source, Nexts(dirs), Dir((), []), w);
  }

  lemma EnterPending(p: Plan, root: Tree, dirs: seq<DirectoryCopy>, frame: DirectoryCopy, w: Weight)
    requires Walking(p, root, dirs) && frame.next == 0 && StackOk(p, Advanced(dirs) + [frame])
    requires var ns := Nexts(dirs);
             ns[|ns| - 1] < |TopOf(p.source, ns).entries| && TopOf(p.source, ns).entries[ns[|ns| - 1]].node.Dir?
    ensures Pending(p, Advanced(dirs) + [frame], None, w) + w.enter == Pending(p, dirs, None, w)
  {
    AdvancedNexts(dirs);
    assert Nexts(Advanced(dirs) + [frame]) == Bumped(Nexts(dirs)) + [0];
    PushLeft(p.source, Nexts(dirs), w);
  }

  lemma LeavePending(p: Plan, root: Tree, dirs: seq<DirectoryCopy>, w: Weight)
    requires Walking(p, root, dirs) && |dirs| > 1 && StackOk(p, dirs[..|dirs| - 1])
    requires dirs[|dirs| - 1].next == |TopOf(p.source, Nexts(dirs)).entries|
    ensures Pending(p, dirs[..|dirs| - 1], None, w) + w.leave == Pending(p, dirs, None, w)
  {
    assert Nexts(dirs[..|dirs| - 1]) == Popped(Nexts(dirs));
    Pop(p.source, Nexts(dirs), w);
  }

  /** Bytes copied and files finished so far, with what is pending, make up the whole source. */
  ghost predicate Counted(p: Plan, dirs: seq<DirectoryCopy>, file: Option<FileCopy>, copied: nat, files: nat)
    requires StackOk(p, dirs) && (file.Some? ==> DoneOf(file.value) <= |FileData(p, dirs)|)
  {
    && copied + Pending(p, dirs, file, BYTES) == Weigh(p.source, BYTES)
    && files + Pending(p, dirs, file, FILES) == Weigh(p.source, FILES)
  }

  /** Nothing but a new entry at the destination distinguishes the volume from the one the copy started on. */
  ghost predicate OnlyAdded(p: Plan, root: Tree)
    requires PlanOk(p)
  {
    root == p.start || exists node :: root == Whole(p, node)
  }

  lemma PartOnlyAdds(p: Plan, root: Tree, dirs: seq<DirectoryCopy>, fc: FileCopy, data: Contents)
    requires Filing(p, dirs, fc) && PartOfFile(root, FileBase(p, dirs), fc, data)
    ensures OnlyAdded(p, root)
  {
    var ns := Nexts(dirs);
    var node, n := TopOf(p.source, ns), ns[|ns| - 1];
    if root != FileBase(p, dirs) {
      var k :| 0 <= k <= |data| && root == Grown(FileBase(p, dirs), fc, data[..k]);
      LeafAdded(p, ns, node.entries[..n - 1], Entry(fc.name, File(data[..k])));
    }
  }

  lemma PartOfSingleFile(p: Plan, root: Tree, fc: FileCopy)
    requires PlanOk(p) && p.source.File? && fc.target == p.cwd && fc.name == p.name
    requires PartOfFile(root, p.start, fc, p.source.file)
    ensures OnlyAdded(p, root)
  {
    if root != p.start {
      var k :| 0 <= k <= |p.source.file| && root == Grown(p.start, fc, p.source.file[..k]);
      assert root == Whole(p, File(p.source.file[..k]));
    }
  }

  /**
   The frame of a copy, whether it is running, complete or failed: a path that
   is neither at or below the destination nor above it leads where it did.
   In particular the source does not change.
   */
  lemma CopyFrame(p: Plan, root: Tree, q: Path)
    requires PlanOk(p) && OnlyAdded(p, root)
    ensures !Inside(q, p.Dst()) && !Inside(p.cwd, q) ==> Lookup(root, q) == Lookup(p.start, q)
    ensures Inside(q, p.src) ==> Lookup(root, q) == Lookup(p.start, q)
    ensures IsDir(root, p.cwd) && Lookup(p.start, p.cwd).value.entries <= Lookup(root, p.cwd).value.entries
    ensures |Lookup(root, p.cwd).value.entries| <= |Lookup(p.start, p.cwd).value.entries| + 1
  {
    if root != p.start {
      var node :| root == Whole(p, node);
      var d := Lookup(p.start, p.cwd).value;
      LookupPut(p.start, p.cwd, d.(entries := d.entries + [Entry(p.name, node)]));
      LookupAdded(p.start, p.cwd, Entry(p.name, node), q);
      if Inside(q, p.src) {
        var more := q[|p.src|..];
        assert q == q[..|p.src|] + more && SamePath(q[..|p.src|], p.src);
        SamePathConcat(q[..|p.src|], p.src, more);
        LookupSamePath(root, q, p.src + more);
        LookupSamePath(p.start, q, p.src + more);
        NotAbove(p, more);
        LookupAdded(p.start, p.cwd, Entry(p.name, node), p.src + more);
      }
    }
  }

  lemma SamePathConcat(a: Path, b: Path, more: Path)
    requires SamePath(a, b)
    ensures SamePath(a + more, b + more)
  {
    forall i | 0 <= i < |b + more| ensures SameName((a + more)[i], (b + more)[i]) {
      if i < |b| { assert SameName(a[i], b[i]); }
    }
  }

  class CopyJob {
    var directories: seq<DirectoryCopy>
    var file: Option<FileCopy>
    var copied: nat
    var files: nat

    /** Open both directories, find the source and find or create the target. */
    method OpenFile(volume: Volume, fc: FileCopy, ghost base: Tree, ghost data: Contents) returns (ok: bool)
      requires FileOk(base, fc, data) && FileRoot(volume.root, base, fc, data)
      modifies volume
      ensures ok ==> volume.root == Grown(base, fc, data[..DoneOf(fc)]) && volume.faults == old(volume.faults)
      ensures !ok ==> volume.root == old(volume.root) && volume.faults > old(volume.faults)
    {
      FileSurroundings(base, fc, data, data[..DoneOf(fc)]);
      var source := volume.Find(fc.source, fc.name);
      if !source.Present? || source.node.Dir? { return false; }
      if fc.started {
        var target := volume.Find(fc.target, fc.name);
        return target.Present?;
      }
      var target := volume.Find(fc.target, fc.name);
      if !target.Absent? { return false; }
      ok := volume.Create(fc.target, fc.name, File([]));
      assert data[..0] == [];
    }

    /** One step of a file: a chunk is read and committed, or the end of the file is noticed. */
    method StepFile(volume: Volume, ghost base: Tree, ghost data: Contents) returns (r: Step)
      requires file.Some? && FileOk(base, file.value, data) && FileRoot(volume.root, base, file.value, data)
      modifies this`file, this`copied, this`files, volume
      ensures r == Running ==>
                if file.None? then
                  volume.root == Grown(base, old(file.value), data) && files == old(files) + 1 &&
                  copied == old(copied) && DoneOf(old(file.value)) == |data|
                else
                  && FileOk(base, file.value, data) && FileRoot(volume.root, base, file.value, data)
                  && file.value.source == old(file.value.source) && file.value.target == old(file.value.target)
                  && file.value.name == old(file.value.name) && files == old(files)
                  && DoneOf(file.value) > DoneOf(old(file.value))
                  && copied == old(copied) + DoneOf(file.value) - DoneOf(old(file.value))
      ensures r == Running || r == Failed
      ensures r == Failed ==> volume.faults > old(volume.faults) && PartOfFile(volume.root, base, old(file.value), data)
      ensures volume.faults >= old(volume.faults)
      ensures r == Running ==> volume.faults == old(volume.faults)
    {
      hide Added, Lookup, Put, Inside, Holds, IsDir;
      var fc := file.value;
      ghost var done := DoneOf(fc);
      var ready := OpenFile(volume, fc, base, data);
      if !ready { return Failed; }
      FileSurroundings(base, fc, data, data[..done]);
      var ok, chunk, readCursor := volume.Read(fc.source + [fc.name], fc.readCursor, COPY_CHUNK);
      if !ok {
        assert PartOfFile(volume.root, base, fc, data);
        return Failed;
      }
      var writeCursor;
      ok, writeCursor := volume.Append(fc.target + [fc.name], if fc.started then fc.writeCursor else None, chunk);
      if !ok {
        forall k | 0 <= k <= |chunk| ensures data[..done] + chunk[..k] == data[..done + k] { }
        return Failed;
      }
      assert data[..done] + chunk == data[..done + |chunk|];
      file := Some(fc.(started := true, readCursor := Some(readCursor), writeCursor := Some(writeCursor)));
      copied := copied + |chunk|;
      if |chunk| == 0 {
        assert data[..done] == data;
        files := files + 1;
        file := None;
      }
      return Running;
    }
    // -------------------------------------------------------------------
    // The whole job
    // -------------------------------------------------------------------

    /** What is being copied, and onto what. */
    ghost var plan: Plan

    ghost predicate InTree(root: Tree)
      reads this
    {
      && StackOk(plan, directories)
      && (match file
          case None => Walking(plan, root, directories)
          case Some(fc) =>
            Filing(plan, directories, fc) && FileRoot(root, FileBase(plan, directories), fc, FileData(plan, directories)))
      && Counted(plan, directories, file, copied, files)
    }

    ghost predicate InSingleFile(root: Tree)
      reads this
    {
      && plan.source.File? && file.Some? && FileOk(plan.start, file.value, plan.source.file)
      && FileRoot(root, plan.start, file.value, plan.source.file)
      && file.value.target == plan.cwd && file.value.name == plan.name
      && copied == DoneOf(file.value) && files == 0
    }

    /** The copy is the source, and the counters are its true totals. */
    ghost predicate Copied(root: Tree)
      reads this
    {
      && PlanOk(plan) && root == Whole(plan, plan.source)
      && copied == Weigh(plan.source, BYTES) && files == Weigh(plan.source, FILES)
      && Depth(plan.source) <= MAX_COPY_DEPTH
    }

    ghost predicate Valid(root: Tree)
      reads this
    {
      && PlanOk(plan)
      && if directories != [] then InTree(root)
         else if file.Some? then InSingleFile(root)
         else Copied(root)
    }

    /** Steps left at most. */
    ghost function Remaining(root: Tree): nat
      requires Valid(root)
      reads this
    {
      if directories != [] then Pending(plan, directories, file, STEPS)
      else if file.Some? then 1 + |plan.source.file| - DoneOf(file.value)
      else 0
    }

    /** `step`: true means complete; an error leaves only the destination partial. */
    method Step(volume: Volume) returns (r: Step)
      requires Valid(volume.root)
      modifies this`directories, this`file, this`copied, this`files, volume
      ensures volume.faults >= old(volume.faults)
      ensures r == Running ==> Valid(volume.root) && Remaining(volume.root) < old(Remaining(volume.root))
      ensures r == Complete ==> Copied(volume.root)
      ensures r == Failed ==> OnlyAdded(plan, volume.root)
      ensures r == Failed && volume.faults == old(volume.faults) ==> Depth(plan.source) > MAX_COPY_DEPTH
    {
      if file.Some? {
        if directories != [] {
          r := StepFileInTree(volume);
        } else {
          ghost var fc := file.value;
          r := StepFile(volume, plan.start, plan.source.file);
          assert plan.source == File(plan.source.file);
          if r == Failed { PartOfSingleFile(plan, volume.root, fc); }
        }
      } else if directories == [] {
        r := Complete;
      } else {
        r := StepDirectory(volume);
      }
    }

    method StepFileInTree(volume: Volume) returns (r: Step)
      requires directories != [] && file.Some? && InTree(volume.root)
      modifies this`file, this`copied, this`files, volume
      ensures volume.faults >= old(volume.faults)
      ensures r == Running ==>
                InTree(volume.root) && Pending(plan, directories, file, STEPS) < old(Pending(plan, directories, file, STEPS))
      ensures r == Running || (r == Failed && OnlyAdded(plan, volume.root) && volume.faults > old(volume.faults))
    {
      hide Lookup, Added, Partial, Inside, Left, Weigh, StackOk;
      ghost var fc, base, data := file.value, FileBase(plan, directories), FileData(plan, directories);
      r := StepFile(volume, base, data);
      if r == Failed {
        PartOnlyAdds(plan, volume.root, directories, fc, data);
      } else if file.None? {
        FileCopied(plan, volume.root, directories, fc);
      }
    }

    lemma LastDirectoryLeft(root: Tree)
      requires |directories| == 1 && file.None? && InTree(root)
      requires directories[0].next == |TopOf(plan.source, Nexts(directories)).entries|
      ensures Copied(root)
    {
      CopyComplete(plan, root, directories);
      Finished(plan.source, Nexts(directories), BYTES);
      Finished(plan.source, Nexts(directories), FILES);
    }

    lemma DirectoryLeft(root: Tree)
      requires |directories| > 1 && file.None? && InTree(root)
      requires directories[|directories| - 1].next == |TopOf(plan.source, Nexts(directories)).entries|
      ensures var after := directories[..|directories| - 1];
              && Walking(plan, root, after) && Counted(plan, after, None, copied, files)
              && Pending(plan, after, None, STEPS) < Pending(plan, directories, None, STEPS)
    {
      hide Lookup, Added, Partial, Inside, Left, Weigh;
      LeaveDirectory(plan, root, directories);
      LeavePending(plan, root, directories, STEPS);
      LeavePending(plan, root, directories, BYTES);
      LeavePending(plan, root, directories, FILES);
    }

    lemma DirectoryEntered(p: Plan, root: Tree, dirs: seq<DirectoryCopy>, frame: DirectoryCopy, name: Name)
      requires Walking(p, root, dirs) && |dirs| < MAX_COPY_DEPTH
      requires var ns := Nexts(dirs);
               ns[|ns| - 1] < |TopOf(p.source, ns).entries| && TopOf(p.source, ns).entries[ns[|ns| - 1]].node.Dir? &&
               name == TopOf(p.source, ns).entries[ns[|ns| - 1]].name
      requires frame == DirectoryCopy(dirs[|dirs| - 1].source + [name], dirs[|dirs| - 1].target + [name], 0)
      ensures IsDir(root, dirs[|dirs| - 1].target)
      ensures var after := Advanced(dirs) + [frame];
              && Walking(p, Added(root, dirs[|dirs| - 1].target, Entry(name, Dir((), []))), after)
              && Pending(p, after, None, STEPS) + 1 == Pending(p, dirs, None, STEPS)
              && Pending(p, after, None, BYTES) == Pending(p, dirs, None, BYTES)
              && Pending(p, after, None, FILES) == Pending(p, dirs, None, FILES)
    {
      hide Lookup, Added, Partial, Inside, Left, Weigh;
      EnterDirectory(p, root, dirs);
      EnterPending(p, root, dirs, frame, STEPS);
      EnterPending(p, root, dirs, frame, BYTES);
      EnterPending(p, root, dirs, frame, FILES);
    }

    /** Create the copy of the directory just met and stack it; `dirs` is the stack before the step. */
    method CreateAndEnter(volume: Volume, frame: DirectoryCopy, name: Name, ghost dirs: seq<DirectoryCopy>) returns (r: Step)
      requires file.None? && Walking(plan, volume.root, dirs) && Counted(plan, dirs, None, copied, files)
      requires directories == Advanced(dirs) && |dirs| < MAX_COPY_DEPTH && frame == dirs[|dirs| - 1]
      requires var ns := Nexts(dirs);
               ns[|ns| - 1] < |TopOf(plan.source, ns).entries| && TopOf(plan.source, ns).entries[ns[|ns| - 1]].node.Dir? &&
               name == TopOf(plan.source, ns).entries[ns[|ns| - 1]].name
      modifies this`directories, volume
      ensures volume.faults >= old(volume.faults)
      ensures r == Running ==>
                && InTree(volume.root) && volume.faults == old(volume.faults)
                && Pending(plan, directories, file, STEPS) < Pending(plan, dirs, None, STEPS)
      ensures r == Running || (r == Failed && volume.root == old(volume.root) && volume.faults > old(volume.faults))
    {
      hide Lookup, Added, Partial, Inside, Left, Weigh, EntriesOk, DepthFits, FramesOk;
      ghost var root := volume.root;
      TopView(plan, root, dirs);
      NamesDistinct(TopOf(plan.source, Nexts(dirs)).entries, frame.next);
      var target := volume.Find(frame.target, name);
      if !target.Absent? { return Failed; }
      var ok := volume.Create(frame.target, name, Dir((), []));
      if !ok { return Failed; }
      var entered := DirectoryCopy(frame.source + [name], frame.target + [name], 0);
      DirectoryEntered(plan, root, dirs, entered, name);
      directories := directories + [entered];
      r := Running;
    }

    method StepDirectory(volume: Volume) returns (r: Step)
      requires directories != [] && file.None? && InTree(volume.root)
      modifies this`directories, this`file, volume
      ensures volume.faults >= old(volume.faults)
      ensures r == Running && directories != [] ==>
                InTree(volume.root) && Pending(plan, directories, file, STEPS) < old(Pending(plan, directories, file, STEPS))
      ensures r == Running && directories == [] ==> file.None? && Copied(volume.root)
      ensures r == Running || (r == Failed && OnlyAdded(plan, volume.root))
      ensures r == Failed && volume.faults == old(volume.faults) ==> Depth(plan.source) > MAX_COPY_DEPTH
    {
      hide Lookup, Added, Partial, Inside, Left, Weigh, EntriesOk, DepthFits, FramesOk;
      ghost var p, dirs, root := plan, directories, volume.root;
      var depth := |directories|;
      var frame := directories[depth - 1];
      TopView(plan, volume.root, directories);
      var ok, item := volume.ItemAt(frame.source, frame.next);
      if !ok { return Failed; }
      if item.None? {
        if depth == 1 { LastDirectoryLeft(volume.root); } else { DirectoryLeft(volume.root); }
        directories := directories[..depth - 1];
        return Running;
      }
      directories := Advanced(directories);
      if item.value.node.Dir? {
        if depth >= MAX_COPY_DEPTH {
          TooDeep(plan, dirs);
          return Failed;
        }
        r := CreateAndEnter(volume, frame, item.value.name, dirs);
        return;
      } else {
        file := Some(FreshFile(frame, item.value.name));
        StartFile(p, root, dirs);
        StartFilePending(p, root, dirs, file.value, STEPS);
        StartFilePending(p, root, dirs, file.value, BYTES);
        StartFilePending(p, root, dirs, file.value, FILES);
      }
      return Running;
    }

    constructor (directories: seq<DirectoryCopy>, file: Option<FileCopy>, ghost plan: Plan)
      ensures this.directories == directories && this.file == file && copied == 0 && files == 0 && this.plan == plan
    {
      this.directories, this.file, copied, files, this.plan := directories, file, 0, 0, plan;
    }

    /** Polling the job until it ends: it does, and on a card that works it succeeds exactly on trees not nested too deeply. */
    method RunToEnd(volume: Volume) returns (ok: bool)
      requires Valid(volume.root)
      modifies this`directories, this`file, this`copied, this`files, volume
      ensures ok ==> Copied(volume.root)
      ensures OnlyAdded(plan, volume.root)
      ensures volume.faults == old(volume.faults) ==> (ok <==> Depth(plan.source) <= MAX_COPY_DEPTH)
    {
      var r := Running;
      while r == Running
        invariant r == Running ==> Valid(volume.root)
        invariant r == Complete ==> Copied(volume.root)
        invariant r == Failed ==> OnlyAdded(plan, volume.root)
        invariant r == Failed && volume.faults == old(volume.faults) ==> Depth(plan.source) > MAX_COPY_DEPTH
        invariant volume.faults >= old(volume.faults)
        decreases r == Running, if r == Running then Remaining(volume.root) else 0
      {
        r := Step(volume);
      }
      ok := r == Complete;
    }
  }

  // ---------------------------------------------------------------------
  // Starting a copy
  // ---------------------------------------------------------------------

  lemma {:induction false} NamesOkBelow(root: Tree, path: Path)
    requires NamesOk(root) && Lookup(root, path).Some?
    ensures NamesOk(Lookup(root, path).value)
    decreases path
  {
    if path != [] {
      NamesOkBelow(root.entries[FindIn(root.entries, path[0])].node, path[1..]);
    }
  }

  /** The checks `paste` makes before a copy keep the source and the destination apart. */
  lemma PasteChecksApart(root: Tree, src: Path, cwd: Path, name: Name)
    requires Lookup(root, src).Some? && IsDir(root, cwd) && !Holds(Lookup(root, cwd).value.entries, name)
    requires Lookup(root, src).value.Dir? ==> !Inside(cwd, src)
    ensures Apart(src, cwd + [name])
  {
    LookupConcat(root, cwd, [name]);
    NothingBelow(root, src, cwd + [name]);
    if Inside(cwd, src) {
      FileNotAbove(root, src, cwd);
    }
    if Inside(cwd + [name], src) && |cwd| < |src| {
      LookupSamePath(root, cwd + [name], src);
    }
    assert Inside(cwd + [name], src) && |cwd| >= |src| ==> Inside(cwd, src) by {
      if Inside(cwd + [name], src) && |cwd| >= |src| {
        forall i | 0 <= i < |src| ensures SameName(cwd[i], src[i]) { assert SameName((cwd + [name])[i], src[i]); }
      }
    }
  }

  /** A directory does not lie at or below a file. */
  lemma FileNotAbove(root: Tree, src: Path, cwd: Path)
    requires Lookup(root, src).Some? && IsDir(root, cwd) && Inside(cwd, src)
    ensures Lookup(root, src).value.Dir?
  {
    var front, rest := cwd[..|src|], cwd[|src|..];
    assert front + rest == cwd;
    assert SamePath(front, src);
    LookupPrefix(root, front, rest);
    LookupSamePath(root, front, src);
    if rest == [] { assert front == cwd; }
  }

  class FileManager {
    var cwd: Path
    var clipboard: Option<Clipboard>
    var copy: CopyJob?

    constructor (cwd: Path, clipboard: Option<Clipboard>)
      ensures this.cwd == cwd && this.clipboard == clipboard && copy == null
    {
      this.cwd, this.clipboard, copy := cwd, clipboard, null;
    }

    /** The checks of `paste` that do not depend on what it does. */
    ghost predicate Pasteable(root: Tree)
      reads this
    {
      && clipboard.Some?
      && var clip := clipboard.value;
      && var src := clip.parent + [clip.name];
      && !(clip.directory && Inside(cwd, src)) && cwd != clip.parent
      && Lookup(root, src).Some? && Lookup(root, src).value.Dir? == clip.directory
      && IsDir(root, cwd) && Lookup(root, cwd + [clip.name]).None?
    }

    /** `paste`: refuse, move the entry, or start a job that has everything still to copy. */
    method Paste(volume: Volume) returns (r: Pasted)
      requires NamesOk(volume.root)
      modifies this`copy, this`clipboard, volume
      ensures r.Refused? ==> copy == old(copy) && clipboard == old(clipboard) && volume.root == old(volume.root)
      ensures !r.Refused? ==> old(Pasteable(volume.root)) && (r.Moved? <==> old(clipboard).value.moving)
      ensures r.Copying? ==>
                && copy != null && fresh(copy) && copy.Valid(volume.root) && clipboard == old(clipboard)
                && copy.plan.start == old(volume.root)
                && copy.plan.src == clipboard.value.parent + [clipboard.value.name]
                && copy.plan.cwd == cwd && copy.plan.name == clipboard.value.name
                && (copy.plan.source.Dir? <==> clipboard.value.directory)
      ensures r.Moved? ==>
                var clip := old(clipboard).value;
                && copy == old(copy) && clipboard.None?
                && MovePossible(old(volume.root), clip.parent, clip.name, cwd)
                && volume.root == AfterMove(old(volume.root), clip.parent, clip.name, cwd)
      ensures r.Refused? && volume.faults == old(volume.faults) ==> !old(Pasteable(volume.root))
    {
      hide Lookup, FindIn, Inside, Added, AfterMove, MovePossible;
      if clipboard.None? { return Refused(ClipboardEmpty); }
      var clip := clipboard.value;
      var sourcePath := clip.parent + [clip.name];
      if clip.directory && Inside(cwd, sourcePath) { return Refused(IntoSelf); }
      if cwd == clip.parent { return Refused(SameDirectory); }
      NotADirectory(volume.root, clip.parent, clip.name);
      var source := volume.Find(clip.parent, clip.name);
      if !source.Present? {
        return Refused(SourceNotFound);
      }
      if source.node.Dir? != clip.directory { return Refused(SourceChanged); }
      var ok := volume.OpenDir(cwd);
      if !ok { return Refused(DestinationError); }
      var target := volume.Find(cwd, clip.name);
      NotADirectory(volume.root, cwd, clip.name);
      if !target.Absent? { return Refused(NameExists); }
      if clip.moving {
        if Inside(cwd, sourcePath) { FileNotAbove(volume.root, sourcePath, cwd); }
        ok := volume.Rename(clip.parent, clip.name, cwd);
        if !ok { return Refused(MoveFailed); }
        clipboard := None;
        return Moved;
      }
      r := StartCopy(volume, clip, source.node, sourcePath);
    }

    method StartCopy(volume: Volume, clip: Clipboard, ghost source: Tree, sourcePath: Path) returns (r: Pasted)
      requires NamesOk(volume.root) && clipboard == Some(clip) && !clip.moving && Pasteable(volume.root)
      requires sourcePath == clip.parent + [clip.name] && Lookup(volume.root, sourcePath) == Some(source)
      modifies this`copy, volume
      ensures r.Refused? ==> copy == old(copy) && volume.root == old(volume.root) && volume.faults > old(volume.faults)
      ensures !r.Refused? ==> r.Copying?
      ensures r.Copying? ==>
                && copy != null && fresh(copy) && copy.Valid(volume.root)
                && copy.plan.start == old(volume.root) && copy.plan.src == sourcePath
                && copy.plan.cwd == cwd && copy.plan.name == clip.name && copy.plan.source == source
    {
      ghost var plan := Plan(volume.root, source, sourcePath, cwd, clip.name);
      NamesOkBelow(volume.root, sourcePath);
      LookupConcat(volume.root, cwd, [clip.name]);
      PasteChecksApart(volume.root, sourcePath, cwd, clip.name);
      if clip.directory {
        var ok := volume.Create(cwd, clip.name, Dir((), []));
        if !ok { return Refused(CopyFailed); }
        copy := new CopyJob([DirectoryCopy(sourcePath, cwd + [clip.name], 0)], None, plan);
        TreeJobStarts(plan);
      } else {
        copy := new CopyJob([], Some(FileCopy(clip.parent, cwd, clip.name, None, None, false)), plan);
        SingleFileStarts(plan, clip.parent);
      }
      r := Copying;
    }
  }

  lemma {:induction false} NamesOkPut(root: Tree, path: Path, node: Tree)
    requires NamesOk(root) && Lookup(root, path).Some? && NamesOk(node)
    ensures NamesOk(Put(root, path, node))
    decreases path
  {
    if path != [] {
      NamesOkPut(root.entries[FindIn(root.entries, path[0])].node, path[1..], node);
    }
  }

  lemma NotDots(name: Name, found: Name)
    requires SameName(found, name) && found != DOT && found != DOT_DOT
    ensures name != DOT && name != DOT_DOT
  {
    assert |found| == |Fold(found)| && |name| == |Fold(name)|;
    assert forall i :: 0 <= i < |name| ==> Fold(found)[i] == Lower(found[i]) && Fold(name)[i] == Lower(name[i]);
    assert name == DOT || name == DOT_DOT ==> forall i :: 0 <= i < |name| ==> found[i] == name[i];
  }

  /** The name a lookup succeeds with is one an entry can have. */
  lemma FoundName(root: Tree, parent: Path, name: Name)
    requires NamesOk(root) && Lookup(root, parent + [name]).Some?
    ensures name != DOT && name != DOT_DOT
  {
    LookupPrefix(root, parent, [name]);
    LookupConcat(root, parent, [name]);
    NamesOkBelow(root, parent);
    var entries := Lookup(root, parent).value.entries;
    NotDots(name, entries[FindIn(entries, name)].name);
  }

  /** After a move nothing is left at the old place. */
  lemma MoveRemoves(root: Tree, parent: Path, name: Name, dir: Path)
    requires NamesOk(root) && Lookup(root, parent + [name]).Some? && IsDir(root, dir) && Lookup(root, dir + [name]).None?
    requires !Inside(dir, parent + [name])
    ensures MovePossible(root, parent, name, dir) && Lookup(AfterMove(root, parent, name, dir), parent + [name]).None?
  {
    MoveFinds(root, parent, name, dir);
    FoundName(root, parent, name);
    var node := Lookup(root, parent + [name]).value;
    NamesOkBelow(root, parent + [name]);
    NamesOkBelow(root, dir);
    var d := Lookup(root, dir).value;
    NamesOkPut(root, dir, d.(entries := d.entries + [Entry(name, node)]));
    var added := WithCopy(root, parent, name, dir);
    NamesOkBelow(added, parent);
    OnceRemoved(Lookup(added, parent).value.entries, name);
    var left := Lookup(added, parent).value.(entries := Without(Lookup(added, parent).value.entries, FindIn(Lookup(added, parent).value.entries, name)));
    hide NamesOk, Inside;
    LookupPut(added, parent, left);
    LookupConcat(AfterMove(root, parent, name, dir), parent, [name]);
  }

  lemma OnceRemoved(entries: seq<Item>, name: Name)
    requires EntriesOk(entries) && Holds(entries, name)
    ensures !Holds(Without(entries, FindIn(entries, name)), name)
  {
    var i := FindIn(entries, name);
    var left := Without(entries, i);
    if Holds(left, name) {
      var j := FindIn(left, name);
      assert SameName(entries[i].name, entries[if j < i then j else j + 1].name);
    }
  }

  lemma NotADirectory(root: Tree, dir: Path, name: Name)
    ensures Lookup(root, dir + [name]).Some? ==> IsDir(root, dir)
  {
    if Lookup(root, dir + [name]).Some? { LookupPrefix(root, dir, [name]); }
  }

  lemma TreeJobStarts(p: Plan)
    requires PlanOk(p) && p.source.Dir?
    ensures var dirs := [DirectoryCopy(p.src, p.Dst(), 0)];
            Walking(p, Whole(p, Dir((), [])), dirs) && Counted(p, dirs, None, 0, 0)
  {
    var dirs := [DirectoryCopy(p.src, p.Dst(), 0)];
    assert Nexts(dirs) == [0];
    Started(p.source, BYTES);
    Started(p.source, FILES);
    assert p.source.entries[..0] == [];
  }

  lemma SingleFileStarts(p: Plan, parent: Path)
    requires PlanOk(p) && p.source.File? && p.src == parent + [p.name]
    ensures FileOk(p.start, FileCopy(parent, p.cwd, p.name, None, None, false), p.source.file)
  {
    NotAbove(p, []);
    assert p.src + [] == p.src;
  }
}
