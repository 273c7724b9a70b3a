/** What a request leaves alone: every file it does not name, and every handle it does not open or close. */
module SftpFrames {
  import opened Bytes
  import opened FatTree
  import opened FatFile
  import opened FsPath
  import opened Wire
  import opened SftpVolume
  import opened SftpModel
  import opened SftpStream
  import opened SftpCursors

  // ---------------------------------------------------------------------
  // Which file a request rewrites, and which it takes away
  // ---------------------------------------------------------------------

  /** OPEN cuts an existing file to nothing. */
  predicate Truncates(env: Env, root: Vol, p: Path, flags: nat, attrs: RequestedAttrs) {
    && AttrsRefusal(env, attrs).None? && p != [] && FileAt(root, p).Some? && !(Bit(flags, 8) && Bit(flags, 32))
    && Bit(flags, 2) && !FileAt(root, p).value.meta.readOnly && Bit(flags, 16)
  }

  /** SETSTAT shrinks or sets attributes at once. */
  predicate Settles(env: Env, root: Vol, p: Path, attrs: RequestedAttrs) {
    && AttrsRefusal(env, attrs).None? && p != [] && Lookup(root, p).Some?
    && var n := Lookup(root, p).value;
    && (attrs.size.Some? ==> n.File? && attrs.size.value <= SizeOf(n) && (attrs.size.value == SizeOf(n) || !MetaOf(n).readOnly))
  }

  predicate MaySettle(c: Core, token: Token, attrs: RequestedAttrs) {
    var slot := SlotOf(c, token);
    slot.Some? && (attrs.size.Some? ==> c.slots[slot.value].FileSlot? && c.slots[slot.value].writable)
  }

  /** The path a token's handle was opened with. */
  function HandlePath(c: Core, token: Token): Path {
    var slot := SlotOf(c, token);
    if slot.None? then [] else PathOf(c.slots[slot.value])
  }

  /** The file or directory whose handles forget their cursors. */
  function Rewritten(env: Env, c: Core, r: Request): Option<Path> {
    match r
    case Open(path, flags, attrs) => if Truncates(env, c.root, Resolved([], path), flags, attrs) then Some(Resolved([], path)) else None
    case SetStat(path, attrs) => if Settles(env, c.root, Resolved([], path), attrs) then Some(Resolved([], path)) else None
    case FSetStat(token, attrs) =>
      if MaySettle(c, token, attrs) && Settles(env, c.root, HandlePath(c, token), attrs) then Some(HandlePath(c, token)) else None
    case _ => None
  }

  /** The request may take away the entry the file at `p` is found through. */
  predicate MayRemove(r: Request, p: Path) {
    match r
    case Remove(path) => Inside(p, Resolved([], path))
    case RmDir(path) => Inside(p, Resolved([], path))
    case Rename(source, _) => Inside(p, Resolved([], source))
    case _ => false
  }

  predicate IsAt(p: Path, q: Option<Path>) { q.Some? && SamePath(p, q.value) }

  // ---------------------------------------------------------------------
  // Files
  // ---------------------------------------------------------------------

  lemma RemovedKeeps(c: Core, path: Path, p: Path)
    requires path != [] && Lookup(c.root, path).Some? && FileAt(c.root, p).Some? && !Inside(p, path)
    ensures FileAt(Deleted(c, path).root, p) == FileAt(c.root, p)
  {
    hide Inside, Lookup, Removed, OpenBelow;
    EntryFound(c.root, path);
    assert path[..|path| - 1] + [path[|path| - 1]] == path;
    FileAfterRemoved(c.root, path[..|path| - 1], path[|path| - 1], p);
  }

  lemma RemoveKeeps(c: Core, id: nat, path: Path, p: Path)
    requires FileAt(c.root, p).Some? && !Inside(p, path)
    ensures FileAt(ServeRemove(c, id, path).core.root, p) == FileAt(c.root, p)
    ensures FileAt(ServeRmDir(c, id, path).core.root, p) == FileAt(c.root, p)
  {
    hide Deleted, StatusReply, Text, Inside;
    if path != [] && Lookup(c.root, path).Some? { RemovedKeeps(c, path, p); }
  }

  lemma MkDirKeeps(env: Env, c: Core, id: nat, path: Path, attrs: RequestedAttrs, p: Path)
    requires FileAt(c.root, p).Some?
    ensures FileAt(ServeMkDir(env, c, id, path, attrs).core.root, p) == FileAt(c.root, p)
  {
    hide StatusReply, Text, Added, AttrsRefusal, NewMeta, FileAt;
    if path != [] && IsDir(c.root, path[..|path| - 1]) && Lookup(c.root, path).None? {
      NewNameFree(c.root, path);
      FileAfterAdded(c.root, path[..|path| - 1], Entry(path[|path| - 1], Dir(NewMeta(env, env.newMeta, attrs), [])), p);
    }
  }

  lemma RenamedKeeps(env: Env, root: Vol, id: nat, source: Path, target: Path, p: Path)
    requires EnvOk(env) && TreeOk(env, root) && RenameOf(root, source, target) && FileAt(root, p).Some? && !Inside(p, source)
    ensures FileAt(Renamed(root, id, source, target), p) == FileAt(root, p)
  {
    hide FileAt, Inside, Removed, Added, TreeOk, EnvOk, RenameOf;
    TargetNotRoot(root, source, target);
    TargetFree(env, root, source, target);
    RenameKeepsParent(root, source, target);
    EntryFound(root, source) by { RenameSource(root, source, target); }
    assert source[..|source| - 1] + [source[|source| - 1]] == source;
    FileAfterRemoved(root, source[..|source| - 1], source[|source| - 1], p);
    var without := Removed(root, source[..|source| - 1], source[|source| - 1]);
    RenameSource(root, source, target);
    FileAfterAdded(without, target[..|target| - 1], Entry(target[|target| - 1], Relabeled(Lookup(root, source).value, id)), p);
  }

  lemma RenameSource(root: Vol, source: Path, target: Path)
    requires RenameOf(root, source, target)
    ensures Lookup(root, source).Some?
  {
  }

  lemma RenameKeeps(env: Env, c: Core, id: nat, source: Path, target: Path, p: Path)
    requires EnvOk(env) && TreeOk(env, c.root) && FileAt(c.root, p).Some? && !Inside(p, source)
    ensures FileAt(ServeRename(env, c, id, source, target).core.root, p) == FileAt(c.root, p)
  {
    hide StatusReply, Text, Renamed, FileAt, Inside, TreeOk, EnvOk, SamePath;
    var s := ServeRename(env, c, id, source, target);
    if s.core != c { RenamedKeeps(env, c.root, MovedIdentity(env, c.root, source, target, c.nextId), source, target, p); }
  }

  lemma OpenKeeps(env: Env, c: Core, id: nat, path: Path, flags: nat, attrs: RequestedAttrs, p: Path)
    requires EnvOk(env) && FileAt(c.root, p).Some?
    ensures var after := FileAt(ServeOpen(env, c, id, path, flags, attrs).core.root, p);
            after.Some? && (!(Truncates(env, c.root, path, flags, attrs) && SamePath(p, path)) ==> after == FileAt(c.root, p))
  {
    hide EnvOk, StatusReply, HandleReply, Text, OpenTarget, AttrsRefusal, FileAt, SamePath, Bit, Truncates;
    if AttrsRefusal(env, attrs).None? && path != [] {
      assert path[..|path| - 1] + [path[|path| - 1]] == path;
      TargetKeeps(env, c.root, c.nextId, path[..|path| - 1], path[|path| - 1], flags, attrs, p);
      OpenedRoot(env, c, id, path, flags, attrs);
    }
  }

  lemma OpenedRoot(env: Env, c: Core, id: nat, path: Path, flags: nat, attrs: RequestedAttrs)
    requires EnvOk(env) && path != [] && AttrsRefusal(env, attrs).None?
    ensures var target := OpenTarget(env, c.root, c.nextId, path[..|path| - 1], path[|path| - 1], flags, attrs);
            ServeOpen(env, c, id, path, flags, attrs).core.root == if target.Target? then target.root else c.root
  {
    hide EnvOk, StatusReply, HandleReply, Text, OpenTarget, AttrsRefusal, Bit;
  }

  lemma TargetKeeps(env: Env, root: Vol, nextId: nat, parent: Path, leaf: Name, flags: nat, attrs: RequestedAttrs, p: Path)
    requires EnvOk(env) && FileAt(root, p).Some? && AttrsRefusal(env, attrs).None?
    ensures var t := OpenTarget(env, root, nextId, parent, leaf, flags, attrs);
            && (t.Target? ==> FileAt(t.root, p).Some?)
            && (t.Target? && !(Truncates(env, root, parent + [leaf], flags, attrs) && SamePath(p, parent + [leaf])) ==> FileAt(t.root, p) == FileAt(root, p))
  {
    hide Text, AttrsRefusal, NewMeta, Bit, SamePath, Added;
    PositiveClusters(env);
    var path := parent + [leaf];
    if FileAt(root, path).Some? {
      FileAfterPutFile(root, path, Shrunk(env.g, FileAt(root, path).value, 0), p);
    } else if Lookup(root, path).None? && IsDir(root, parent) {
      assert path[..|path| - 1] == parent;
      NewNameFree(root, path);
      FileAfterAdded(root, parent, Entry(leaf, File(EmptyFile(env, root, path, nextId).(meta := NewMeta(env, env.newMeta, attrs)))), p);
    }
  }

  lemma PositiveClusters(env: Env)
    requires EnvOk(env)
    ensures env.g.clusterSize > 0
  {
  }

  lemma SettledKeeps(env: Env, root: Vol, path: Path, attrs: RequestedAttrs, p: Path)
    requires EnvOk(env) && Lookup(root, path).Some? && FileAt(root, p).Some?
    ensures var after := FileAt(Put(root, path, Settled(env, Lookup(root, path).value, attrs)), p);
            after.Some? && (!SamePath(p, path) ==> after == FileAt(root, p))
  {
    hide NewMeta, SamePath, Put;
    var n := Lookup(root, path).value;
    var node := Resized(env, n, attrs.size);
    if n.File? {
      FileAfterPutFile(root, path, node.file.(meta := NewMeta(env, MetaOf(node), attrs)), p);
    } else {
      FileAfterPutDir(root, path, NewMeta(env, n.info, attrs), p);
    }
  }

  lemma SetStatKeeps(env: Env, c: Core, id: nat, path: Path, attrs: RequestedAttrs, p: Path)
    requires EnvOk(env) && FileAt(c.root, p).Some?
    ensures var after := FileAt(ServeSetStat(env, c, id, path, attrs).core.root, p);
            after.Some? && (!(Settles(env, c.root, path, attrs) && SamePath(p, path)) ==> after == FileAt(c.root, p))
  {
    hide EnvOk, StatusReply, AttrsRefusal, Settled, FileAt, SamePath, Text, Lookup;
    if Settles(env, c.root, path, attrs) { SettledKeeps(env, c.root, path, attrs, p); }
  }

  lemma FSetStatKeeps(env: Env, c: Core, id: nat, token: Token, attrs: RequestedAttrs, p: Path)
    requires EnvOk(env) && FileAt(c.root, p).Some?
    ensures var after := FileAt(ServeFSetStat(env, c, id, token, attrs).core.root, p);
            after.Some? && (!IsAt(p, Rewritten(env, c, FSetStat(token, attrs))) ==> after == FileAt(c.root, p))
  {
    hide EnvOk, StatusReply, FileAt, SamePath, Text, ServeSetStat, SlotOf, Settles;
    var slot := SlotOf(c, token);
    if slot.Some? { SetStatKeeps(env, c, id, PathOf(c.slots[slot.value]), attrs, p); }
  }

  lemma RootSame(env: Env, c: Core, id: nat, path: Path, token: Token, offset: nat, wanted: nat)
    ensures ServeOpenDir(c, id, path).core.root == c.root && ServeReadDir(env, c, id, token).core.root == c.root
    ensures ServeClose(c, id, token).core.root == c.root && ServeRead(c, id, token, offset, wanted).core.root == c.root
  {
    hide StatusReply, Text, Lookup, Batch, NamesBytes, NamesReply, HandleReply, DataHeader, FromBe32;
  }

  /** Requests that may take an entry away or add one. */
  predicate IsEntryChange(r: Request) { r.Remove? || r.RmDir? || r.MkDir? || r.Rename? }

  lemma EntryChangeKeeps(env: Env, c: Core, id: nat, r: Request, p: Path)
    requires EnvOk(env) && TreeOk(env, c.root) && FileAt(c.root, p).Some? && !MayRemove(r, p) && IsEntryChange(r)
    ensures FileAt(Serve(env, c, id, r).core.root, p) == FileAt(c.root, p)
  {
    hide EnvOk, TreeOk, Wf, Resolved, FileAt, SamePath, Inside, Truncates, Settles, ServeOpenDir, ServeReadDir, ServeOpen, ServeClose, ServeRead,
         ServeRemove, ServeMkDir, ServeRmDir, ServeRename, ServeSetStat, ServeFSetStat, ServeRealPath, ServeStat, ServeFStat, WordsReply,
         ServeFSync, ServeStatVfs, ServeFStatVfs, Refuse, Text, HandlePath, MaySettle, Bit;
    match r
    case Remove(path) => RemoveKeeps(c, id, Resolved([], path), p);
    case RmDir(path) => RemoveKeeps(c, id, Resolved([], path), p);
    case MkDir(path, attrs) => MkDirKeeps(env, c, id, Resolved([], path), attrs, p);
    case Rename(source, target) => RenameKeeps(env, c, id, Resolved([], source), Resolved([], target), p);
  }

  /** Requests that change no entry at all. */
  predicate LeavesTree(r: Request) { IsQuery(r) || r.OpenDir? || r.ReadDir? || r.Close? || r.Read? }

  lemma TreeLeft(env: Env, c: Core, id: nat, r: Request)
    requires EnvOk(env) && LeavesTree(r)
    ensures Serve(env, c, id, r).core.root == c.root
  {
    hide EnvOk, Wf, Resolved, FileAt, SamePath, Inside, Truncates, Settles, ServeOpenDir, ServeReadDir, ServeOpen, ServeClose, ServeRead,
         ServeRemove, ServeMkDir, ServeRmDir, ServeRename, ServeSetStat, ServeFSetStat, ServeRealPath, ServeStat, ServeFStat, WordsReply,
         ServeFSync, ServeStatVfs, ServeFStatVfs, Refuse, Text, HandlePath, MaySettle, Bit;
    match r
    case OpenDir(path) => RootSame(env, c, id, Resolved([], path), [], 0, 0);
    case ReadDir(token) => RootSame(env, c, id, [], token, 0, 0);
    case Close(token) => RootSame(env, c, id, [], token, 0, 0);
    case Read(token, offset, wanted) => RootSame(env, c, id, [], token, offset, wanted);
    case _ => QueryChangesNothing(env, c, id, r);
  }

  /** A request takes away no file but those it removes or renames, and changes none but the one it rewrites. */
  lemma OtherFilesKept(env: Env, c: Core, id: nat, r: Request, p: Path)
    requires EnvOk(env) && Wf(env, c) && c.mode.Idle? && FileAt(c.root, p).Some? && !MayRemove(r, p)
    ensures var after := FileAt(Serve(env, c, id, r).core.root, p);
            after.Some? && (!IsAt(p, Rewritten(env, c, r)) ==> after == FileAt(c.root, p))
  {
    SoundTree(env, c);
    hide EnvOk, Wf, Resolved, FileAt, SamePath, Inside, Truncates, Settles, ServeOpenDir, ServeReadDir, ServeOpen, ServeClose, ServeRead,
         ServeRemove, ServeMkDir, ServeRmDir, ServeRename, ServeSetStat, ServeFSetStat, ServeRealPath, ServeStat, ServeFStat, WordsReply,
         ServeFSync, ServeStatVfs, ServeFStatVfs, Refuse, Text, HandlePath, MaySettle, Bit;
    if IsEntryChange(r) {
      EntryChangeKeeps(env, c, id, r, p);
    } else if LeavesTree(r) {
      TreeLeft(env, c, id, r);
    } else {
      match r
      case SetStat(path, attrs) => SetStatKeeps(env, c, id, Resolved([], path), attrs, p);
      case FSetStat(token, attrs) => FSetStatKeeps(env, c, id, token, attrs, p);
      case Open(path, flags, attrs) => OpenKeeps(env, c, id, Resolved([], path), flags, attrs, p);
    }
  }

  lemma SoundTree(env: Env, c: Core)
    requires Wf(env, c)
    ensures EnvOk(env) && TreeOk(env, c.root)
  {
    hide ModeOk;
  }
}
