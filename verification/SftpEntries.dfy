/** What a client can rely on about names: RENAME, REMOVE, RMDIR, MKDIR and OPEN, and that other files stay as they are. */
module SftpEntries {
  import opened Bytes
  import opened FatTree
  import opened FatFile
  import opened Wire
  import opened SftpVolume
  import opened SftpModel
  import opened SftpStream
  import opened SftpCursors
  import opened SftpFrames
  import opened SftpRuns
  import opened SftpWrites
  import opened SftpRequests

  // ---------------------------------------------------------------------
  // RENAME
  // ---------------------------------------------------------------------

  /** What was at or below the old name is found under the new one. */
  lemma RenameMoves(env: Env, root: Vol, id: nat, source: Path, target: Path, more: Path)
    requires EnvOk(env) && TreeOk(env, root) && RenameOf(root, source, target)
    ensures Lookup(root, source).Some? && Lookup(Renamed(root, id, source, target), target) == Some(Relabeled(Lookup(root, source).value, id))
    ensures more != [] ==> Lookup(Renamed(root, id, source, target), target + more) == Lookup(root, source + more)
  {
    hide TreeOk, EnvOk, RenameOf, Removed, Added, Lookup, Holds;
    RenameSource(root, source, target);
    TargetNotRoot(root, source, target);
    RenameKeepsParent(root, source, target);
    TargetFree(env, root, source, target);
    var parent, leaf := target[..|target| - 1], target[|target| - 1];
    var node := Relabeled(Lookup(root, source).value, id);
    assert parent + [leaf] == target;
    LookupAddedEntry(Removed(root, source[..|source| - 1], source[|source| - 1]), parent, Entry(leaf, node));
    LookupConcat(Renamed(root, id, source, target), target, more);
    LookupConcat(root, source, more);
    if more != [] { SameBelow(Lookup(root, source).value, id, more); }
  }

  lemma SameBelow(n: Vol, id: nat, more: Path)
    requires more != []
    ensures Lookup(Relabeled(n, id), more) == Lookup(n, more)
  {
  }

  /** The new name is spelled as the client spelled it. */
  lemma RenameSpells(env: Env, root: Vol, id: nat, source: Path, target: Path)
    requires EnvOk(env) && TreeOk(env, root) && RenameOf(root, source, target)
    ensures var parent, leaf := target[..|target| - 1], target[|target| - 1];
            && IsDir(Renamed(root, id, source, target), parent)
            && var entries := Lookup(Renamed(root, id, source, target), parent).value.entries;
               Holds(entries, leaf) && entries[FindIn(entries, leaf)].name == leaf
  {
    hide TreeOk, EnvOk, RenameOf, Removed, Lookup, FindIn;
    TargetNotRoot(root, source, target);
    RenameKeepsParent(root, source, target);
    TargetFree(env, root, source, target);
    RenameSource(root, source, target);
    var parent, leaf := target[..|target| - 1], target[|target| - 1];
    var without := Removed(root, source[..|source| - 1], source[|source| - 1]);
    var entry := Entry(leaf, Relabeled(Lookup(root, source).value, id));
    var d := Lookup(without, parent).value;
    LookupPut(without, parent, d.(entries := d.entries + [entry]));
    FindAppended(d.entries, entry, leaf);
  }

  /** Nothing is left under the old name, unless the new one is the same in another case. */
  lemma RenameLeavesNothing(env: Env, root: Vol, id: nat, source: Path, target: Path)
    requires EnvOk(env) && TreeOk(env, root) && RenameOf(root, source, target) && !SamePath(target, source)
    ensures Lookup(Renamed(root, id, source, target), source).None?
  {
    hide TreeOk, EnvOk, Removed, Added, Lookup, Holds, Inside;
    var dir, name := source[..|source| - 1], source[|source| - 1];
    var parent, leaf := target[..|target| - 1], target[|target| - 1];
    EntryFound(root, source);
    RenameKeepsParent(root, source, target);
    TargetFree(env, root, source, target);
    EntryGone(env, root, dir, name);
    assert dir + [name] == source && parent + [leaf] == target;
    NotAboveSource(root, source, target);
    LookupAdded(Removed(root, dir, name), parent, Entry(leaf, Relabeled(Lookup(root, source).value, id)), source);
  }

  lemma NotAboveSource(root: Vol, source: Path, target: Path)
    requires RenameOf(root, source, target) && !SamePath(target, source)
    ensures !Inside(source, target) && !Inside(target[..|target| - 1], source)
  {
    var parent, leaf := target[..|target| - 1], target[|target| - 1];
    assert parent + [leaf] == target;
    if Inside(source, target) {
      SplitInside(source, target);
      LookupPrefix(root, source[..|target|], source[|target|..]);
      LookupSamePath(root, source[..|target|], target);
    }
    if Inside(parent, source) { BelowStaysBelow(parent, leaf, source); }
  }

  /** RENAME succeeds exactly when both ends are there, the name is one FAT takes, and the target is free or the source itself. */
  lemma RenameLaw(env: Env, c: Core, id: nat, source: Path, target: Path)
    requires EnvOk(env) && Wf(env, c) && c.mode.Idle?
    ensures var s := ServeRename(env, c, id, source, target);
            if RenameOf(c.root, source, target) && env.nameOk(target[|target| - 1]) then
              s.out == StatusReply(id, OK) && s.core.root == Renamed(c.root, MovedIdentity(env, c.root, source, target, c.nextId), source, target)
            else s.core == c && exists status: Status :: status.code != FX_OK && s.out == StatusReply(id, status)
  {
    hide EnvOk, Wf, StatusReply, Renamed, Inside, Lookup, Text, MovedIdentity;
    var s := ServeRename(env, c, id, source, target);
    if s.core == c && !(RenameOf(c.root, source, target) && env.nameOk(target[|target| - 1])) {
      var status := if source == [] then Failure("Cannot rename the root") else if target == [] then Failure("Invalid target")
                    else if |target| > |source| && Inside(target, source) then Failure("Cannot move a directory into itself")
                    else if Lookup(c.root, source).None? || !IsDir(c.root, target[..|target| - 1]) then NO_SUCH_FILE
                    else if !env.nameOk(target[|target| - 1]) then Failure("Rename failed") else Failure("Target exists");
      assert status.code != FX_OK && s.out == StatusReply(id, status);
    }
  }

  // ---------------------------------------------------------------------
  // REMOVE, RMDIR, MKDIR and OPEN
  // ---------------------------------------------------------------------

  /** A removed entry is gone, whatever the case of its name, and so is all that was below it. */
  lemma RemoveLaw(env: Env, c: Core, path: Path, more: Path)
    requires EnvOk(env) && TreeOk(env, c.root) && path != [] && Lookup(c.root, path).Some?
    ensures Lookup(Deleted(c, path).root, path + more).None?
  {
    hide TreeOk, EnvOk, Removed, Lookup;
    var dir, name := path[..|path| - 1], path[|path| - 1];
    EntryFound(c.root, path);
    assert dir + [name] == path;
    EntryGone(env, c.root, dir, name);
    if Lookup(Deleted(c, path).root, path + more).Some? { LookupPrefix(Deleted(c, path).root, path, more); }
  }

  /** REMOVE takes away exactly a writable file. */
  lemma RemoveServes(env: Env, c: Core, id: nat, path: Path)
    requires EnvOk(env) && Wf(env, c) && c.mode.Idle?
    ensures var s, f := ServeRemove(c, id, path), FileAt(c.root, path);
            if path != [] && f.Some? && !f.value.meta.readOnly then
              s.out == StatusReply(id, OK) && s.core == Deleted(c, path) && Lookup(s.core.root, path).None?
            else s.core == c
  {
    hide EnvOk, Wf, StatusReply, Deleted, Lookup, Text;
    SoundTree(env, c);
    if path != [] && Lookup(c.root, path).Some? {
      RemoveLaw(env, c, path, []);
      assert path + [] == path;
    }
  }

  /** RMDIR takes away exactly an empty directory. */
  lemma RmDirServes(env: Env, c: Core, id: nat, path: Path)
    requires EnvOk(env) && Wf(env, c) && c.mode.Idle?
    ensures var s := ServeRmDir(c, id, path);
            if path != [] && IsDir(c.root, path) && Lookup(c.root, path).value.entries == [] then
              s.out == StatusReply(id, OK) && s.core == Deleted(c, path) && Lookup(s.core.root, path).None?
            else s.core == c
  {
    hide EnvOk, Wf, StatusReply, Deleted, Lookup, Text;
    SoundTree(env, c);
    if path != [] && Lookup(c.root, path).Some? {
      RemoveLaw(env, c, path, []);
      assert path + [] == path;
    }
  }

  /** MKDIR makes an empty directory where nothing was, with the attributes asked for. */
  lemma MkDirLaw(env: Env, c: Core, id: nat, path: Path, attrs: RequestedAttrs)
    requires EnvOk(env) && Wf(env, c) && c.mode.Idle?
    ensures var s := ServeMkDir(env, c, id, path, attrs);
            if path != [] && AttrsRefusal(env, attrs).None? && attrs.size.None? && IsDir(c.root, path[..|path| - 1]) &&
               env.nameOk(path[|path| - 1]) && Lookup(c.root, path).None?
            then s.out == StatusReply(id, OK) && Lookup(s.core.root, path) == Some(Dir(NewMeta(env, env.newMeta, attrs), []))
            else s.core == c
  {
    hide EnvOk, Wf, StatusReply, Lookup, Text, Added, NewMeta, AttrsRefusal, IsDir;
    if path != [] && IsDir(c.root, path[..|path| - 1]) && Lookup(c.root, path).None? {
      AddedIsThere(c.root, path, Dir(NewMeta(env, env.newMeta, attrs), []));
    }
  }

  lemma AddedIsThere(root: Vol, path: Path, node: Vol)
    requires path != [] && IsDir(root, path[..|path| - 1]) && Lookup(root, path).None?
    ensures Lookup(Added(root, path[..|path| - 1], Entry(path[|path| - 1], node)), path) == Some(node)
  {
    hide Lookup, Added;
    var parent, leaf := path[..|path| - 1], path[|path| - 1];
    assert parent + [leaf] == path;
    NewNameFree(root, path);
    LookupAddedEntry(root, parent, Entry(leaf, node));
  }

  /** After an OPEN that works there is a file: as it was, cut to nothing, or new and empty with the attributes asked for. */
  lemma OpenLaw(env: Env, root: Vol, nextId: nat, parent: Path, leaf: Name, flags: nat, attrs: RequestedAttrs)
    requires EnvOk(env)
    ensures var t, path := OpenTarget(env, root, nextId, parent, leaf, flags, attrs), parent + [leaf];
            t.Target? ==>
              var was, now := FileAt(root, path), FileAt(t.root, path);
              && now.Some?
              && if was.None? then
                   Bit(flags, 8) && Bit(flags, 2) && now.value.data == [] && now.value.meta == NewMeta(env, env.newMeta, attrs)
                 else if Bit(flags, 2) && Bit(flags, 16) then now.value.data == [] && now.value.meta == was.value.meta && now.value.id == was.value.id
                 else t.root == root
  {
    hide Text, NewMeta, Bit, Added, Lookup;
    PositiveClusters(env);
    var path := parent + [leaf];
    var n := Lookup(root, path);
    if n.Some? {
      if n.value.File? { LookupPut(root, path, File(Shrunk(env.g, n.value.file, 0))); }
    } else if IsDir(root, parent) {
      assert path[..|path| - 1] == parent;
      NewNameFree(root, path);
      LookupAddedEntry(root, parent, Entry(leaf, File(EmptyFile(env, root, path, nextId).(meta := NewMeta(env, env.newMeta, attrs)))));
    }
  }

  // ---------------------------------------------------------------------
  // Other files
  // ---------------------------------------------------------------------

  /** The request makes the file at `p` grow. */
  predicate Grows(s: Served, p: Path) { s.core.mode.Growing? && SamePath(p, s.core.mode.growth.path) }

  /** Served to the end, a request changes no file it does not name. */
  lemma FilesKept(env: Env, c: Core, id: nat, r: Request, p: Path)
    requires EnvOk(env) && Wf(env, c) && c.mode.Idle? && FileAt(c.root, p).Some?
    requires !MayRemove(r, p) && !IsAt(p, Rewritten(env, c, r)) && !Grows(Serve(env, c, id, r), p)
    ensures var s := Serve(env, c, id, r); Wf(env, s.core) && FileAt(Completed(env, s).core.root, p) == FileAt(c.root, p)
  {
    hide EnvOk, Wf, Serve, FileAt, SamePath, MayRemove, Rewritten, Completed;
    ServeOk(env, c, id, r);
    OtherFilesKept(env, c, id, r, p);
    CompletedKeeps(env, Serve(env, c, id, r), p);
  }

  lemma CompletedKeeps(env: Env, s: Served, p: Path)
    requires Wf(env, s.core) && FileAt(s.core.root, p).Some? && !Grows(s, p)
    ensures FileAt(Completed(env, s).core.root, p) == FileAt(s.core.root, p)
  {
    hide Wf, SamePath, StatusReply, Extended, NewMeta;
    if s.core.mode.Growing? {
      var g := s.core.mode.growth;
      GrowthFits(env, s.core);
      GrowthKeeps(env, s.core.root, g.path, g.attrs, p) by { SoundTree(env, s.core); }
    }
  }

  lemma GrowthKeeps(env: Env, root: Vol, path: Path, attrs: RequestedAttrs, p: Path)
    requires EnvOk(env) && attrs.size.Some? && FileAt(root, p).Some? && !SamePath(p, path)
    ensures var r := FinishGrowth(env, root, path, attrs); r.Stored? ==> FileAt(r.root, p) == FileAt(root, p)
  {
    hide SamePath, Extended, NewMeta;
    var n := Lookup(root, path);
    if n.Some? && n.value.File? {
      PositiveClusters(env);
      var f := Extended(env.g, n.value.file, attrs.size.value);
      FileAfterPutFile(root, path, f.(meta := NewMeta(env, f.meta, attrs)), p);
    }
  }

  /** A WRITE changes no file but its handle's. */
  lemma WriteKeeps(env: Env, root: Vol, path: Path, append: bool, offset: nat, data: seq<Byte>, p: Path)
    requires EnvOk(env) && FileAt(root, p).Some? && !SamePath(p, path)
    ensures var r := StoreChunk(env, root, path, append, offset, data); r.Stored? ==> FileAt(r.root, p) == FileAt(root, p)
  {
    hide StoreChunk, SamePath, StoredFile;
    var r := StoreChunk(env, root, path, append, offset, data);
    if r.Stored? {
      FoundFile(env, root, path, append, offset, data);
      StoreOutcome(env, root, path, append, offset, data);
      FileAfterPutFile(root, path, StoredFile(env, FileAt(root, path).value, append, offset, data), p);
    }
  }
}
