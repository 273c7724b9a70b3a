/** Which refused requests have changed the volume all the same. */
module SftpRefusals {
  import opened Bytes
  import opened FatTree
  import opened FatFile
  import opened FsPath
  import opened Wire
  import opened SftpVolume
  import opened SftpModel
  import opened SftpStream
  import opened SftpFrames
  import opened SftpRuns
  import opened SftpWrites
  import opened SftpRequests
  import opened SftpLaws
  import opened SftpEntries

  /** The client is told that its request failed. */
  predicate Refusal(reply: seq<Byte>) { |reply| >= 13 && reply[4] == FXP_STATUS && FromBe32(reply[9..13]) != FX_OK }

  lemma StatusRefuses(id: nat, s: Status)
    requires s.code < U32_LIMIT
    ensures Refusal(StatusReply(id, s)) <==> s.code != FX_OK
  {
    hide Be32, FromBe32;
    Be32RoundTrip(s.code);
    assert StatusReply(id, s)[9..13] == Be32(s.code);
  }

  lemma OtherKind(kind: Byte, fields: seq<Byte>)
    requires kind != FXP_STATUS
    ensures !Refusal(Frame(kind, fields))
  {
    hide Be32;
  }

  // ---------------------------------------------------------------------
  // OPEN
  // ---------------------------------------------------------------------

  /** OPEN makes a new file. */
  predicate Creates(env: Env, root: Vol, p: Path, flags: nat, attrs: RequestedAttrs) {
    && AttrsRefusal(env, attrs).None? && p != [] && IsDir(root, p[..|p| - 1]) && Lookup(root, p).None?
    && Bit(flags, 2) && Bit(flags, 8) && env.nameOk(p[|p| - 1])
  }

  predicate TableFull(c: Core) { FirstFree(c.slots) == |c.slots| }

  /** OPEN changes the volume exactly when it cuts a file to nothing or makes one, and is refused then exactly when no handle is free. */
  lemma OpenChanges(env: Env, c: Core, id: nat, path: Path, flags: nat, attrs: RequestedAttrs)
    requires EnvOk(env) && |c.tokens| == |c.slots|
    ensures var s, opens := ServeOpen(env, c, id, path, flags, attrs), Truncates(env, c.root, path, flags, attrs) || Creates(env, c.root, path, flags, attrs);
            && (s.core.root != c.root <==> opens)
            && (opens ==> (Refusal(s.out) <==> TableFull(c)))
  {
    hide EnvOk, Refusal, StatusReply, HandleReply, AttrsRefusal, OpenTarget, Bit, Text, Truncates, Creates, TableFull;
    if path != [] && AttrsRefusal(env, attrs).None? {
      var parent, leaf := path[..|path| - 1], path[|path| - 1];
      assert parent + [leaf] == path;
      TargetChanges(env, c.root, c.nextId, parent, leaf, flags, attrs);
      var t := OpenTarget(env, c.root, c.nextId, parent, leaf, flags, attrs);
      if t.Target? { OpenedRefused(c.(root := t.root, nextId := t.nextId), id, parent, leaf, flags); }
      OpenedRoot(env, c, id, path, flags, attrs);
      StillFull(c, t);
    } else {
      NothingOpened(env, c.root, path, flags, attrs);
    }
  }

  lemma StillFull(c: Core, t: OpenResult)
    ensures t.Target? ==> TableFull(c.(root := t.root, nextId := t.nextId)) == TableFull(c)
  {
  }

  lemma NothingOpened(env: Env, root: Vol, path: Path, flags: nat, attrs: RequestedAttrs)
    requires path == [] || AttrsRefusal(env, attrs).Some?
    ensures !Truncates(env, root, path, flags, attrs) && !Creates(env, root, path, flags, attrs)
  {
    hide AttrsRefusal, Bit;
  }

  lemma OpenedRefused(c: Core, id: nat, parent: Path, leaf: Name, flags: nat)
    requires |c.tokens| == |c.slots|
    ensures Refusal(OpenedReply(c, id, parent, leaf, flags).out) <==> TableFull(c)
  {
    hide Refusal, StatusReply, Be32, Text;
    StatusRefuses(id, Failure("Too many open handles"));
    var a := Allocated(c, FileSlot(parent, leaf, Bit(flags, 1) || !Bit(flags, 2), Bit(flags, 2), Bit(flags, 4)));
    if a.Some? { OtherKind(FXP_HANDLE, Be32(id) + Str(Be32(a.value.0.tokens[a.value.1]))); }
  }

  lemma TargetChanges(env: Env, root: Vol, nextId: nat, parent: Path, leaf: Name, flags: nat, attrs: RequestedAttrs)
    requires EnvOk(env) && AttrsRefusal(env, attrs).None?
    ensures var t, path := OpenTarget(env, root, nextId, parent, leaf, flags, attrs), parent + [leaf];
            t.Target? && t.root != root <==> Truncates(env, root, path, flags, attrs) || Creates(env, root, path, flags, attrs)
  {
    hide Text, NewMeta, Bit, Added, Lookup, AttrsRefusal;
    PositiveClusters(env);
    var path := parent + [leaf];
    assert path[..|path| - 1] == parent;
    if FileAt(root, path).Some? {
      var f := FileAt(root, path).value;
      LookupPut(root, path, File(Shrunk(env.g, f, 0)));
      LookupPrefix(root, parent, [leaf]);
    } else if Lookup(root, path).None? && IsDir(root, parent) {
      NewNameFree(root, path);
      LookupAddedEntry(root, parent, Entry(leaf, File(EmptyFile(env, root, path, nextId).(meta := NewMeta(env, env.newMeta, attrs)))));
    }
  }

  // ---------------------------------------------------------------------
  // The other requests
  // ---------------------------------------------------------------------

  /** What changes the volume is answered with OK. */
  ghost predicate HonestChange(c: Core, s: Served) { s.core.root != c.root ==> !Refusal(s.out) }

  /** What is still to come of a request starts from the volume as it was. */
  predicate NothingYet(c: Core, s: Served) { (!s.core.mode.Idle? ==> s.core.root == c.root) && (s.core.mode.Growing? ==> s.out == []) }

  lemma OkIsHonest(c: Core, id: nat, s: Served)
    requires s.out == StatusReply(id, OK) || s.core.root == c.root
    ensures HonestChange(c, s)
  {
    hide StatusReply, Refusal;
    StatusRefuses(id, OK);
  }

  lemma EntryChanges(env: Env, c: Core, id: nat, r: Request)
    requires EnvOk(env) && Wf(env, c) && c.mode.Idle? && IsEntryChange(r)
    ensures HonestChange(c, Serve(env, c, id, r)) && Serve(env, c, id, r).core.mode.Idle?
  {
    hide EnvOk, Wf, Resolved, StatusReply, Refusal, HonestChange, ServeRemove, ServeRmDir, ServeMkDir, ServeRename, Deleted, Lookup, FileAt, IsDir,
         RenameOf, Renamed, MovedIdentity, AttrsRefusal, NewMeta;
    EntryIdle(env, c, id, r);
    var s := Serve(env, c, id, r);
    match r {
      case Remove(path) => RemoveServes(env, c, id, Resolved([], path));
      case RmDir(path) => RmDirServes(env, c, id, Resolved([], path));
      case MkDir(path, attrs) => MkDirLaw(env, c, id, Resolved([], path), attrs);
      case Rename(source, target) => RenameLaw(env, c, id, Resolved([], source), Resolved([], target));
    }
    OkIsHonest(c, id, s);
  }

  lemma EntryIdle(env: Env, c: Core, id: nat, r: Request)
    requires EnvOk(env) && Wf(env, c) && c.mode.Idle? && IsEntryChange(r)
    ensures Serve(env, c, id, r).core.mode.Idle?
  {
    hide EnvOk, Wf, StatusReply, Lookup, Text, Removed, Added, Renamed, MovedIdentity, AttrsRefusal, NewMeta, Inside, Resolved;
  }

  lemma SettingChanges(env: Env, c: Core, id: nat, path: Path, attrs: RequestedAttrs)
    requires EnvOk(env) && c.mode.Idle?
    ensures var s := ServeSetStat(env, c, id, path, attrs); HonestChange(c, s) && NothingYet(c, s)
  {
    hide EnvOk, StatusReply, Lookup, Text, AttrsRefusal, Settled, Refusal;
    OkIsHonest(c, id, ServeSetStat(env, c, id, path, attrs));
  }

  lemma HandleSettingChanges(env: Env, c: Core, id: nat, token: Token, attrs: RequestedAttrs)
    requires EnvOk(env) && c.mode.Idle?
    ensures var s := ServeFSetStat(env, c, id, token, attrs); HonestChange(c, s) && NothingYet(c, s)
  {
    hide EnvOk, StatusReply, Text, ServeSetStat, Refusal, SlotOf;
    var slot := SlotOf(c, token);
    if slot.Some? { SettingChanges(env, c, id, PathOf(c.slots[slot.value]), attrs); }
  }

  /** No complete request but OPEN is refused after it has changed the volume. */
  lemma ServeChanges(env: Env, c: Core, id: nat, r: Request)
    requires EnvOk(env) && Wf(env, c) && c.mode.Idle? && !r.Open?
    ensures var s := Serve(env, c, id, r); HonestChange(c, s) && NothingYet(c, s)
  {
    hide EnvOk, Wf, Resolved, HonestChange, ServeSetStat, ServeFSetStat;
    if IsEntryChange(r) {
      EntryChanges(env, c, id, r);
    } else if LeavesTree(r) {
      TreeLeft(env, c, id, r);
      LeavesMode(env, c, id, r);
      SameIsHonest(c, Serve(env, c, id, r));
    } else if r.SetStat? {
      SettingChanges(env, c, id, Resolved([], r.path), r.attrs);
    } else {
      HandleSettingChanges(env, c, id, r.token, r.attrs);
    }
  }

  lemma SameIsHonest(c: Core, s: Served)
    requires s.core.root == c.root
    ensures HonestChange(c, s)
  {
  }

  lemma LeavesMode(env: Env, c: Core, id: nat, r: Request)
    requires EnvOk(env) && c.mode.Idle? && LeavesTree(r)
    ensures !Serve(env, c, id, r).core.mode.Growing?
  {
    hide EnvOk, StatusReply, Text, Lookup, Resolved, Batch, NamesBytes, NamesReply, HandleReply, DataHeader, SlotOf, AttrBytes, Displayed, WordsReply;
  }

  // ---------------------------------------------------------------------
  // Any message
  // ---------------------------------------------------------------------

  /** An OPEN that makes a file or cuts one to nothing, and finds no free handle. */
  predicate OpensTooMany(env: Env, c: Core, m: Message)
    requires Proper(m)
  {
    && Kind(m) == FXP_OPEN && |m| - 4 <= MAX_REQUEST && TableFull(c)
    && var r := ParseRequest(FXP_OPEN, m[9..]);
       r.Open? && (Truncates(env, c.root, Resolved([], r.path), r.flags, r.attrs) || Creates(env, c.root, Resolved([], r.path), r.flags, r.attrs))
  }

  /** A WRITE in append mode that passes the limit of a file only after at least one whole chunk. */
  predicate AppendsTooFar(c: Core, m: Message)
    requires Proper(m)
  {
    && Kind(m) == FXP_WRITE && CheckWrite(c, WriteToken(m), WriteOffset(m), |WriteData(m)|).Pass?
    && var f := FileAt(c.root, WriteTarget(c, m));
       f.Some? && PassesLimitLate(f.value, AppendsTo(c, m), |WriteData(m)|)
  }

  /** A refused request has changed the volume exactly if it is one of these two. */
  lemma RefusedChanges(env: Env, c: Core, m: Message)
    requires EnvOk(env) && Wf(env, c) && c.mode.Idle? && Proper(m)
    ensures var s := ServeMessage(env, c, m);
            Refusal(s.out) && s.core.root != c.root <==> OpensTooMany(env, c, m) || AppendsTooFar(c, m)
  {
    hide EnvOk, Wf, Proper, OpensTooMany, AppendsTooFar, ServeMessage, Refusal;
    if Kind(m) == FXP_WRITE {
      WriteChanges(env, c, m);
    } else if Kind(m) == FXP_OPEN {
      OpenMessage(env, c, m);
    } else {
      OtherMessage(env, c, m);
    }
    NotBoth(env, c, m);
  }

  lemma NotBoth(env: Env, c: Core, m: Message)
    requires Proper(m)
    ensures OpensTooMany(env, c, m) ==> Kind(m) == FXP_OPEN
    ensures AppendsTooFar(c, m) ==> Kind(m) == FXP_WRITE
  {
    hide Proper, CheckWrite, Truncates, Creates, ParseRequest, TableFull;
  }

  lemma OversizedSame(env: Env, c: Core, m: Message)
    requires EnvOk(env) && Wf(env, c) && c.mode.Idle? && Proper(m) && Kind(m) != FXP_WRITE && |m| - 4 > MAX_REQUEST
    ensures ServeMessage(env, c, m).core == c
  {
    hide EnvOk, Wf, StatusReply, FromBe32, HandleLength;
  }

  lemma CompletedChanges(env: Env, c: Core, s: Served)
    requires Wf(env, s.core) && HonestChange(c, s) && NothingYet(c, s)
    ensures HonestChange(c, Completed(env, s))
  {
    hide Wf, FinishGrowth, StatusReply, Refusal;
    match s.core.mode
    case Growing(g) =>
      GrowthFits(env, s.core);
      assert [] + StatusReply(g.id, OK) == StatusReply(g.id, OK);
      OkIsHonest(c, g.id, Completed(env, s));
    case _ =>
  }

  lemma OtherMessage(env: Env, c: Core, m: Message)
    requires EnvOk(env) && Wf(env, c) && c.mode.Idle? && Proper(m) && Kind(m) != FXP_WRITE && Kind(m) != FXP_OPEN
    ensures HonestChange(c, ServeMessage(env, c, m))
  {
    hide EnvOk, Wf, Serve, ParseRequest, VersionReply, HonestChange, NothingYet, Completed, FromBe32, HandleLength;
    if |m| - 4 > MAX_REQUEST {
      OversizedSame(env, c, m);
      SameIsHonest(c, ServeMessage(env, c, m));
    } else {
      DispatchOk(env, c, Kind(m), m[5..]);
      var d := Dispatch(env, c, Kind(m), m[5..]);
      var id := TakeU32(m[5..]);
      if Kind(m) == FXP_INIT || id.Short? {
        SameIsHonest(c, d);
        SameIsNothing(c, d);
      } else {
        var r := ParseRequest(Kind(m), id.rest);
        NotAnOpen(Kind(m), id.rest);
        ServeChanges(env, c, id.value, r);
      }
      CompletedChanges(env, c, d);
    }
  }

  lemma SameIsNothing(c: Core, s: Served)
    requires s.core.root == c.root && !s.core.mode.Growing?
    ensures NothingYet(c, s)
  {
  }

  lemma NotAnOpen(kind: Byte, b: seq<Byte>)
    ensures ParseRequest(kind, b).Open? ==> kind == FXP_OPEN
    ensures kind == FXP_OPEN ==> ParseRequest(kind, b).Open? || ParseRequest(kind, b).BadMessage?
  {
    hide TakePath, TakeString, TakeAttrs, TakeU32, TakeU64, Text;
  }

  lemma OpenMessage(env: Env, c: Core, m: Message)
    requires EnvOk(env) && Wf(env, c) && c.mode.Idle? && Proper(m) && Kind(m) == FXP_OPEN
    ensures var s := ServeMessage(env, c, m); Refusal(s.out) && s.core.root != c.root <==> OpensTooMany(env, c, m)
  {
    hide EnvOk, Wf, ParseRequest, VersionReply, FromBe32, HandleLength, Refusal, ServeOpen, Truncates, Creates, TableFull, Resolved, StatusReply;
    if |m| - 4 > MAX_REQUEST {
      OversizedSame(env, c, m);
    } else {
      DispatchOk(env, c, Kind(m), m[5..]);
      assert m[5..][4..] == m[9..];
      var id, r := TakeU32(m[5..]).value, ParseRequest(FXP_OPEN, m[9..]);
      NotAnOpen(FXP_OPEN, m[9..]);
      SameSizes(env, c);
      if r.Open? {
        OpenOk(env, c, id, Resolved([], r.path), r.flags, r.attrs);
        OpenChanges(env, c, id, Resolved([], r.path), r.flags, r.attrs);
      }
    }
  }

  lemma SameSizes(env: Env, c: Core)
    requires Wf(env, c)
    ensures |c.tokens| == |c.slots|
  {
  }

  lemma WriteChanges(env: Env, c: Core, m: Message)
    requires EnvOk(env) && Wf(env, c) && c.mode.Idle? && Proper(m) && Kind(m) == FXP_WRITE
    ensures var s := ServeMessage(env, c, m); Refusal(s.out) && s.core.root != c.root <==> AppendsTooFar(c, m)
  {
    hide EnvOk, Wf, Proper, Refusal, StoreChunk, StatusReply, FromBe32, HandleLength, SlotOf, CheckWrite, AfterPayload, WriteToken, WriteOffset, WriteData;
    var d, data, check := WriteStarted(c, m), WriteData(m), CheckWrite(c, WriteToken(m), WriteOffset(m), |WriteData(m)|);
    WriteStartedOk(env, c, m);
    if check.Fail? {
      DroppedPayload(env, d, data);
    } else {
      HasId(m);
      WriteLaw(env, c, m);
      StatusRefuses(IdIn(m), OK);
      CheckedFile(c, WriteToken(m), WriteOffset(m), |data|);
      var path, append := WriteTarget(c, m), AppendsTo(c, m);
      if data != [] {
        StoreCodes(env, c.root, path, append, WriteOffset(m), data);
        if StoreChunk(env, c.root, path, append, WriteOffset(m), data).Refused? {
          StatusRefuses(IdIn(m), StoreChunk(env, c.root, path, append, WriteOffset(m), data).status);
          RefusedLeaves(env, d, data);
        }
      }
    }
  }

  lemma HasId(m: Message)
    requires Proper(m) && Kind(m) == FXP_WRITE
    ensures |m| >= 25
  {
    hide FromBe32;
  }

  lemma StoreCodes(env: Env, root: Vol, path: Path, append: bool, offset: nat, data: seq<Byte>)
    requires EnvOk(env)
    ensures var r, f := StoreChunk(env, root, path, append, offset, data), FileAt(root, path);
            && (r.Refused? ==> 0 < r.status.code < U32_LIMIT)
            && (f.Some? && PassesLimitLate(f.value, append, |data|) ==> r.Refused?)
  {
    hide EnvOk, Written, Extended, Text;
  }
}
