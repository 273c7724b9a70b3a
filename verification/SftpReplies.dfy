/** Every request gets one reply: a frame of its declared length, with the request's id, that fits the output buffer. */
module SftpReplies {
  import opened Bytes
  import opened FatTree
  import opened FsPath
  import opened Wire
  import opened SftpVolume
  import opened SftpModel
  import opened SftpStream

  /** A whole reply to request `id`. */
  predicate IsReply(out: seq<Byte>, id: nat) { |out| >= 9 && Honest(out) && IdOf(out) == id }

  /** A request is answered at once, or with a DATA header whose payload follows, or later by a growing SETSTAT. */
  predicate Answers(s: Served, id: nat) {
    && |s.out| <= MAX_OUTPUT
    && match s.core.mode
       case Reading(r) => r.remaining <= MAX_READ_REPLY && s.out == DataHeader(id, r.remaining)
       case Growing(g) => s.out == [] && g.id == id
       case _ => IsReply(s.out, id)
  }

  lemma FrameIsReply(kind: Byte, id: nat, rest: seq<Byte>)
    requires id < U32_LIMIT && |rest| <= MAX_OUTPUT - 9
    ensures IsReply(Frame(kind, Be32(id) + rest), id) && |Frame(kind, Be32(id) + rest)| == 9 + |rest|
  {
    FrameIsHonest(kind, Be32(id) + rest);
    FrameId(kind, id, rest);
  }

  lemma StatusIsReply(id: nat, s: Status)
    requires id < U32_LIMIT
    ensures IsReply(StatusReply(id, s), id) && |StatusReply(id, s)| <= 85
  {
    FrameIsReply(FXP_STATUS, id, Be32(s.code) + Str(s.message) + Str([]));
  }

  /** A DATA header and the payload it promised make one honest frame. */
  lemma DataIsReply(id: nat, payload: seq<Byte>)
    requires id < U32_LIMIT && |payload| <= MAX_READ_REPLY
    ensures IsReply(DataHeader(id, |payload|) + payload, id)
    ensures DataHeader(id, |payload|) + payload == Frame(FXP_DATA, Be32(id) + (Be32(|payload|) + payload))
    ensures |DataHeader(id, |payload|)| == 13
  {
    var rest := Be32(|payload|) + payload;
    FrameIsHonest(FXP_DATA, Be32(id) + rest);
    FrameId(FXP_DATA, id, rest);
    assert DataHeader(id, |payload|) + payload == Frame(FXP_DATA, Be32(id) + rest);
  }

  lemma RefuseAnswers(c: Core, id: nat, s: Status)
    requires c.mode.Idle? && id < U32_LIMIT
    ensures Answers(Refuse(c, id, s), id)
  {
    StatusIsReply(id, s);
    hide StatusReply;
  }

  lemma HandleAnswers(id: nat, token: nat)
    requires id < U32_LIMIT
    ensures IsReply(HandleReply(id, token), id) && |HandleReply(id, token)| == 17
  {
    FrameIsReply(FXP_HANDLE, id, Str(Be32(token)));
  }

  lemma RealPathAnswers(c: Core, id: nat, path: seq<Byte>)
    requires c.mode.Idle? && id < U32_LIMIT && |path| <= MAX_REQUEST - 9
    ensures Answers(ServeRealPath(c, id, path), id)
  {
    hide Resolved, Displayed, Be32;
    CanonicalLength(path);
    var canonical := Displayed(Resolved([], path));
    FrameIsReply(FXP_NAME, id, Be32(1) + Str(canonical) + Str(canonical) + Be32(0));
  }

  lemma StatAnswers(env: Env, c: Core, id: nat, path: Path)
    requires c.mode.Idle? && id < U32_LIMIT
    ensures Answers(ServeStat(env, c, id, path), id)
  {
    hide AttrBytes, RootAttrBytes, Refuse, Lookup;
    RefuseAnswers(c, id, NO_SUCH_FILE);
    FrameIsReply(FXP_ATTRS, id, RootAttrBytes());
    var n := Lookup(c.root, path);
    if n.Some? { FrameIsReply(FXP_ATTRS, id, AttrBytes(env, n.value)); }
  }

  lemma FStatAnswers(env: Env, c: Core, id: nat, token: Token)
    requires c.mode.Idle? && id < U32_LIMIT
    ensures Answers(ServeFStat(env, c, id, token), id)
  {
    hide Answers, Refuse, ServeStat;
    RefuseAnswers(c, id, INVALID_HANDLE);
    var slot := SlotOf(c, token);
    if slot.Some? { StatAnswers(env, c, id, PathOf(c.slots[slot.value])); }
  }

  lemma OpenDirAnswers(c: Core, id: nat, path: Path)
    requires c.mode.Idle? && id < U32_LIMIT
    ensures Answers(ServeOpenDir(c, id, path), id)
  {
    hide Refuse, Lookup, HandleReply, IsReply, Text;
    RefuseAnswers(c, id, Failure("Not a directory"));
    RefuseAnswers(c, id, NO_SUCH_FILE);
    RefuseAnswers(c, id, Failure("Too many open handles"));
    var a := Allocated(c, DirSlot(path, 0));
    if a.Some? { HandleAnswers(id, a.value.0.tokens[a.value.1]); }
  }

  // ---------------------------------------------------------------------
  // READDIR
  // ---------------------------------------------------------------------

  const MAX_NAME_BYTES := 4 + MAX_NAME + 4 + MAX_LISTING + 24

  lemma NameSize(env: Env, e: Item)
    requires EnvOk(env) && PlainName(e.name)
    ensures |NameBytes(env, e)| <= MAX_NAME_BYTES
  {
  }

  /** A batch stops at the first entry that takes it to the limit. */
  lemma {:induction false} BatchSize(env: Env, entries: seq<Item>, taken: nat)
    requires EnvOk(env) && taken <= |entries| && forall i :: 0 <= i < |entries| ==> PlainName(entries[i].name)
    requires taken <= READDIR_MAX_ENTRIES && |NamesBytes(env, entries[..taken])| < READDIR_MAX_BYTES + MAX_NAME_BYTES
    ensures var n := BatchFrom(env, entries, taken);
            n <= READDIR_MAX_ENTRIES && |NamesBytes(env, entries[..n])| < READDIR_MAX_BYTES + MAX_NAME_BYTES
    decreases |entries| - taken
  {
    hide NameBytes, EnvOk;
    if taken < |entries| && taken < READDIR_MAX_ENTRIES && |NamesBytes(env, entries[..taken])| < READDIR_MAX_BYTES {
      assert entries[..taken + 1][..taken] == entries[..taken];
      NameSize(env, entries[taken]);
      BatchSize(env, entries, taken + 1);
    }
  }

  lemma NamesSize(env: Env, root: Vol, path: Path, next: nat)
    requires EnvOk(env) && TreeOk(env, root) && IsDir(root, path)
    ensures var left := Unsent(Lookup(root, path).value.entries, next);
            |NamesBytes(env, left[..Batch(env, left)])| < READDIR_MAX_BYTES + MAX_NAME_BYTES
  {
    hide NameBytes, EnvOk;
    var entries := Lookup(root, path).value.entries;
    LookupOk(env, root, path);
    var left := Unsent(entries, next);
    UnsentPlain(entries, next);
    NamesOfNone(env, left);
    BatchSize(env, left, 0);
  }

  lemma NamesAnswers(env: Env, c: Core, id: nat, slot: nat)
    requires Wf(env, c) && c.mode.Idle? && id < U32_LIMIT && slot < |c.slots| && c.slots[slot].DirSlot?
    ensures Answers(ServeNames(env, c, id, slot), id)
  {
    hide Refuse, Lookup, NamesBytes, NameBytes, Text, TreeOk, ModeOk;
    RefuseAnswers(c, id, NO_SUCH_FILE);
    RefuseAnswers(c, id, END_OF_DIRECTORY);
    var s := c.slots[slot];
    if IsDir(c.root, s.path) {
      var left := Unsent(Lookup(c.root, s.path).value.entries, s.next);
      var count := Batch(env, left);
      NamesSize(env, c.root, s.path, s.next);
      FrameIsReply(FXP_NAME, id, Be32(count) + NamesBytes(env, left[..count]));
    }
  }

  lemma UnsentPlain(entries: seq<Item>, next: nat)
    requires forall i :: 0 <= i < |entries| ==> PlainName(entries[i].name)
    ensures forall i :: 0 <= i < |Unsent(entries, next)| ==> PlainName(Unsent(entries, next)[i].name)
  {
  }

  lemma NamesOfNone(env: Env, entries: seq<Item>)
    ensures NamesBytes(env, entries[..0]) == []
  {
  }

  lemma ReadDirAnswers(env: Env, c: Core, id: nat, token: Token)
    requires Wf(env, c) && c.mode.Idle? && id < U32_LIMIT
    ensures Answers(ServeReadDir(env, c, id, token), id)
  {
    hide Answers, Refuse, ServeNames, Wf, Text;
    RefuseAnswers(c, id, INVALID_HANDLE);
    RefuseAnswers(c, id, Failure("Not a directory handle"));
    var slot := SlotOf(c, token);
    if slot.Some? && c.slots[slot.value].DirSlot? { NamesAnswers(env, c, id, slot.value); }
  }

  // ---------------------------------------------------------------------
  // Other requests
  // ---------------------------------------------------------------------

  /** A STATUS, in a state that is idle. */
  ghost predicate StatusAnswer(s: Served, id: nat) { s.core.mode.Idle? && exists status :: s.out == StatusReply(id, status) }

  lemma StatusAnswers(s: Served, id: nat)
    requires StatusAnswer(s, id) && id < U32_LIMIT
    ensures Answers(s, id)
  {
    hide StatusReply;
    var status :| s.out == StatusReply(id, status);
    StatusIsReply(id, status);
  }

  lemma OpenedAnswers(c: Core, id: nat, parent: Path, leaf: Name, flags: nat)
    requires c.mode.Idle? && id < U32_LIMIT
    ensures Answers(OpenedReply(c, id, parent, leaf, flags), id)
  {
    hide Refuse, HandleReply, IsReply, Text, Bit;
    RefuseAnswers(c, id, Failure("Too many open handles"));
    var writable := Bit(flags, 2);
    var a := Allocated(c, FileSlot(parent, leaf, Bit(flags, 1) || !writable, writable, Bit(flags, 4)));
    if a.Some? { HandleAnswers(id, a.value.0.tokens[a.value.1]); }
  }

  lemma OpenAnswers(env: Env, c: Core, id: nat, path: Path, flags: nat, attrs: RequestedAttrs)
    requires EnvOk(env) && c.mode.Idle? && id < U32_LIMIT
    ensures Answers(ServeOpen(env, c, id, path, flags, attrs), id)
  {
    hide EnvOk, StatusReply, OpenTarget, AttrsRefusal, OpenedReply, Answers, Text;
    if AttrsRefusal(env, attrs).None? && path != [] {
      var target := OpenTarget(env, c.root, c.nextId, path[..|path| - 1], path[|path| - 1], flags, attrs);
      if target.Target? {
        OpenedAnswers(c.(root := target.root, nextId := target.nextId), id, path[..|path| - 1], path[|path| - 1], flags);
        return;
      }
    }
    StatusAnswers(ServeOpen(env, c, id, path, flags, attrs), id);
  }

  lemma ReadAnswers(c: Core, id: nat, token: Token, offset: nat, wanted: nat)
    requires c.mode.Idle? && id < U32_LIMIT
    ensures Answers(ServeRead(c, id, token, offset, wanted), id)
  {
    hide StatusReply, Lookup, Text, SlotOf;
    var s := ServeRead(c, id, token, offset, wanted);
    if s.core.mode.Reading? {
      DataHeaderSize(id, s.core.mode.read.remaining);
    } else {
      StatusAnswers(s, id);
    }
  }

  lemma DataHeaderSize(id: nat, length: nat)
    ensures |DataHeader(id, length)| == 13
  {
  }

  lemma SetStatAnswers(env: Env, c: Core, id: nat, path: Path, attrs: RequestedAttrs)
    requires EnvOk(env) && c.mode.Idle? && id < U32_LIMIT
    ensures Answers(ServeSetStat(env, c, id, path, attrs), id)
  {
    hide EnvOk, StatusReply, Lookup, Text, AttrsRefusal, Settled;
    var s := ServeSetStat(env, c, id, path, attrs);
    if !s.core.mode.Growing? { StatusAnswers(s, id); }
  }

  lemma FSetStatAnswers(env: Env, c: Core, id: nat, token: Token, attrs: RequestedAttrs)
    requires EnvOk(env) && c.mode.Idle? && id < U32_LIMIT
    ensures Answers(ServeFSetStat(env, c, id, token, attrs), id)
  {
    hide EnvOk, StatusReply, Text, ServeSetStat, SlotOf, Answers;
    var slot := SlotOf(c, token);
    var s := ServeFSetStat(env, c, id, token, attrs);
    if slot.Some? && s == ServeSetStat(env, c, id, PathOf(c.slots[slot.value]), attrs) {
      SetStatAnswers(env, c, id, PathOf(c.slots[slot.value]), attrs);
    } else {
      StatusAnswers(s, id);
    }
  }

  lemma {:induction false} WordsSize(values: seq<nat>)
    ensures |Words(values)| == 8 * |values|
  {
    hide Be64;
    if values != [] { WordsSize(values[..|values| - 1]); }
  }

  lemma WordsAnswers(c: Core, id: nat, values: seq<nat>)
    requires c.mode.Idle? && id < U32_LIMIT && |values| <= 11
    ensures Answers(Served(c, WordsReply(id, values)), id)
  {
    hide Words;
    WordsSize(values);
    FrameIsReply(FXP_EXTENDED_REPLY, id, Words(values));
  }

  lemma StatVfsAnswers(env: Env, c: Core, id: nat, path: Path)
    requires c.mode.Idle? && id < U32_LIMIT
    ensures Answers(ServeStatVfs(env, c, id, path), id)
  {
    hide Lookup, StatusReply, WordsReply, Text, Answers;
    var free := env.freeClusters(c.root);
    if !(path != [] && Lookup(c.root, path).None?) && free.Some? && free.value <= env.totalClusters {
      WordsAnswers(c, id, VolumeWords(env, free.value));
    } else {
      StatusAnswers(ServeStatVfs(env, c, id, path), id);
    }
  }

  lemma FStatVfsAnswers(env: Env, c: Core, id: nat, token: Token)
    requires c.mode.Idle? && id < U32_LIMIT
    ensures Answers(ServeFStatVfs(env, c, id, token), id)
  {
    hide Answers, ServeStatVfs, Refuse, SlotOf;
    RefuseAnswers(c, id, INVALID_HANDLE);
    var slot := SlotOf(c, token);
    if slot.Some? { StatVfsAnswers(env, c, id, PathOf(c.slots[slot.value])); }
  }

  lemma RemovalAnswers(c: Core, id: nat, path: Path, token: Token)
    requires c.mode.Idle?
    ensures StatusAnswer(ServeRemove(c, id, path), id) && StatusAnswer(ServeRmDir(c, id, path), id)
    ensures StatusAnswer(ServeClose(c, id, token), id) && StatusAnswer(ServeFSync(c, id, token), id)
  {
    hide StatusReply, Lookup, Text, Removed, OpenBelow, SlotOf;
  }

  lemma AdditionAnswers(env: Env, c: Core, id: nat, path: Path, target: Path, attrs: RequestedAttrs)
    requires c.mode.Idle?
    ensures StatusAnswer(ServeMkDir(env, c, id, path, attrs), id) && StatusAnswer(ServeRename(env, c, id, path, target), id)
  {
    hide StatusReply, Lookup, Text, Removed, Added, OpenBelow, AttrsRefusal, NewMeta, Inside;
  }

  /** The server's answer to any request. */
  lemma ServeAnswers(env: Env, c: Core, id: nat, r: Request)
    requires EnvOk(env) && Wf(env, c) && c.mode.Idle? && id < U32_LIMIT
    requires r.RealPath? ==> |r.path| <= MAX_REQUEST - 9
    ensures Answers(Serve(env, c, id, r), id)
  {
    hide EnvOk, Wf, Answers, Resolved, ServeOpenDir, ServeReadDir, ServeOpen, ServeClose, ServeRead, ServeRemove, ServeMkDir, ServeRmDir,
         ServeRename, ServeSetStat, ServeFSetStat, ServeRealPath, ServeStat, ServeFStat, WordsReply, ServeFSync, ServeStatVfs, ServeFStatVfs,
         Refuse, Text, StatusReply;
    match r
    case RealPath(path) => RealPathAnswers(c, id, path);
    case Stat(path) => StatAnswers(env, c, id, Resolved([], path));
    case FStat(token) => FStatAnswers(env, c, id, token);
    case OpenDir(path) => OpenDirAnswers(c, id, Resolved([], path));
    case ReadDir(token) => ReadDirAnswers(env, c, id, token);
    case Open(path, flags, attrs) => OpenAnswers(env, c, id, Resolved([], path), flags, attrs);
    case Close(token) => StatusOnly(env, c, id, [], [], NO_ATTRS, token);
    case Read(token, offset, wanted) => ReadAnswers(c, id, token, offset, wanted);
    case Remove(path) => StatusOnly(env, c, id, Resolved([], path), [], NO_ATTRS, []);
    case MkDir(path, attrs) => StatusOnly(env, c, id, Resolved([], path), [], attrs, []);
    case RmDir(path) => StatusOnly(env, c, id, Resolved([], path), [], NO_ATTRS, []);
    case Rename(source, target) => StatusOnly(env, c, id, Resolved([], source), Resolved([], target), NO_ATTRS, []);
    case SetStat(path, attrs) => SetStatAnswers(env, c, id, Resolved([], path), attrs);
    case FSetStat(token, attrs) => FSetStatAnswers(env, c, id, token, attrs);
    case Limits => WordsAnswers(c, id, LIMITS);
    case FSync(token) => StatusOnly(env, c, id, [], [], NO_ATTRS, token);
    case StatVfs(path) => StatVfsAnswers(env, c, id, Resolved([], path));
    case FStatVfs(token) => FStatVfsAnswers(env, c, id, token);
    case UnknownExtension => RefuseAnswers(c, id, NO_EXTENSION);
    case BadMessage => RefuseAnswers(c, id, BAD_MESSAGE);
    case Unsupported => RefuseAnswers(c, id, UNSUPPORTED);
  }

  lemma StatusOnly(env: Env, c: Core, id: nat, path: Path, target: Path, attrs: RequestedAttrs, token: Token)
    requires c.mode.Idle? && id < U32_LIMIT
    ensures Answers(ServeRemove(c, id, path), id) && Answers(ServeRmDir(c, id, path), id)
    ensures Answers(ServeMkDir(env, c, id, path, attrs), id) && Answers(ServeRename(env, c, id, path, target), id)
    ensures Answers(ServeClose(c, id, token), id) && Answers(ServeFSync(c, id, token), id)
  {
    hide StatusAnswer, Answers, ServeRemove, ServeMkDir, ServeRmDir, ServeRename, ServeClose, ServeFSync;
    RemovalAnswers(c, id, path, token);
    AdditionAnswers(env, c, id, path, target, attrs);
    StatusAnswers(ServeRemove(c, id, path), id);
    StatusAnswers(ServeRmDir(c, id, path), id);
    StatusAnswers(ServeMkDir(env, c, id, path, attrs), id);
    StatusAnswers(ServeRename(env, c, id, path, target), id);
    StatusAnswers(ServeClose(c, id, token), id);
    StatusAnswers(ServeFSync(c, id, token), id);
  }

  lemma ParsedPath(kind: Byte, b: seq<Byte>)
    ensures var r := ParseRequest(kind, b); r.RealPath? ==> |r.path| + 4 <= |b|
  {
    hide TakePath, TakeAttrs, TakeString, TakeU32, TakeU64, Text;
  }

  /** The longest greeting is far below the limit. */
  lemma VersionIsReply()
    ensures Honest(VersionReply()) && VersionReply()[4] == FXP_VERSION && |VersionReply()| <= 200
  {
    hide Be32, Text;
    var e := EXTENSIONS;
    assert e[..3] == [e[0], e[1], e[2]] && [e[0], e[1], e[2]][..2] == [e[0], e[1]] && [e[0], e[1]][..1] == [e[0]];
    ExtensionSize(e[0], []);
    ExtensionSize(e[1], [e[0]]);
    ExtensionSize(e[2], [e[0], e[1]]);
    ExtensionSize(e[3], [e[0], e[1], e[2]]);
    assert e == [e[0], e[1], e[2]] + [e[3]] && [e[0], e[1], e[2]] == [e[0], e[1]] + [e[2]] && [e[0], e[1]] == [e[0]] + [e[1]] && [e[0]] == [] + [e[0]];
    FrameIsHonest(FXP_VERSION, Be32(3) + ExtensionBytes(e));
  }

  lemma ExtensionSize(e: (string, string), before: seq<(string, string)>)
    ensures |ExtensionBytes(before + [e])| == |ExtensionBytes(before)| + 8 + |e.0| + |e.1|
  {
    assert (before + [e])[..|before|] == before;
  }

  lemma DispatchAnswers(env: Env, c: Core, kind: Byte, body: seq<Byte>)
    requires EnvOk(env) && Wf(env, c) && c.mode.Idle? && |body| < MAX_REQUEST
    ensures var s := Dispatch(env, c, kind, body);
            if kind == FXP_INIT then s == Served(c, VersionReply())
            else if |body| < 4 then s == Served(c.(mode := Fatal), [])
            else Answers(s, FromBe32(body[..4]))
    ensures |Dispatch(env, c, kind, body).out| <= MAX_OUTPUT
  {
    hide EnvOk, Wf, Serve, ParseRequest, VersionReply, FromBe32;
    VersionIsReply();
    if kind != FXP_INIT && |body| >= 4 {
      ParsedPath(kind, body[4..]);
      ServeAnswers(env, c, FromBe32(body[..4]), ParseRequest(kind, body[4..]));
    }
  }
}
