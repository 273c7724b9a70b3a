/** What the remaining requests are answered and leave behind, read from the bytes of their replies. */
module SftpAnswers {
  import opened Bytes
  import opened FatTree
  import opened FatFile
  import opened FsPath
  import opened Wire
  import opened SftpVolume
  import opened SftpModel
  import opened SftpStream
  import opened SftpFrames
  import opened SftpRequests
  import opened SftpEntries
  import opened SftpRefusals
  import opened SftpTokens
  import opened SftpClient
  import opened SftpAttrs
  import opened SftpHandles

  // ---------------------------------------------------------------------
  // REMOVE, RMDIR and RENAME
  // ---------------------------------------------------------------------

  /** REMOVE works exactly on a writable file; then there is nothing at its path. */
  lemma RemoveTold(env: Env, c: Core, id: nat, p: seq<Byte>, owner: seq<Byte>)
    requires EnvOk(env) && Wf(env, c) && c.mode.Idle? && Sends(id, Remove(p), owner)
    ensures var s, path := Asked(env, c, id, Remove(p), owner), Resolved([], p);
            var f := FileAt(c.root, path);
            && (TellsStatus(s.out, 0) <==> path != [] && f.Some? && !f.value.meta.readOnly)
            && (TellsStatus(s.out, 0) ==> Lookup(s.core.root, path).None?)
            && (!TellsStatus(s.out, 0) ==> s.core == c)
            && (TellsStatus(s.out, 2) <==> path != [] && Lookup(c.root, path).None?)
            && (TellsStatus(s.out, 3) <==> path != [] && f.Some? && f.value.meta.readOnly)
  {
    hide EnvOk, Wf, Sends, Lookup, TellsStatus, StatusReply, Text, Deleted, Resolved, Asked;
    var path := Resolved([], p);
    AskedIs(env, c, id, Remove(p), owner);
    RemoveServes(env, c, id, path);
    StatusRead(id, OK);
    StatusRead(id, NO_SUCH_FILE);
    StatusRead(id, READ_ONLY);
    StatusRead(id, Failure("Is a directory"));
  }

  /** RMDIR works exactly on an empty directory other than the root; then there is nothing at its path. */
  lemma RmDirTold(env: Env, c: Core, id: nat, p: seq<Byte>, owner: seq<Byte>)
    requires EnvOk(env) && Wf(env, c) && c.mode.Idle? && Sends(id, RmDir(p), owner)
    ensures var s, path := Asked(env, c, id, RmDir(p), owner), Resolved([], p);
            && (TellsStatus(s.out, 0) <==> path != [] && IsDir(c.root, path) && Lookup(c.root, path).value.entries == [])
            && (TellsStatus(s.out, 0) ==> Lookup(s.core.root, path).None?)
            && (!TellsStatus(s.out, 0) ==> s.core == c)
            && (TellsStatus(s.out, 2) <==> path != [] && Lookup(c.root, path).None?)
  {
    hide EnvOk, Wf, Sends, Lookup, TellsStatus, StatusReply, Text, Deleted, Resolved, Asked;
    var path := Resolved([], p);
    AskedIs(env, c, id, RmDir(p), owner);
    RmDirServes(env, c, id, path);
    StatusRead(id, OK);
    StatusRead(id, NO_SUCH_FILE);
    StatusRead(id, Failure("Cannot remove the root"));
    StatusRead(id, Failure("Not a directory"));
    StatusRead(id, Failure("Directory not empty"));
  }

  /** An entry, a place for it that is not below it, a name FAT takes, and nothing else there. */
  predicate CanRename(env: Env, root: Vol, source: Path, target: Path) {
    && source != [] && target != [] && Lookup(root, source).Some? && IsDir(root, target[..|target| - 1]) && env.nameOk(target[|target| - 1])
    && (Inside(target, source) ==> SamePath(target, source)) && (Lookup(root, target).Some? ==> SamePath(target, source))
  }

  /** The same file, or the same directory with all that is in it. */
  predicate SameEntry(was: Vol, now: Vol) {
    if was.File? then now.File? && now.file.data == was.file.data && now.file.meta == was.file.meta else now == was
  }

  lemma RenameServedBy(env: Env, c: Core, id: nat, source: Path, target: Path)
    requires EnvOk(env) && Wf(env, c) && c.mode.Idle?
    ensures var s := ServeRename(env, c, id, source, target);
            && (CanRename(env, c.root, source, target) ==>
                  && s.out == StatusReply(id, OK) && Lookup(s.core.root, target).Some?
                  && SameEntry(Lookup(c.root, source).value, Lookup(s.core.root, target).value)
                  && (!SamePath(target, source) ==> Lookup(s.core.root, source).None?))
            && (!CanRename(env, c.root, source, target) ==>
                  s.core == c && exists status: Status :: 0 < status.code < 256 && s.out == StatusReply(id, status))
  {
    hide EnvOk, Wf, Lookup, StatusReply, Renamed, MovedIdentity, ServeRename, Inside, RenameOf, CanRename, TreeOk;
    RenameAgrees(env, c.root, source, target);
    if CanRename(env, c.root, source, target) {
      RenameLaw(env, c, id, source, target);
      SoundTree(env, c);
      var moved := MovedIdentity(env, c.root, source, target, c.nextId);
      RenameMoves(env, c.root, moved, source, target, []);
      if !SamePath(target, source) { RenameLeavesNothing(env, c.root, moved, source, target); }
    } else {
      RenameDenied(env, c, id, source, target);
    }
  }

  lemma SameInside(target: Path, source: Path)
    ensures Inside(target, source) && !(|target| > |source| && Inside(target, source)) ==> SamePath(target, source)
  {
    hide SameName;
  }

  lemma RenameAgrees(env: Env, root: Vol, source: Path, target: Path)
    ensures CanRename(env, root, source, target) <==> RenameOf(root, source, target) && env.nameOk(target[|target| - 1])
  {
    hide Lookup, Inside;
    SameInside(target, source);
  }

  lemma RenameDenied(env: Env, c: Core, id: nat, source: Path, target: Path)
    requires !(RenameOf(c.root, source, target) && env.nameOk(target[|target| - 1]))
    ensures var s := ServeRename(env, c, id, source, target);
            s.core == c && exists status: Status :: 0 < status.code < 256 && s.out == StatusReply(id, status)
  {
    hide StatusReply, Renamed, Inside, Lookup, Text, MovedIdentity, SamePath;
    var status := if source == [] then Failure("Cannot rename the root") else if target == [] then Failure("Invalid target")
                  else if |target| > |source| && Inside(target, source) then Failure("Cannot move a directory into itself")
                  else if Lookup(c.root, source).None? || !IsDir(c.root, target[..|target| - 1]) then NO_SUCH_FILE
                  else if !env.nameOk(target[|target| - 1]) then Failure("Rename failed") else Failure("Target exists");
    assert ServeRename(env, c, id, source, target).out == StatusReply(id, status);
  }

  /** RENAME works exactly where it can; then the entry is at its new path with all it holds, and no longer at the old one. */
  lemma RenameTold(env: Env, c: Core, id: nat, p: seq<Byte>, q: seq<Byte>, owner: seq<Byte>)
    requires EnvOk(env) && Wf(env, c) && c.mode.Idle? && Sends(id, Rename(p, q), owner)
    ensures var s, source, target := Asked(env, c, id, Rename(p, q), owner), Resolved([], p), Resolved([], q);
            && (TellsStatus(s.out, 0) <==> CanRename(env, c.root, source, target))
            && (!TellsStatus(s.out, 0) ==> Refusal(s.out) && s.core == c)
            && (TellsStatus(s.out, 0) ==>
                  && Lookup(s.core.root, target).Some? && SameEntry(Lookup(c.root, source).value, Lookup(s.core.root, target).value)
                  && (!SamePath(target, source) ==> Lookup(s.core.root, source).None?))
  {
    hide EnvOk, Wf, Sends, Lookup, TellsStatus, StatusReply, Resolved, Asked, ServeRename, Inside, CanRename, SameEntry, Refusal;
    var source, target := Resolved([], p), Resolved([], q);
    AskedIs(env, c, id, Rename(p, q), owner);
    RenameServedBy(env, c, id, source, target);
    CanRenameIs(env, c.root, source, target);
    StatusRead(id, OK);
    if !CanRename(env, c.root, source, target) {
      var status: Status :| 0 < status.code < 256 && ServeRename(env, c, id, source, target).out == StatusReply(id, status);
      StatusRead(id, status);
      StatusRefuses(id, status);
    }
  }

  lemma CanRenameIs(env: Env, root: Vol, source: Path, target: Path)
    ensures CanRename(env, root, source, target) ==> Lookup(root, source).Some?
  {
    hide Lookup, Inside;
  }

  // ---------------------------------------------------------------------
  // CLOSE
  // ---------------------------------------------------------------------

  /** CLOSE works exactly on an open handle; then its token is refused, and the card is as it was. */
  lemma CloseTold(env: Env, c: Core, id: nat, token: Token, owner: seq<Byte>)
    requires EnvOk(env) && Wf(env, c) && c.mode.Idle? && Sends(id, Close(token), owner)
    ensures var s := Asked(env, c, id, Close(token), owner);
            && (TellsStatus(s.out, 0) <==> |token| == 4 && Live(c, FromBe32(token)))
            && (!TellsStatus(s.out, 0) ==> TellsStatus(s.out, 4) && s.core == c)
            && s.core.root == c.root && SlotOf(s.core, token).None?
            && forall other: Token, h: Slot :: other != token && Holding(c, other, h) ==> Holding(s.core, other, h)
  {
    hide EnvOk, TreeOk, ModeOk, Sends, TellsStatus, StatusReply, Text, Asked, FromBe32;
    AskedIs(env, c, id, Close(token), owner);
    AcceptedWhenLive(c, token);
    StatusRead(id, OK);
    StatusRead(id, INVALID_HANDLE);
    var s := Asked(env, c, id, Close(token), owner);
    forall other: Token, h: Slot | other != token && Holding(c, other, h)
      ensures Holding(s.core, other, h)
    {
      if SlotOf(c, token).Some? && SlotOf(c, other) == SlotOf(c, token) { SameNumber(other, token); }
    }
  }

  /** The handle a request goes through. */
  function Through(r: Request): Option<Token> {
    match r
    case FStat(token) => Some(token)
    case ReadDir(token) => Some(token)
    case Close(token) => Some(token)
    case Read(token, _, _) => Some(token)
    case FSetStat(token, _) => Some(token)
    case FSync(token) => Some(token)
    case FStatVfs(token) => Some(token)
    case _ => None
  }

  /** No handle is open under the token, or one on a file where a directory is needed or the other way round. */
  predicate WrongHandle(c: Core, r: Request)
    requires Through(r).Some?
  {
    var slot := SlotOf(c, Through(r).value);
    slot.None? || (c.slots[slot.value].DirSlot? && (r.Read? || r.FSync? || (r.FSetStat? && r.attrs.size.Some?))) ||
    (c.slots[slot.value].FileSlot? && r.ReadDir?)
  }

  lemma WrongHandleServed(env: Env, c: Core, id: nat, r: Request)
    requires EnvOk(env) && Through(r).Some? && WrongHandle(c, r)
    ensures var s := Serve(env, c, id, r);
            s.core == c && exists status: Status :: status.code == 4 && s.out == StatusReply(id, status)
  {
    hide EnvOk, StatusReply, SlotOf, Text, ServeStat, ServeStatVfs, ServeSetStat, ServeNames, Lookup;
    var status := if SlotOf(c, Through(r).value).None? then INVALID_HANDLE
                  else if r.ReadDir? then Failure("Not a directory handle") else Failure("Not a file handle");
    assert Serve(env, c, id, r).out == StatusReply(id, status);
  }

  /** Such requests fail, and change nothing. */
  lemma WrongHandleTold(env: Env, c: Core, id: nat, r: Request, owner: seq<Byte>)
    requires EnvOk(env) && Wf(env, c) && c.mode.Idle? && Sends(id, r, owner) && Through(r).Some? && WrongHandle(c, r)
    ensures Asked(env, c, id, r, owner).core == c && TellsStatus(Asked(env, c, id, r, owner).out, 4)
  {
    hide EnvOk, Wf, Sends, Serve, StatusReply, TellsStatus, WrongHandle, ServeMessage, Completed, Sent;
    SentServed(env, c, id, r, owner);
    WrongHandleServed(env, c, id, r);
    var status: Status :| status.code == 4 && Serve(env, c, id, r).out == StatusReply(id, status);
    CompletedIdle(env, Serve(env, c, id, r));
    StatusRead(id, status);
  }

  // ---------------------------------------------------------------------
  // REALPATH
  // ---------------------------------------------------------------------

  /** Type 104 with one entry: a path, given twice, without attributes. */
  predicate TellsPath(reply: seq<Byte>, path: seq<Byte>) {
    var n := |path|;
    && |reply| == 25 + 2 * n && reply[4] == 104 && WordAt(reply, 9) == 1 && WordAt(reply, 13) == n && reply[17..17 + n] == path
    && WordAt(reply, 17 + n) == n && reply[21 + n..21 + 2 * n] == path && WordAt(reply, 21 + 2 * n) == 0
  }

  /** REALPATH answers an absolute path without empty, dot and dot-dot components that leads where the path asked for leads. */
  lemma RealPathTold(env: Env, c: Core, id: nat, p: seq<Byte>, owner: seq<Byte>)
    requires EnvOk(env) && Wf(env, c) && c.mode.Idle? && Sends(id, RealPath(p), owner)
    ensures var s, canonical := Asked(env, c, id, RealPath(p), owner), Displayed(Resolved([], p));
            && s.core == c && TellsPath(s.out, canonical) && canonical != [] && canonical[0] == 47
            && Resolved([], canonical) == Resolved([], p) && Normal(Resolved([], p))
  {
    hide EnvOk, Wf, Sends, Asked, Resolved, Displayed, Normal, TellsPath;
    AskedIs(env, c, id, RealPath(p), owner);
    ResolvedIsNormal([], p) by { NothingNormal(); }
    DisplayRoundTrip(Resolved([], p));
    StartsWithSlash(Resolved([], p));
    ShortPath(id, p, owner);
    PathRead(id, Displayed(Resolved([], p)));
  }

  lemma NothingNormal()
    ensures Normal([])
  {
  }

  lemma StartsWithSlash(path: Path)
    ensures Displayed(path) != [] && Displayed(path)[0] == 47
  {
  }

  lemma ShortPath(id: nat, p: seq<Byte>, owner: seq<Byte>)
    requires Sends(id, RealPath(p), owner)
    ensures |Displayed(Resolved([], p))| < U32_LIMIT
  {
    hide Displayed, Resolved, TextPath;
    CanonicalLength(p);
  }

  lemma PathRead(id: nat, path: seq<Byte>)
    requires |path| < U32_LIMIT
    ensures TellsPath(Frame(FXP_NAME, Be32(id) + (Be32(1) + Str(path) + Str(path) + Be32(0))), path)
  {
    hide Be32, FromBe32;
    var n, head := |path|, Be32(|path|);
    var fields := Be32(1) + Str(path) + Str(path) + Be32(0);
    var reply := Frame(FXP_NAME, Be32(id) + fields);
    Be32RoundTrip(0);
    Be32RoundTrip(1);
    Be32RoundTrip(n);
    assert reply[9..] == fields;
    assert fields == Be32(1) + (head + (path + (head + (path + Be32(0)))));
    FivePieces(Be32(1), head, path, head, path, Be32(0));
    Shifted(reply, 9, fields, 0, 4);
    Shifted(reply, 9, fields, 4, 8);
    Shifted(reply, 9, fields, 8, 8 + n);
    Shifted(reply, 9, fields, 8 + n, 12 + n);
    Shifted(reply, 9, fields, 12 + n, 12 + 2 * n);
    Shifted(reply, 9, fields, 12 + 2 * n, 16 + 2 * n);
  }

  lemma Shifted(x: seq<Byte>, at: nat, y: seq<Byte>, i: nat, j: nat)
    requires at <= |x| && x[at..] == y && i <= j <= |y|
    ensures x[at + i..at + j] == y[i..j]
  {
    assert forall k :: 0 <= k < |y| ==> y[k] == x[at + k];
  }

  lemma FivePieces(a: seq<Byte>, b: seq<Byte>, c: seq<Byte>, d: seq<Byte>, e: seq<Byte>, f: seq<Byte>)
    ensures var x, i, j, k, l, m := a + (b + (c + (d + (e + f)))), |a|, |a| + |b|, |a| + |b| + |c|, |a| + |b| + |c| + |d|, |a| + |b| + |c| + |d| + |e|;
            x[0..i] == a && x[i..j] == b && x[j..k] == c && x[k..l] == d && x[l..m] == e && x[m..m + |f|] == f
  {
    var ef := e + f;
    var def := d + ef;
    var cdef := c + def;
    var bcdef := b + cdef;
    var x := a + bcdef;
    assert x[|a|..] == bcdef && bcdef[|b|..] == cdef && cdef[|c|..] == def && def[|d|..] == ef;
    assert x[|a| + |b|..] == cdef;
    assert x[|a| + |b| + |c|..] == def;
    assert x[|a| + |b| + |c| + |d|..] == ef;
  }

  // ---------------------------------------------------------------------
  // Extensions
  // ---------------------------------------------------------------------

  /** Type 201, and after the id these 64-bit words. */
  predicate TellsWords(reply: seq<Byte>, values: seq<nat>) {
    |reply| == 9 + 8 * |values| && reply[4] == 201 && forall i :: 0 <= i < |values| ==> LongAt(reply, 9 + 8 * i) == values[i]
  }

  lemma LongRead(x: seq<Byte>, at: nat, n: nat)
    requires n < U64_LIMIT && at + 8 <= |x| && x[at..at + 8] == Be64(n)
    ensures LongAt(x, at) == n
  {
    hide Be32, FromBe32;
    Be32RoundTrip(n / U32_LIMIT);
    Be32RoundTrip(n % U32_LIMIT);
    assert x[at..at + 4] == x[at..at + 8][..4] && x[at + 4..at + 8] == x[at..at + 8][4..];
  }

  lemma {:induction false} WordsInPlace(values: seq<nat>, i: nat)
    requires i < |values|
    ensures |Words(values)| == 8 * |values| && Words(values)[8 * i..8 * i + 8] == Be64(values[i])
    decreases |values|
  {
    hide Be64;
    var n := |values| - 1;
    if n > 0 { WordsInPlace(values[..n], if i < n then i else 0); }
    if i < n { assert Words(values)[8 * i..8 * i + 8] == Words(values[..n])[8 * i..8 * i + 8]; }
  }

  lemma WordRead(id: nat, values: seq<nat>, i: nat)
    requires i < |values| && values[i] < U64_LIMIT
    ensures |WordsReply(id, values)| == 9 + 8 * |values| && LongAt(WordsReply(id, values), 9 + 8 * i) == values[i]
  {
    hide Be32, Be64, Words, LongAt;
    var reply, words := WordsReply(id, values), Words(values);
    WordsInPlace(values, i);
    assert reply[9..] == words;
    Shifted(reply, 9, words, 8 * i, 8 * i + 8);
    LongRead(reply, 9 + 8 * i, values[i]);
  }

  lemma WordsRead(id: nat, values: seq<nat>)
    requires values != [] && forall i :: 0 <= i < |values| ==> values[i] < U64_LIMIT
    ensures TellsWords(WordsReply(id, values), values)
  {
    hide Words, LongAt;
    WordRead(id, values, 0);
    forall i | 0 <= i < |values|
      ensures LongAt(WordsReply(id, values), 9 + 8 * i) == values[i]
    {
      WordRead(id, values, i);
    }
  }

  /** limits@openssh.com: the longest packet, read and write, and how many handles. */
  lemma LimitsTold(env: Env, c: Core, id: nat, owner: seq<Byte>)
    requires EnvOk(env) && Wf(env, c) && c.mode.Idle? && Sends(id, Limits, owner)
    ensures var s := Asked(env, c, id, Limits, owner); s.core == c && TellsWords(s.out, [65536, 32768, 32768, 8])
  {
    hide EnvOk, Wf, Sends, Asked, WordsReply, TellsWords;
    AskedIs(env, c, id, Limits, owner);
    WordsRead(id, LIMITS);
  }

  /** statvfs@openssh.com tells sizes and free space of the volume, if the path is there and the free count is known and possible. */
  lemma StatVfsTold(env: Env, c: Core, id: nat, p: seq<Byte>, owner: seq<Byte>)
    requires EnvOk(env) && Wf(env, c) && c.mode.Idle? && Sends(id, StatVfs(p), owner)
    requires env.g.clusterSize < U64_LIMIT && env.totalClusters < U64_LIMIT && env.volumeId < U64_LIMIT
    ensures var s, path, free := Asked(env, c, id, StatVfs(p), owner), Resolved([], p), env.freeClusters(c.root);
            var size, total := env.g.clusterSize, env.totalClusters;
            && s.core == c
            && if path != [] && Lookup(c.root, path).None? then TellsStatus(s.out, 2)
               else match free
                    case None => TellsStatus(s.out, 8)
                    case Some(n) =>
                      if n > total then TellsStatus(s.out, 4) else TellsWords(s.out, [size, size, total, n, n, 0, 0, 0, env.volumeId, 0, 255])
  {
    hide EnvOk, Wf, Sends, Asked, WordsReply, TellsWords, Lookup, Resolved, TellsStatus, StatusReply, Text;
    AskedIs(env, c, id, StatVfs(p), owner);
    StatusRead(id, NO_SUCH_FILE);
    StatusRead(id, FREE_UNKNOWN);
    StatusRead(id, Failure("Invalid FAT free-space count"));
    var free := env.freeClusters(c.root);
    if free.Some? && free.value <= env.totalClusters { WordsRead(id, VolumeWords(env, free.value)); }
  }

  // ---------------------------------------------------------------------
  // Requests the server cannot read
  // ---------------------------------------------------------------------

  /** A type with a path. */
  predicate NeedsPath(kind: Byte) { kind in [3, 7, 9, 11, 13, 14, 15, 16, 17, 18] }

  lemma Unread(kind: Byte, b: seq<Byte>)
    ensures !KnownKind(kind) ==> ParseRequest(kind, b) == Unsupported
    ensures NeedsPath(kind) && TakePath(b).Short? ==> ParseRequest(kind, b) == BadMessage
  {
    hide TakePath, TakeString, TakeAttrs, TakeU32, TakeU64, Text;
  }

  /** Types the server does not know, paths that are not text, and messages that are too long are refused, and change nothing. */
  lemma UnreadTold(env: Env, c: Core, m: Message)
    requires EnvOk(env) && Wf(env, c) && c.mode.Idle? && Proper(m) && Kind(m) != FXP_WRITE && Kind(m) != FXP_INIT
    ensures var s, short := ServeMessage(env, c, m), |m| - 4 <= 4096;
            && (!short ==> TellsStatus(s.out, 5) && s.core == c)
            && (short && !KnownKind(Kind(m)) ==> TellsStatus(s.out, 8) && s.core == c)
            && (short && NeedsPath(Kind(m)) && TakePath(m[9..]).Short? ==> TellsStatus(s.out, 5) && s.core == c)
  {
    hide EnvOk, Wf, ParseRequest, VersionReply, FromBe32, HandleLength, TellsStatus, StatusReply, KnownKind, NeedsPath, TakePath, Text, Completed;
    StatusRead(IdIn(m), REQUEST_TOO_LARGE);
    StatusRead(IdIn(m), UNSUPPORTED);
    StatusRead(IdIn(m), BAD_MESSAGE);
    if |m| - 4 <= MAX_REQUEST {
      DispatchOk(env, c, Kind(m), m[5..]);
      assert m[5..][..4] == m[5..9] && m[5..][4..] == m[9..];
      Unread(Kind(m), m[9..]);
      var s := Dispatch(env, c, Kind(m), m[5..]);
      if s.core == c { CompletedIdle(env, s); }
    }
  }

  function Pair(name: string, version: string): seq<Byte> { Str(Text(name)) + Str(Text(version)) }

  /** INIT is answered with version 3 and the names and versions of the four extensions, whatever the client's version. */
  lemma VersionTold(env: Env, c: Core, m: Message)
    requires EnvOk(env) && Wf(env, c) && c.mode.Idle? && Proper(m) && Kind(m) == 1 && |m| - 4 <= 4096
    ensures var s := ServeMessage(env, c, m);
            && s.core == c && |s.out| >= 9 && s.out[4] == 2 && WordAt(s.out, 5) == 3
            && s.out[9..] == Pair("fsync@openssh.com", "1") + Pair("statvfs@openssh.com", "2") + Pair("fstatvfs@openssh.com", "2") + Pair("limits@openssh.com", "1")
  {
    hide EnvOk, Wf, FromBe32, HandleLength, VersionReply, Pair, Completed;
    DispatchOk(env, c, FXP_INIT, m[5..]);
    CompletedIdle(env, Served(c, VersionReply()));
    VersionRead();
  }

  lemma VersionRead()
    ensures var v := VersionReply();
            && |v| >= 9 && v[4] == 2 && WordAt(v, 5) == 3
            && v[9..] == Pair("fsync@openssh.com", "1") + Pair("statvfs@openssh.com", "2") + Pair("fstatvfs@openssh.com", "2") + Pair("limits@openssh.com", "1")
  {
    hide Be32, FromBe32, Pair, ExtensionBytes;
    var v := VersionReply();
    Be32RoundTrip(3);
    assert v[5..9] == Be32(3) && v[9..] == ExtensionBytes(EXTENSIONS);
    PairsInOrder();
  }

  lemma PairsInOrder()
    ensures ExtensionBytes(EXTENSIONS) ==
            Pair("fsync@openssh.com", "1") + Pair("statvfs@openssh.com", "2") + Pair("fstatvfs@openssh.com", "2") + Pair("limits@openssh.com", "1")
  {
    hide Pair, ExtensionBytes;
    var e := EXTENSIONS;
    PairLast([], e[0].0, e[0].1);
    PairLast([e[0]], e[1].0, e[1].1);
    PairLast([e[0], e[1]], e[2].0, e[2].1);
    PairLast([e[0], e[1], e[2]], e[3].0, e[3].1);
    NoPairs();
    assert e == [e[0], e[1], e[2]] + [e[3]] && [e[0], e[1], e[2]] == [e[0], e[1]] + [e[2]] && [e[0], e[1]] == [e[0]] + [e[1]] && [e[0]] == [] + [e[0]];
  }

  lemma NoPairs()
    ensures ExtensionBytes([]) == []
  {
  }

  lemma PairLast(before: seq<(string, string)>, name: string, version: string)
    ensures ExtensionBytes(before + [(name, version)]) == ExtensionBytes(before) + Pair(name, version)
  {
    hide Text, Str;
    assert (before + [(name, version)])[..|before|] == before;
    assert ExtensionBytes(before) + (Str(Text(name)) + Str(Text(version))) == ExtensionBytes(before) + Str(Text(name)) + Str(Text(version));
  }

  // ---------------------------------------------------------------------
  // Bytes that are no messages
  // ---------------------------------------------------------------------

  /** A header the server gives up on: empty, a WRITE with a long handle or fields that do not add up to it, or too short for an id. */
  predicate Unframed(x: seq<Byte>)
    requires |x| >= 5
  {
    var length := FromBe32(x[..4]);
    length == 0 ||
    if x[4] == 6 then
      |x| >= 13 && var h := HandleLength(x);
      h > 64 || (|x| >= 25 + h && length != (21 + h + FromBe32(x[21 + h..25 + h])) % 0x1_0000_0000)
    else x[4] != 1 && length < 5 && |x| >= 4 + length
  }

  /** More has to come before the server does anything, or it can do nothing at all. */
  predicate Unfinished(x: seq<Byte>) {
    |x| < 5 ||
    var length := FromBe32(x[..4]);
    length > 0 &&
    if x[4] == 6 then |x| < 13 || (HandleLength(x) <= 64 && |x| < 25 + HandleLength(x))
    else if length > 4096 then |x| < 9 || length == 0xFFFF_FFFC
    else |x| < 4 + length
  }

  /** Between messages the session ends exactly on such headers, in silence, and waits exactly for such beginnings. */
  lemma FirstUnit(env: Env, c: Core, x: seq<Byte>)
    requires EnvOk(env) && Wf(env, c) && c.mode.Idle?
    ensures var u := Next(env, c, x);
            && (u.Stuck? <==> Unfinished(x))
            && (u.Worked? && u.core.mode.Fatal? <==> |x| >= 5 && Unframed(x))
            && (u.Worked? && u.core.mode.Fatal? ==> u.out == [] && u.core.root == c.root)
  {
    hide EnvOk, Wf, FromBe32, CheckWrite, Dispatch, StatusReply;
    if |x| >= 5 {
      var length := FromBe32(x[..4]);
      if length > 0 && x[4] != 6 {
        if length > 4096 {
          WrapExact(4 + length);
        } else if |x| >= 4 + length {
          DispatchEnds(env, c, x[4], x[5..4 + length]);
        }
      }
    }
  }

  lemma DispatchEnds(env: Env, c: Core, kind: Byte, body: seq<Byte>)
    requires EnvOk(env) && Wf(env, c) && c.mode.Idle?
    ensures var s := Dispatch(env, c, kind, body);
            && (s.core.mode.Fatal? <==> kind != 1 && |body| < 4)
            && (s.core.mode.Fatal? ==> s.out == [] && s.core.root == c.root)
  {
    hide EnvOk, Wf, Serve, ParseRequest, VersionReply, FromBe32;
    if |body| >= 4 { NotFatal(env, c, kind, body); }
  }
}
