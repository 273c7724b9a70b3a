/** Which messages can be trusted: handles lose their file by REMOVE, RMDIR and RENAME only, and CLOSE forgets that they did. */
module SftpTrust {
  import opened Bytes
  import opened FatTree
  import opened FsPath
  import opened Wire
  import opened SftpVolume
  import opened SftpModel
  import opened SftpStream
  import opened SftpWrites
  import opened SftpRequests
  import opened SftpFollows

  predicate IsRemoval(r: Request) { r.Remove? || r.RmDir? || r.Rename? }

  lemma HandleLost(env: Env, c: Core, id: nat, path: Path, token: Token)
    ensures ServeOpenDir(c, id, path).core.lost == c.lost && ServeReadDir(env, c, id, token).core.lost == c.lost
    ensures var slot := SlotOf(c, token);
            ServeClose(c, id, token).core.lost == if slot.Some? then c.lost - {slot.value} else c.lost
  {
    hide StatusReply, NamesReply, NamesBytes, HandleReply, Batch, Lookup, Text, SlotOf;
  }

  lemma OpenLost(env: Env, c: Core, id: nat, path: Path, flags: nat, attrs: RequestedAttrs)
    requires EnvOk(env)
    ensures ServeOpen(env, c, id, path, flags, attrs).core.lost == c.lost
  {
    hide EnvOk, StatusReply, HandleReply, AttrsRefusal, OpenTarget, Text, Bit;
  }

  /** CLOSE takes its own handle off the record, and no other request but a removal or renaming changes it. */
  lemma ServeLost(env: Env, c: Core, id: nat, r: Request)
    requires EnvOk(env) && !IsRemoval(r)
    ensures Serve(env, c, id, r).core.lost == if r.Close? && SlotOf(c, r.token).Some? then c.lost - {SlotOf(c, r.token).value} else c.lost
  {
    hide EnvOk, Resolved, SlotOf, ServeOpenDir, ServeReadDir, ServeOpen, ServeClose, ServeRead, ServeRemove, ServeMkDir, ServeRmDir, ServeRename,
         ServeSetStat, ServeFSetStat, ServeRealPath, ServeStat, ServeFStat, WordsReply, ServeFSync, ServeStatVfs, ServeFStatVfs, Refuse, Text;
    match r
    case OpenDir(path) => HandleLost(env, c, id, Resolved([], path), []);
    case ReadDir(token) => HandleLost(env, c, id, [], token);
    case Close(token) => HandleLost(env, c, id, [], token);
    case Open(path, flags, attrs) => OpenLost(env, c, id, Resolved([], path), flags, attrs);
    case Read(token, offset, wanted) => ReadHandles(c, id, token, offset, wanted);
    case MkDir(path, attrs) => MkDirHandles(env, c, id, Resolved([], path), attrs);
    case SetStat(path, attrs) => SetStatHandles(env, c, id, Resolved([], path), attrs);
    case FSetStat(token, attrs) => FSetStatHandles(env, c, id, token, attrs);
    case _ => QueryChangesNothing(env, c, id, r);
  }

  /** A message that removes or renames something. */
  predicate Removes(m: Message) { Kind(m) == FXP_REMOVE || Kind(m) == FXP_RMDIR || Kind(m) == FXP_RENAME }

  lemma ParsedRemovals(kind: Byte, b: seq<Byte>)
    requires kind != FXP_REMOVE && kind != FXP_RMDIR && kind != FXP_RENAME
    ensures !IsRemoval(ParseRequest(kind, b))
  {
    hide TakePath, TakeAttrs, TakeString, TakeU32, TakeU64, Text;
  }

  lemma {:induction false} PayloadLost(env: Env, c: Core, data: seq<Byte>)
    requires Wf(env, c) && c.mode.Writing? && |data| == c.mode.write.remaining
    ensures AfterPayload(env, c, data).lost == c.lost
    decreases |data|
  {
    hide Wf, StoreChunk;
    if data != [] {
      var n := Min(|data|, WRITE_CHUNK);
      SlotHeld(env, c);
      ChunkOk(env, c, c.mode.write, data[..n]);
      ChunkCounts(env, c, c.mode.write, data[..n]);
      PayloadLost(env, AfterChunk(env, c, c.mode.write, data[..n]), data[n..]);
    }
  }

  /** Only removing and renaming take files away from handles. */
  lemma MessageLost(env: Env, c: Core, m: Message)
    requires EnvOk(env) && Wf(env, c) && c.mode.Idle? && Proper(m) && !Removes(m)
    ensures ServeMessage(env, c, m).core.lost <= c.lost
  {
    hide EnvOk, Wf, Serve, VersionReply, FromBe32, StatusReply, CheckWrite, WriteReply, ParseRequest, FinishGrowth;
    if Kind(m) == FXP_WRITE {
      WriteStartedOk(env, c, m);
      PayloadLost(env, WriteStarted(c, m), WriteData(m));
    } else if |m| - 4 <= MAX_REQUEST && Kind(m) != FXP_INIT {
      var id := TakeU32(m[5..]);
      DispatchOk(env, c, Kind(m), m[5..]);
      ParsedRemovals(Kind(m), id.rest);
      ServeLost(env, c, id.value, ParseRequest(Kind(m), id.rest));
    }
  }

  /** A session that has lost no file, and removes and renames nothing, is served exactly as the reference says. */
  lemma {:induction false} NothingRemoved(env: Env, c: Core, messages: seq<Message>)
    requires EnvOk(env) && Wf(env, c) && c.mode.Idle? && AllProper(messages) && c.lost == {}
    requires forall i :: 0 <= i < |messages| ==> !Removes(messages[i])
    ensures AllTrusted(env, c, messages)
    decreases |messages|
  {
    hide EnvOk, Wf, ServeMessage, Proper, IsReplyTo, Trusted;
    if messages != [] {
      ReadyAgain(env, c, messages[0]);
      NoneLost(env, c, messages[0]);
      MessageLost(env, c, messages[0]);
      NothingRemoved(env, ServeMessage(env, c, messages[0]).core, messages[1..]);
    }
  }
}
