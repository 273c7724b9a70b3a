/** Handle tokens over whole conversations: which ones the server accepts. */
module SftpTokens {
  import opened Bytes
  import opened FatTree
  import opened FsPath
  import opened Wire
  import opened SftpVolume
  import opened SftpModel
  import opened SftpStream
  import opened SftpWrites
  import opened SftpRequests

  // ---------------------------------------------------------------------
  // What requests do to the handle table
  // ---------------------------------------------------------------------

  /** The same handles are open under the same tokens. */
  predicate SameTable(c: Core, d: Core) {
    && d.tokens == c.tokens && d.generation == c.generation && |d.slots| == |c.slots|
    && forall i :: 0 <= i < |c.slots| ==> (d.slots[i].Free? <==> c.slots[i].Free?)
  }

  /** Slot `i` was free and now holds a handle under the next token. */
  predicate OpensSlot(c: Core, d: Core, i: nat) {
    && i < |c.slots| && i < |c.tokens| && c.slots[i].Free? && |d.slots| == |c.slots| && !d.slots[i].Free?
    && d.generation == (c.generation + 1) % GENERATIONS && d.tokens == c.tokens[i := TokenFor(d.generation, i)]
    && forall k :: 0 <= k < |c.slots| && k != i ==> (d.slots[k].Free? <==> c.slots[k].Free?)
  }

  ghost predicate NewHandle(c: Core, d: Core) { exists i :: OpensSlot(c, d, i) }

  predicate ClosesSlot(c: Core, d: Core, token: Token) {
    var slot := SlotOf(c, token);
    slot.Some? && d.slots == c.slots[slot.value := Free] && d.tokens == c.tokens && d.generation == c.generation
  }

  lemma AllocatedOpens(c: Core, s: Slot)
    requires !s.Free?
    ensures var a := Allocated(c, s); a.Some? ==> NewHandle(c, a.value.0)
  {
    var a := Allocated(c, s);
    if a.Some? { assert OpensSlot(c, a.value.0, a.value.1); }
  }

  lemma NewHandleFrom(c: Core, c1: Core, d: Core)
    requires c1.slots == c.slots && c1.tokens == c.tokens && c1.generation == c.generation && NewHandle(c1, d)
    ensures NewHandle(c, d)
  {
    var i :| OpensSlot(c1, d, i);
    assert OpensSlot(c, d, i);
  }

  lemma OpenTable(env: Env, c: Core, id: nat, path: Path, flags: nat, attrs: RequestedAttrs)
    requires EnvOk(env)
    ensures var d := ServeOpen(env, c, id, path, flags, attrs).core; SameTable(c, d) || NewHandle(c, d)
  {
    hide EnvOk, StatusReply, HandleReply, AttrsRefusal, OpenTarget, Allocated, NewHandle, Text, Bit;
    if AttrsRefusal(env, attrs).None? && path != [] {
      var target := OpenTarget(env, c.root, c.nextId, path[..|path| - 1], path[|path| - 1], flags, attrs);
      if target.Target? {
        var c1 := c.(root := target.root, nextId := target.nextId);
        var s := FileSlot(path[..|path| - 1], path[|path| - 1], Bit(flags, 1) || !Bit(flags, 2), Bit(flags, 2), Bit(flags, 4));
        AllocatedOpens(c1, s);
        if Allocated(c1, s).Some? { NewHandleFrom(c, c1, Allocated(c1, s).value.0); }
      }
    }
  }

  lemma OpenDirTable(c: Core, id: nat, path: Path)
    ensures var d := ServeOpenDir(c, id, path).core; SameTable(c, d) || NewHandle(c, d)
  {
    hide StatusReply, HandleReply, Allocated, NewHandle, Text, Lookup;
    AllocatedOpens(c, DirSlot(path, 0));
  }

  lemma CloseTable(c: Core, id: nat, token: Token)
    ensures var d := ServeClose(c, id, token).core; SameTable(c, d) || ClosesSlot(c, d, token)
    ensures SlotOf(c, token).Some? ==> ClosesSlot(c, ServeClose(c, id, token).core, token)
  {
    hide StatusReply, SlotOf;
  }

  lemma ReadDirTable(env: Env, c: Core, id: nat, token: Token)
    ensures SameTable(c, ServeReadDir(env, c, id, token).core)
  {
    hide StatusReply, NamesReply, NamesBytes, Batch, Lookup, Text, FromBe32;
  }

  lemma RemovalTable(c: Core, id: nat, path: Path)
    ensures SameTable(c, ServeRemove(c, id, path).core) && SameTable(c, ServeRmDir(c, id, path).core)
  {
    hide StatusReply, Lookup, Text, Removed, OpenBelow;
  }

  lemma MkDirTable(env: Env, c: Core, id: nat, path: Path, attrs: RequestedAttrs)
    ensures SameTable(c, ServeMkDir(env, c, id, path, attrs).core)
  {
    hide StatusReply, Lookup, Text, Added, AttrsRefusal, NewMeta;
  }

  lemma SetStatTable(env: Env, c: Core, id: nat, path: Path, attrs: RequestedAttrs)
    requires EnvOk(env)
    ensures SameTable(c, ServeSetStat(env, c, id, path, attrs).core)
  {
    hide EnvOk, StatusReply, Lookup, Text, AttrsRefusal, Settled;
  }

  lemma RenameTable(env: Env, c: Core, id: nat, source: Path, target: Path)
    ensures SameTable(c, ServeRename(env, c, id, source, target).core)
  {
    hide StatusReply, Lookup, Text, Renamed, OpenBelow, Inside, SamePath;
  }

  lemma ReadTable(c: Core, id: nat, token: Token, offset: nat, wanted: nat)
    ensures SameTable(c, ServeRead(c, id, token, offset, wanted).core)
  {
    hide StatusReply, Lookup, Text, SlotOf, DataHeader;
  }

  lemma FSetStatTable(env: Env, c: Core, id: nat, token: Token, attrs: RequestedAttrs)
    requires EnvOk(env)
    ensures SameTable(c, ServeFSetStat(env, c, id, token, attrs).core)
  {
    hide EnvOk, StatusReply, Text, SlotOf, ServeSetStat;
    var slot := SlotOf(c, token);
    if slot.Some? { SetStatTable(env, c, id, PathOf(c.slots[slot.value]), attrs); }
  }

  lemma ServeTable(env: Env, c: Core, id: nat, r: Request)
    requires EnvOk(env)
    ensures var d := Serve(env, c, id, r).core;
            if r.Close? then d == ServeClose(c, id, r.token).core else SameTable(c, d) || NewHandle(c, d)
  {
    hide EnvOk, Resolved, SameTable, NewHandle, ServeOpenDir, ServeReadDir, ServeOpen, ServeClose, ServeRead, ServeRemove, ServeMkDir,
         ServeRmDir, ServeRename, ServeSetStat, ServeFSetStat, ServeRealPath, ServeStat, ServeFStat, WordsReply, ServeFSync, ServeStatVfs,
         ServeFStatVfs, Refuse, Text;
    match r
    case OpenDir(path) => OpenDirTable(c, id, Resolved([], path));
    case ReadDir(token) => ReadDirTable(env, c, id, token);
    case Open(path, flags, attrs) => OpenTable(env, c, id, Resolved([], path), flags, attrs);
    case Close(token) =>
    case Read(token, offset, wanted) => ReadTable(c, id, token, offset, wanted);
    case Remove(path) => RemovalTable(c, id, Resolved([], path));
    case MkDir(path, attrs) => MkDirTable(env, c, id, Resolved([], path), attrs);
    case RmDir(path) => RemovalTable(c, id, Resolved([], path));
    case Rename(source, target) => RenameTable(env, c, id, Resolved([], source), Resolved([], target));
    case SetStat(path, attrs) => SetStatTable(env, c, id, Resolved([], path), attrs);
    case FSetStat(token, attrs) => FSetStatTable(env, c, id, token, attrs);
    case _ =>
      QueryChangesNothing(env, c, id, r);
      TableItself(c);
  }

  lemma TableItself(c: Core)
    ensures SameTable(c, c)
  {
  }

  // ---------------------------------------------------------------------
  // Whole messages
  // ---------------------------------------------------------------------

  lemma {:induction false} PayloadTable(env: Env, c: Core, data: seq<Byte>)
    requires Wf(env, c) && c.mode.Writing? && |data| == c.mode.write.remaining
    ensures var d := AfterPayload(env, c, data); d.slots == c.slots && d.tokens == c.tokens && d.generation == c.generation
    decreases |data|
  {
    hide Wf, StoreChunk;
    if data != [] {
      var n := Min(|data|, WRITE_CHUNK);
      SlotHeld(env, c);
      ChunkOk(env, c, c.mode.write, data[..n]);
      ChunkCounts(env, c, c.mode.write, data[..n]);
      PayloadTable(env, AfterChunk(env, c, c.mode.write, data[..n]), data[n..]);
    }
  }

  /** The token a CLOSE carries, as a number. */
  function ClosedToken(m: Message): Option<Token> {
    if Kind(m) != FXP_CLOSE || |m| < 9 || |m| - 4 > MAX_REQUEST then None
    else
      var t := TakeString(m[9..]);
      if t.Got? then Some(t.value) else None
  }

  lemma CompletedTable(env: Env, s: Served)
    requires Wf(env, s.core)
    ensures var d := Completed(env, s).core; d.slots == s.core.slots && d.tokens == s.core.tokens && d.generation == s.core.generation
  {
    hide Wf, FinishGrowth, StatusReply, FileAt;
  }

  lemma DispatchTable(env: Env, c: Core, m: Message)
    requires EnvOk(env) && Wf(env, c) && c.mode.Idle? && |m| - 4 <= MAX_REQUEST
    ensures var d := Dispatch(env, c, Kind(m), m[5..]).core;
            if ClosedToken(m).Some? then d == ServeClose(c, FromBe32(m[5..9]), ClosedToken(m).value).core
            else SameTable(c, d) || NewHandle(c, d)
  {
    hide EnvOk, Wf, Serve, VersionReply, FromBe32, NewHandle, SameTable, ServeClose, TakeString;
    TableItself(c);
    if Kind(m) != FXP_INIT && |m| >= 9 {
      assert m[5..][..4] == m[5..9] && m[5..][4..] == m[9..];
      var id := FromBe32(m[5..9]);
      TokenRequests(Kind(m), m[9..]);
      ServeTable(env, c, id, ParseRequest(Kind(m), m[9..]));
      OnlyCloseCloses(Kind(m), m[9..]);
    } else {
      FatalTable(c);
    }
  }

  lemma FatalTable(c: Core)
    ensures SameTable(c, c.(mode := Fatal))
  {
  }

  lemma OnlyCloseCloses(kind: Byte, b: seq<Byte>)
    ensures ParseRequest(kind, b).Close? <==> kind == FXP_CLOSE && TakeString(b).Got?
  {
    hide TakePath, TakeAttrs, TakeString, TakeU32, TakeU64, Text;
  }

  lemma MessageTable(env: Env, c: Core, m: Message)
    requires EnvOk(env) && Wf(env, c) && c.mode.Idle? && Proper(m)
    ensures var d := ServeMessage(env, c, m).core;
            if ClosedToken(m).Some? then SameTable(c, d) || ClosesSlot(c, d, ClosedToken(m).value) else SameTable(c, d) || NewHandle(c, d)
    ensures var d := ServeMessage(env, c, m).core;
            ClosedToken(m).Some? && SlotOf(c, ClosedToken(m).value).Some? ==> ClosesSlot(c, d, ClosedToken(m).value)
  {
    hide EnvOk, Wf, Dispatch, Completed, FromBe32, SlotOf, TakeString, StatusReply, CheckWrite, WriteReply, ServeClose;
    if Kind(m) == FXP_WRITE {
      WriteStartedOk(env, c, m);
      PayloadTable(env, WriteStarted(c, m), WriteData(m));
    } else if |m| - 4 <= MAX_REQUEST {
      DispatchOk(env, c, Kind(m), m[5..]);
      DispatchTable(env, c, m);
      var s := Dispatch(env, c, Kind(m), m[5..]);
      CompletedTable(env, s);
      if ClosedToken(m).Some? {
        CloseTable(c, FromBe32(m[5..9]), ClosedToken(m).value);
      } else if NewHandle(c, s.core) {
        var i :| OpensSlot(c, s.core, i);
        assert OpensSlot(c, Completed(env, s).core, i);
      }
    }
  }

  // ---------------------------------------------------------------------
  // Token lives
  // ---------------------------------------------------------------------

  /** Token number `t` belongs to a handle that is open. */
  predicate Live(c: Core, t: nat) {
    var i := t % 256;
    i < |c.slots| && i < |c.tokens| && !c.slots[i].Free? && c.tokens[i] == t
  }

  /** The server accepts exactly the live tokens. */
  lemma AcceptedWhenLive(c: Core, token: Token)
    ensures SlotOf(c, token).Some? <==> |token| == 4 && Live(c, FromBe32(token))
    ensures SlotOf(c, token).Some? ==> SlotOf(c, token).value == FromBe32(token) % 256
  {
  }

  /** Every open handle's token names its slot. */
  predicate TableOk(c: Core) {
    |c.tokens| == |c.slots| && |c.slots| <= 256 && forall i :: 0 <= i < |c.slots| && !c.slots[i].Free? ==> c.tokens[i] % 256 == i
  }

  /** No two open handles share a token. */
  predicate Distinct(c: Core) {
    |c.tokens| == |c.slots| &&
    forall i, j :: 0 <= i < j < |c.slots| && !c.slots[i].Free? && !c.slots[j].Free? ==> c.tokens[i] != c.tokens[j]
  }

  lemma TokensDistinct(c: Core)
    requires TableOk(c)
    ensures Distinct(c)
  {
  }

  lemma TokenNamesSlot(generation: nat, i: nat)
    requires i < 256
    ensures TokenFor(generation, i) % 256 == i && TokenFor(generation, i) / 256 == generation
  {
  }

  lemma TableStaysOk(env: Env, c: Core, m: Message)
    requires EnvOk(env) && Wf(env, c) && c.mode.Idle? && Proper(m) && TableOk(c)
    ensures TableOk(ServeMessage(env, c, m).core)
  {
    hide EnvOk, Wf, ServeMessage, Proper, ClosedToken;
    MessageTable(env, c, m);
    var d := ServeMessage(env, c, m).core;
    if !SameTable(c, d) && NewHandle(c, d) {
      var i :| OpensSlot(c, d, i);
      TokenNamesSlot(d.generation, i);
    }
  }

  /** Over every conversation the tokens of open handles stay pairwise different. */
  lemma {:induction false} TokensStayDistinct(env: Env, c: Core, messages: seq<Message>)
    requires EnvOk(env) && Wf(env, c) && c.mode.Idle? && AllProper(messages) && TableOk(c)
    ensures Distinct(Conversation(env, c, messages).core)
    decreases |messages|
  {
    hide EnvOk, Wf, ServeMessage, Proper, IsReplyTo, Distinct, TableOk;
    if messages == [] {
      TokensDistinct(c);
    } else {
      ReadyAgain(env, c, messages[0]);
      TableStaysOk(env, c, messages[0]);
      TokensStayDistinct(env, ServeMessage(env, c, messages[0]).core, messages[1..]);
    }
  }

  /** How many handles a conversation allocates. */
  function Allocations(env: Env, c: Core, messages: seq<Message>): nat
    requires EnvOk(env) && Wf(env, c) && c.mode.Idle? && AllProper(messages)
    decreases |messages|
  {
    if messages == [] then 0
    else
      var d := ServeMessage(env, c, messages[0]).core;
      ReadyAgain(env, c, messages[0]);
      (if d.generation != c.generation then 1 else 0) + Allocations(env, d, messages[1..])
  }

  /** The token was issued `age` allocations ago. */
  predicate Aged(c: Core, t: nat, age: nat) { t / 256 < GENERATIONS && c.generation == (t / 256 + age) % GENERATIONS }

  /** The token slot `t % 256` gets `a` allocations after `t` was issued. */
  predicate IssuedLater(token: nat, t: nat, a: nat) { token == TokenFor((t / 256 + a) % GENERATIONS, t % 256) }

  /** Its handle was closed; the slot is free, or holds a handle issued since. */
  ghost predicate Dead(c: Core, t: nat, age: nat) {
    var i := t % 256;
    i < |c.slots| && i < |c.tokens| &&
    (c.slots[i].Free? || exists a :: 0 < a <= age && IssuedLater(c.tokens[i], t, a))
  }

  lemma DeadIsNotLive(c: Core, t: nat, age: nat)
    requires Dead(c, t, age) && t / 256 < GENERATIONS && age < GENERATIONS
    ensures !Live(c, t)
  {
    var i := t % 256;
    if !c.slots[i].Free? {
      var a :| 0 < a <= age && IssuedLater(c.tokens[i], t, a);
      Later(t / 256, a);
      TokenNamesSlot((t / 256 + a) % GENERATIONS, i);
    }
  }

  lemma Later(g: nat, a: nat)
    requires g < GENERATIONS && 0 < a < GENERATIONS
    ensures (g + a) % GENERATIONS != g
  {
  }

  lemma NextGeneration(g: nat, age: nat)
    ensures ((g + age) % GENERATIONS + 1) % GENERATIONS == (g + (age + 1)) % GENERATIONS
    ensures ((g + age) % GENERATIONS + 1) % GENERATIONS != (g + age) % GENERATIONS
  {
  }

  predicate Carries(m: Message, t: nat) {
    var closed := ClosedToken(m);
    closed.Some? && |closed.value| == 4 && FromBe32(closed.value) == t
  }

  function AgeAfter(c: Core, d: Core, age: nat): nat { if d.generation != c.generation then age + 1 else age }

  /** One message: an open handle stays open unless it is closed, and a closed one does not come back. */
  lemma OneMessage(env: Env, c: Core, m: Message, t: nat, age: nat)
    requires EnvOk(env) && Wf(env, c) && c.mode.Idle? && Proper(m) && Aged(c, t, age)
    ensures var d := ServeMessage(env, c, m).core;
            && Aged(d, t, AgeAfter(c, d, age))
            && (Live(c, t) && !Carries(m, t) ==> Live(d, t))
            && (Live(c, t) && Carries(m, t) ==> Dead(d, t, AgeAfter(c, d, age)))
            && (Dead(c, t, age) ==> Dead(d, t, AgeAfter(c, d, age)))
  {
    hide EnvOk, Wf, ServeMessage, Proper, ClosedToken, SlotOf;
    var d := ServeMessage(env, c, m).core;
    MessageTable(env, c, m);
    NextGeneration(t / 256, age);
    var closed := ClosedToken(m);
    if closed.Some? {
      AcceptedWhenLive(c, closed.value);
      DeadStays(c, d, t, age);
    } else if !SameTable(c, d) {
      var i :| OpensSlot(c, d, i);
      DeadReused(c, d, t, age, i);
    } else {
      DeadStays(c, d, t, age);
    }
  }

  lemma DeadStays(c: Core, d: Core, t: nat, age: nat)
    requires |d.slots| == |c.slots| && d.tokens == c.tokens && (t % 256 < |c.slots| && c.slots[t % 256].Free? ==> d.slots[t % 256].Free?)
    ensures Dead(c, t, age) ==> Dead(d, t, age)
  {
  }

  lemma DeadReused(c: Core, d: Core, t: nat, age: nat, i: nat)
    requires OpensSlot(c, d, i) && d.generation == (t / 256 + (age + 1)) % GENERATIONS
    ensures Dead(c, t, age) ==> Dead(d, t, age + 1)
  {
    hide TokenFor;
    if Dead(c, t, age) {
      if i == t % 256 {
        assert IssuedLater(d.tokens[i], t, age + 1);
      } else if !c.slots[t % 256].Free? {
        var a :| 0 < a <= age && IssuedLater(c.tokens[t % 256], t, a);
        assert IssuedLater(d.tokens[t % 256], t, a);
      }
    }
  }

  /** A closed handle's token is refused for fewer than 2^24 allocations after it was issued. */
  lemma {:induction false} StaysDead(env: Env, c: Core, messages: seq<Message>, t: nat, age: nat)
    requires EnvOk(env) && Wf(env, c) && c.mode.Idle? && AllProper(messages) && Aged(c, t, age) && Dead(c, t, age)
    requires age + Allocations(env, c, messages) < GENERATIONS
    ensures !Live(Conversation(env, c, messages).core, t)
    decreases |messages|
  {
    hide EnvOk, Wf, ServeMessage, Proper, IsReplyTo, Dead, Live, Aged;
    if messages == [] {
      DeadIsNotLive(c, t, age) by { Bounded(c, t, age); }
    } else {
      var d := ServeMessage(env, c, messages[0]).core;
      ReadyAgain(env, c, messages[0]);
      OneMessage(env, c, messages[0], t, age);
      StaysDead(env, d, messages[1..], t, AgeAfter(c, d, age));
    }
  }

  lemma Bounded(c: Core, t: nat, age: nat)
    requires Aged(c, t, age)
    ensures t / 256 < GENERATIONS
  {
  }

  /** A token is accepted exactly as long as its handle has not been closed, for fewer than 2^24 allocations after it was issued. */
  lemma {:induction false} TokenLife(env: Env, c: Core, messages: seq<Message>, t: nat, age: nat)
    requires EnvOk(env) && Wf(env, c) && c.mode.Idle? && AllProper(messages) && Aged(c, t, age) && Live(c, t)
    requires age + Allocations(env, c, messages) < GENERATIONS
    ensures Live(Conversation(env, c, messages).core, t) <==> forall i :: 0 <= i < |messages| ==> !Carries(messages[i], t)
    decreases |messages|
  {
    hide EnvOk, Wf, ServeMessage, Proper, IsReplyTo, Dead, Live, Aged, Carries;
    if messages != [] {
      var d := ServeMessage(env, c, messages[0]).core;
      ReadyAgain(env, c, messages[0]);
      OneMessage(env, c, messages[0], t, age);
      var rest := messages[1..];
      if Carries(messages[0], t) {
        StaysDead(env, d, rest, t, AgeAfter(c, d, age));
      } else {
        TokenLife(env, d, rest, t, AgeAfter(c, d, age));
        assert forall i :: 0 < i < |messages| ==> messages[i] == rest[i - 1];
        assert forall i :: 0 <= i < |rest| ==> rest[i] == messages[i + 1];
      }
    }
  }
}
