/**
 Requests one at a time: what a whole message means, and that serving a stream of
 messages is serving each of them and sending its one reply.
 */
module SftpRequests {
  import opened Bytes
  import opened FatTree
  import opened FatFile
  import opened Wire
  import opened SftpVolume
  import opened SftpModel
  import opened SftpStream
  import opened SftpRuns
  import opened SftpMachine
  import opened SftpReplies
  import opened SftpWrites

  type Message = m: seq<Byte> | |m| >= 5 witness [0, 0, 0, 0, 0]

  function Kind(m: Message): Byte { m[4] }

  /** The length of a WRITE's handle. */
  function HandleLength(m: seq<Byte>): nat
    requires |m| >= 13
  {
    FromBe32(m[9..13])
  }

  /** A message as long as it declares, with an id where one is needed and, for WRITE, fields that fill it. */
  predicate Proper(m: Message) {
    && |m| < U32_LIMIT && FromBe32(m[..4]) == |m| - 4
    && if Kind(m) == FXP_WRITE then |m| >= 13 && HandleLength(m) <= 64 && |m| >= 25 + HandleLength(m) &&
            FromBe32(m[21 + HandleLength(m)..25 + HandleLength(m)]) == |m| - 25 - HandleLength(m)
       else |m| >= 9 || Kind(m) == FXP_INIT
  }

  // ---------------------------------------------------------------------
  // One message served as a whole
  // ---------------------------------------------------------------------

  /** The payload of a DATA reply, or the growth a SETSTAT started. */
  function Completed(env: Env, s: Served): Served
    requires Wf(env, s.core)
  {
    match s.core.mode
    case Reading(r) =>
      ReadPromised(env, s.core);
      var data := FileAt(s.core.root, PathOf(s.core.slots[r.slot])).value.data;
      Served(s.core.(mode := Idle), s.out + data[r.offset..r.offset + r.remaining])
    case Growing(g) =>
      GrowthFits(env, s.core);
      (match FinishGrowth(env, s.core.root, g.path, g.attrs)
       case Stored(root) => Served(s.core.(root := root, mode := Idle), s.out + StatusReply(g.id, OK))
       case Refused(status) => Served(s.core.(mode := Idle), s.out + StatusReply(g.id, status)))
    case _ => s
  }

  function WriteOffset(m: Message): nat
    requires Proper(m) && Kind(m) == FXP_WRITE
  {
    var h := HandleLength(m);
    FromBe32(m[13 + h..17 + h]) * U32_LIMIT + FromBe32(m[17 + h..21 + h])
  }

  function WriteToken(m: Message): Token
    requires Proper(m) && Kind(m) == FXP_WRITE
  {
    m[13..13 + HandleLength(m)]
  }

  function WriteData(m: Message): seq<Byte>
    requires Proper(m) && Kind(m) == FXP_WRITE
  {
    m[25 + HandleLength(m)..]
  }

  function IdIn(m: Message): nat
    requires |m| >= 9
  {
    FromBe32(m[5..9])
  }

  /** A WRITE before its payload is used. */
  function WriteStarted(c: Core, m: Message): Core
    requires Proper(m) && Kind(m) == FXP_WRITE
  {
    var length := |WriteData(m)|;
    match CheckWrite(c, WriteToken(m), WriteOffset(m), length)
    case Pass(slot) => c.(mode := Writing(WriteStream(IdIn(m), slot, length, WriteOffset(m), None)))
    case Fail(status) => c.(mode := Writing(WriteStream(IdIn(m), 0, length, WriteOffset(m), Some(status))))
  }

  lemma WriteStartedOk(env: Env, c: Core, m: Message)
    requires Wf(env, c) && c.mode.Idle? && Proper(m) && Kind(m) == FXP_WRITE
    ensures Wf(env, WriteStarted(c, m))
  {
    hide TreeOk, EnvOk, SlotOf;
    CheckedSlot(c, WriteToken(m));
  }

  function ServeMessage(env: Env, c: Core, m: Message): Served
    requires EnvOk(env) && Wf(env, c) && c.mode.Idle? && Proper(m)
  {
    if Kind(m) == FXP_WRITE then
      WriteStartedOk(env, c, m);
      var done := AfterPayload(env, WriteStarted(c, m), WriteData(m));
      Served(done.(mode := Idle), WriteReply(done.mode.write))
    else if |m| - 4 > MAX_REQUEST then Served(c, StatusReply(IdIn(m), REQUEST_TOO_LARGE))
    else
      DispatchOk(env, c, Kind(m), m[5..]);
      Completed(env, Dispatch(env, c, Kind(m), m[5..]))
  }

  /** INIT is answered with VERSION, unless it is oversized; everything else with one reply that has its id. */
  predicate IsReplyTo(m: Message, reply: seq<Byte>) {
    if Kind(m) == FXP_INIT && |m| - 4 <= MAX_REQUEST then |reply| > 4 && Honest(reply) && reply[4] == FXP_VERSION
    else |m| >= 9 && IsReply(reply, IdIn(m))
  }

  /** The message does not read or store through a handle whose file has another entry now. */
  predicate Trusted(env: Env, c: Core, m: Message)
    requires EnvOk(env) && Proper(m)
  {
    if Kind(m) == FXP_WRITE then !Strays(WriteStarted(c, m))
    else |m| - 4 > MAX_REQUEST || !Strays(Dispatch(env, c, Kind(m), m[5..]).core)
  }

  /** Without such handles every message can be trusted. */
  lemma NoneLost(env: Env, c: Core, m: Message)
    requires EnvOk(env) && Wf(env, c) && c.mode.Idle? && Proper(m) && c.lost == {}
    ensures Trusted(env, c, m)
  {
    hide EnvOk, TreeOk, Serve, ParseRequest, VersionReply, CheckWrite, FromBe32;
    if Kind(m) != FXP_WRITE && Kind(m) != FXP_INIT && TakeU32(m[5..]).Got? {
      ReadingKeepsLost(env, c, TakeU32(m[5..]).value, ParseRequest(Kind(m), TakeU32(m[5..]).rest));
    }
  }

  lemma ReadingKeepsLost(env: Env, c: Core, id: nat, r: Request)
    requires EnvOk(env) && Wf(env, c) && c.mode.Idle?
    ensures var d := Serve(env, c, id, r).core; !d.mode.Writing? && (d.mode.Reading? ==> d.lost == c.lost)
  {
    hide EnvOk, Wf, ServeRead, Refuse;
    ServeOk(env, c, id, r);
    if r.Read? { StartedRead(c, id, r.token, r.offset, r.wanted); }
  }

  lemma StartedRead(c: Core, id: nat, token: Token, offset: nat, wanted: nat)
    ensures ServeRead(c, id, token, offset, wanted).core.lost == c.lost
  {
    hide StatusReply, Lookup, Text, SlotOf, DataHeader;
  }

  // ---------------------------------------------------------------------
  // The stream
  // ---------------------------------------------------------------------

  lemma RunWrite(env: Env, c: Core, m: Message, rest: seq<Byte>)
    requires EnvOk(env) && Wf(env, c) && c.mode.Idle? && Proper(m) && Kind(m) == FXP_WRITE && Trusted(env, c, m)
    ensures var s := ServeMessage(env, c, m);
            Wf(env, s.core) && s.core.mode.Idle? && Run(env, c, m + rest) == Prefix(s.out, Run(env, s.core, rest))
  {
    hide Wf, Run, CheckWrite, FromBe32, WriteReply, Dispatch, EnvOk;
    var header := 25 + HandleLength(m);
    WriteUnit(env, c, m);
    RunUnit(env, c, m, rest);
    WriteStartedOk(env, c, m);
    assert m[header..] == WriteData(m);
    RunPayload(env, WriteStarted(c, m), WriteData(m), rest);
    PrefixNothing(Run(env, WriteStarted(c, m), WriteData(m) + rest));
  }

  lemma PrefixNothing(o: Outcome)
    ensures Prefix([], o) == o
  {
  }

  lemma WriteUnit(env: Env, c: Core, m: Message)
    requires EnvOk(env) && Wf(env, c) && c.mode.Idle? && Proper(m) && Kind(m) == FXP_WRITE
    ensures Next(env, c, m) == Worked(WriteStarted(c, m), [], 25 + HandleLength(m))
  {
    hide Wf, CheckWrite, FromBe32, Dispatch, EnvOk;
  }

  lemma RunOversized(env: Env, c: Core, m: Message, rest: seq<Byte>)
    requires EnvOk(env) && Wf(env, c) && c.mode.Idle? && Proper(m) && Kind(m) != FXP_WRITE && |m| - 4 > MAX_REQUEST
    ensures Run(env, c, m + rest) == Prefix(StatusReply(IdIn(m), REQUEST_TOO_LARGE), Run(env, c, rest))
  {
    hide Wf, Run, FromBe32, StatusReply, EnvOk, Next;
    OversizedUnit(env, c, m);
    RunUnit(env, c, m, rest);
    NextOk(env, c, m);
    assert m[0..] == m;
    RunSkip(env, Next(env, c, m).core, m, rest);
    assert m[|m|..] + rest == rest;
    assert Next(env, c, m).core.(mode := Idle) == c;
  }

  lemma RunCompleted(env: Env, s: Served, rest: seq<Byte>)
    requires EnvOk(env) && Wf(env, s.core) && !Strays(s.core)
    ensures var done := Completed(env, s);
            Wf(env, done.core) && Prefix(s.out, Run(env, s.core, rest)) == Prefix(done.out, Run(env, done.core, rest))
  {
    hide Wf, Run, FinishGrowth, StatusReply, FileAt, PathOf, EnvOk;
    if s.core.mode.Reading? {
      ReadOnce(env, s.core, rest);
      var r := s.core.mode.read;
      PrefixTwice(s.out, FileAt(s.core.root, PathOf(s.core.slots[r.slot])).value.data[r.offset..r.offset + r.remaining],
                  Run(env, s.core.(mode := Idle), rest));
    } else if s.core.mode.Growing? {
      var g := s.core.mode.growth;
      GrowthOk(env, s.core, g);
      GrowthUnit(env, s.core, rest);
      var done := Completed(env, Served(s.core, []));
      PrefixTwice(s.out, done.out, Run(env, done.core, rest));
    }
  }

  lemma GrowthUnit(env: Env, c: Core, rest: seq<Byte>)
    requires EnvOk(env) && Wf(env, c) && c.mode.Growing?
    ensures var done := Completed(env, Served(c, []));
            Wf(env, done.core) && Run(env, c, rest) == Prefix(done.out, Run(env, done.core, rest))
  {
    GrowthOk(env, c, c.mode.growth);
    GrowthFits(env, c);
    NextOk(env, c, rest);
    assert rest[0..] == rest;
    hide Wf, FinishGrowth, StatusReply;
    var done := Completed(env, Served(c, []));
    assert Next(env, c, rest) == Worked(done.core, done.out, 0);
  }

  lemma DispatchUnit(env: Env, c: Core, m: Message)
    requires EnvOk(env) && Wf(env, c) && c.mode.Idle? && Proper(m) && Kind(m) != FXP_WRITE && |m| - 4 <= MAX_REQUEST
    ensures var s := Dispatch(env, c, Kind(m), m[5..]); Next(env, c, m) == Worked(s.core, s.out, |m|)
  {
    hide Wf, FromBe32, Dispatch, EnvOk;
    assert m[5..|m|] == m[5..];
  }

  /** A message and what follows it: its reply, then whatever follows. */
  lemma RunMessage(env: Env, c: Core, m: Message, rest: seq<Byte>)
    requires EnvOk(env) && Wf(env, c) && c.mode.Idle? && Proper(m) && Trusted(env, c, m)
    ensures var s := ServeMessage(env, c, m);
            Wf(env, s.core) && Run(env, c, m + rest) == Prefix(s.out, Run(env, s.core, rest))
  {
    hide Wf, Run, FromBe32, Dispatch, EnvOk, WriteReply, Completed, Next, Strays;
    if Kind(m) == FXP_WRITE {
      RunWrite(env, c, m, rest);
    } else if |m| - 4 > MAX_REQUEST {
      RunOversized(env, c, m, rest);
    } else {
      DispatchUnit(env, c, m);
      DispatchOk(env, c, Kind(m), m[5..]);
      RunUnit(env, c, m, rest);
      assert m[|m|..] + rest == rest;
      RunCompleted(env, Dispatch(env, c, Kind(m), m[5..]), rest);
    }
  }

  lemma CompletedReplies(env: Env, s: Served, id: nat)
    requires EnvOk(env) && Wf(env, s.core) && Answers(s, id) && id < U32_LIMIT
    requires s.core.mode.Idle? || s.core.mode.Reading? || s.core.mode.Growing?
    ensures var done := Completed(env, s); done.core.mode.Idle? && IsReply(done.out, id)
  {
    hide Wf, FinishGrowth, StatusReply, FileAt, PathOf, EnvOk, DataHeader, IsReply;
    if s.core.mode.Reading? {
      var r := s.core.mode.read;
      ReadPromised(env, s.core);
      var data := FileAt(s.core.root, PathOf(s.core.slots[r.slot])).value.data;
      DataIsReply(id, data[r.offset..r.offset + r.remaining]);
    } else if s.core.mode.Growing? {
      var g := s.core.mode.growth;
      StatusIsReply(id, OK);
      GrowthFits(env, s.core);
      var r := FinishGrowth(env, s.core.root, g.path, g.attrs);
      if r.Refused? {
        StatusIsReply(id, r.status);
        assert [] + StatusReply(id, r.status) == StatusReply(id, r.status);
      }
      assert [] + StatusReply(id, OK) == StatusReply(id, OK);
    }
  }

  /** Every message gets exactly one reply, of its own length and with its own id. */
  lemma OneReply(env: Env, c: Core, m: Message)
    requires EnvOk(env) && Wf(env, c) && c.mode.Idle? && Proper(m)
    ensures var s := ServeMessage(env, c, m); s.core.mode.Idle? && IsReplyTo(m, s.out)
  {
    hide Wf, FromBe32, Dispatch, EnvOk, Completed, StatusReply, IsReply, Answers;
    if Kind(m) == FXP_WRITE {
      WriteStartedOk(env, c, m);
      var w := AfterPayload(env, WriteStarted(c, m), WriteData(m)).mode.write;
      StatusIsReply(w.id, if w.failed.Some? then w.failed.value else OK);
    } else if |m| - 4 > MAX_REQUEST {
      StatusIsReply(IdIn(m), REQUEST_TOO_LARGE);
    } else {
      DispatchOk(env, c, Kind(m), m[5..]);
      DispatchAnswers(env, c, Kind(m), m[5..]);
      if Kind(m) == FXP_INIT {
        VersionIsReply();
        CompletedIdle(env, Served(c, VersionReply()));
      } else {
        assert m[5..][..4] == m[5..9];
        NotFatal(env, c, Kind(m), m[5..]);
        CompletedReplies(env, Dispatch(env, c, Kind(m), m[5..]), IdIn(m));
      }
    }
  }

  lemma CompletedIdle(env: Env, s: Served)
    requires Wf(env, s.core) && s.core.mode.Idle?
    ensures Completed(env, s) == s
  {
    hide Wf;
  }

  lemma NotFatal(env: Env, c: Core, kind: Byte, body: seq<Byte>)
    requires EnvOk(env) && Wf(env, c) && c.mode.Idle? && |body| >= 4
    ensures !Dispatch(env, c, kind, body).core.mode.Fatal?
  {
    hide EnvOk, Wf, Serve, ParseRequest, VersionReply;
    ServeOk(env, c, FromBe32(body[..4]), ParseRequest(kind, body[4..]));
  }

  // ---------------------------------------------------------------------
  // Conversations
  // ---------------------------------------------------------------------

  function Concat(parts: seq<seq<Byte>>): seq<Byte> { if parts == [] then [] else parts[0] + Concat(parts[1..]) }

  datatype Talk = Talk(core: Core, replies: seq<seq<Byte>>)

  predicate AllProper(messages: seq<Message>) { forall i :: 0 <= i < |messages| ==> Proper(messages[i]) }

  lemma ReadyAgain(env: Env, c: Core, m: Message)
    requires EnvOk(env) && Wf(env, c) && c.mode.Idle? && Proper(m)
    ensures var s := ServeMessage(env, c, m); Wf(env, s.core) && s.core.mode.Idle? && IsReplyTo(m, s.out)
  {
    hide Wf, ServeMessage, Proper, IsReplyTo;
    MessageOk(env, c, m);
    OneReply(env, c, m);
  }

  lemma MessageOk(env: Env, c: Core, m: Message)
    requires EnvOk(env) && Wf(env, c) && c.mode.Idle? && Proper(m)
    ensures Wf(env, ServeMessage(env, c, m).core)
  {
    hide Wf, FromBe32, Dispatch, EnvOk, WriteReply, Completed, StatusReply;
    if Kind(m) == FXP_WRITE {
      WriteStartedOk(env, c, m);
      var done := AfterPayload(env, WriteStarted(c, m), WriteData(m));
      IdleWf(env, done);
    } else if |m| - 4 <= MAX_REQUEST {
      DispatchOk(env, c, Kind(m), m[5..]);
      CompletedOk(env, Dispatch(env, c, Kind(m), m[5..]));
    }
  }

  lemma IdleWf(env: Env, c: Core)
    requires Wf(env, c)
    ensures Wf(env, c.(mode := Idle))
  {
    hide TreeOk, EnvOk;
  }

  lemma CompletedOk(env: Env, s: Served)
    requires Wf(env, s.core)
    ensures Wf(env, Completed(env, s).core)
  {
    hide Wf, FinishGrowth, StatusReply, FileAt, PathOf;
    IdleWf(env, s.core);
    if s.core.mode.Growing? { GrowthOk(env, s.core, s.core.mode.growth); }
  }

  /** Messages served one by one, each after the last has been finished. */
  function Conversation(env: Env, c: Core, messages: seq<Message>): (t: Talk)
    requires EnvOk(env) && Wf(env, c) && c.mode.Idle? && AllProper(messages)
    ensures |t.replies| == |messages| && Wf(env, t.core) && t.core.mode.Idle?
    decreases |messages|
  {
    if messages == [] then Talk(c, [])
    else
      var s := ServeMessage(env, c, messages[0]);
      ReadyAgain(env, c, messages[0]);
      var t := Conversation(env, s.core, messages[1..]);
      Talk(t.core, [s.out] + t.replies)
  }

  /** Every message can be trusted when its turn comes. */
  predicate AllTrusted(env: Env, c: Core, messages: seq<Message>)
    requires EnvOk(env) && Wf(env, c) && c.mode.Idle? && AllProper(messages)
    decreases |messages|
  {
    messages == [] ||
    (ReadyAgain(env, c, messages[0]);
     Trusted(env, c, messages[0]) && AllTrusted(env, ServeMessage(env, c, messages[0]).core, messages[1..]))
  }

  /** Messages and what follows them: their replies, in order, then whatever follows. */
  lemma {:induction false} ConversationThen(env: Env, c: Core, messages: seq<Message>, rest: seq<Byte>)
    requires EnvOk(env) && Wf(env, c) && c.mode.Idle? && AllProper(messages) && AllTrusted(env, c, messages)
    ensures var t := Conversation(env, c, messages);
            Run(env, c, Concat(messages) + rest) == Prefix(Concat(t.replies), Run(env, t.core, rest))
    decreases |messages|
  {
    hide Wf, Run, ServeMessage, EnvOk, Proper, IsReplyTo, Trusted;
    if messages == [] {
      assert Concat(messages) + rest == rest;
      PrefixNothing(Run(env, c, rest));
    } else {
      var s := ServeMessage(env, c, messages[0]);
      var later := Concat(messages[1..]);
      assert Concat(messages) + rest == messages[0] + (later + rest);
      RunMessage(env, c, messages[0], later + rest);
      ReadyAgain(env, c, messages[0]);
      ConversationThen(env, s.core, messages[1..], rest);
      var t := Conversation(env, s.core, messages[1..]);
      assert ([s.out] + t.replies)[1..] == t.replies;
      PrefixTwice(s.out, Concat(t.replies), Run(env, t.core, rest));
    }
  }

  /** The bytes a server emits for a stream of messages are their replies, in order, and it is ready for the next one. */
  lemma StreamIsConversation(env: Env, c: Core, messages: seq<Message>)
    requires EnvOk(env) && Wf(env, c) && c.mode.Idle? && AllProper(messages) && AllTrusted(env, c, messages)
    ensures var t := Conversation(env, c, messages); Run(env, c, Concat(messages)) == Outcome(Concat(t.replies), t.core, [])
  {
    hide Wf, Run, Conversation, EnvOk, AllProper, AllTrusted, Concat;
    ConversationThen(env, c, messages, []);
    assert Concat(messages) + [] == Concat(messages);
    var t := Conversation(env, c, messages);
    NothingToServe(env, t.core);
    assert Concat(t.replies) + [] == Concat(t.replies);
  }

  lemma NothingToServe(env: Env, c: Core)
    requires Wf(env, c) && c.mode.Idle?
    ensures Run(env, c, []) == Outcome([], c, [])
  {
    hide Wf;
  }

  lemma {:induction false} RepliesInOrder(env: Env, c: Core, messages: seq<Message>, i: nat)
    requires EnvOk(env) && Wf(env, c) && c.mode.Idle? && AllProper(messages) && i < |messages|
    ensures IsReplyTo(messages[i], Conversation(env, c, messages).replies[i])
    decreases i
  {
    hide Wf, ServeMessage, EnvOk, Proper, IsReplyTo;
    ReadyAgain(env, c, messages[0]);
    if i > 0 { RepliesInOrder(env, ServeMessage(env, c, messages[0]).core, messages[1..], i - 1); }
  }

  // ---------------------------------------------------------------------
  // Where lengths wrap
  // ---------------------------------------------------------------------

  /** On a 32-bit machine an oversized request is skipped exactly, unless its declared length is within four of the top. */
  lemma SkipExact(env: Env, c: Core, x: seq<Byte>)
    requires EnvOk(env) && Wf(env, c) && c.mode.Idle? && |x| >= 9 && x[4] != FXP_WRITE && FromBe32(x[..4]) > MAX_REQUEST
    ensures var length, u := FromBe32(x[..4]), Next(env, c, x);
            && (u.Worked? && u.core.mode == Skipping(4 + length) <==> length <= U32_LIMIT - 5)
            && (Endless(c, x) <==> length == U32_LIMIT - 4) && (u.Stuck? <==> Endless(c, x))
  {
    hide Wf, FromBe32, Next, StatusReply, EnvOk;
    OversizedUnit(env, c, x);
    WrapExact(4 + FromBe32(x[..4]));
  }

  lemma WrapExact(n: nat)
    requires n < 2 * U32_LIMIT
    ensures WrapUsize(n) == if n < U32_LIMIT then n else n - U32_LIMIT
  {
  }

  /** A WRITE uses exactly the bytes its frame declares if and only if its fields do not add up past 32 bits. */
  lemma WriteFrameExact(env: Env, c: Core, x: seq<Byte>)
    requires EnvOk(env) && Wf(env, c) && c.mode.Idle? && |x| >= 5 && x[4] == FXP_WRITE && FromBe32(x[..4]) > 0
    requires var u := Next(env, c, x); u.Worked? && u.core.mode.Writing?
    ensures var u := Next(env, c, x);
            var h := HandleLength(x);
            u.used + u.core.mode.write.remaining == 4 + FromBe32(x[..4]) <==> 21 + h + u.core.mode.write.remaining < U32_LIMIT
  {
    hide Wf, FromBe32, CheckWrite, Dispatch, EnvOk, WrapUsize;
    var h := FromBe32(x[9..13]);
    WrapExact(21 + h + FromBe32(x[21 + h..25 + h]));
  }

  const ENDLESS_HEADER: seq<Byte> := [255, 255, 255, 252, FXP_STAT, 0, 0, 0, 1]

  function Repeated(part: seq<Byte>, n: nat): seq<Byte> { if n == 0 then [] else part + Repeated(part, n - 1) }

  /** A header whose length wraps to zero is answered any number of times, and stays where it is. */
  lemma {:induction false} EndlessReplies(env: Env, m: Machine, before: seq<Byte>, x: seq<Byte>, n: nat)
    requires EnvOk(env) && MachineOk(env, m) && Endless(m.core, x)
    ensures Reaches(env, Config(m, before, x), n, Config(m, before + Repeated(StatusReply(FromBe32(x[5..9]), REQUEST_TOO_LARGE), n), x))
    decreases n
  {
    EndlessUnit(env, m, x);
    hide EnvOk, MachineOk, Micro, StatusReply, FromBe32, Endless;
    var reply := StatusReply(FromBe32(x[5..9]), REQUEST_TOO_LARGE);
    if n == 0 {
      assert before + Repeated(reply, 0) == before;
    } else {
      assert x[0..] == x;
      OneMore(before, reply, n);
      EndlessReplies(env, m, before + reply, x, n - 1);
    }
  }

  lemma OneMore(before: seq<Byte>, part: seq<Byte>, n: nat)
    requires n > 0
    ensures before + part + Repeated(part, n - 1) == before + Repeated(part, n)
  {
  }

  lemma EndlessUnit(env: Env, m: Machine, x: seq<Byte>)
    requires EnvOk(env) && MachineOk(env, m) && Endless(m.core, x)
    ensures |x| >= 9 && Micro(env, m, x) == Does(m, StatusReply(FromBe32(x[5..9]), REQUEST_TOO_LARGE), 0)
  {
    hide EnvOk, Wf, JobOk, StatusReply, FromBe32, WrapUsize, OnPacket;
  }

  /** A header that declares 0xFFFFFFFC bytes is one. */
  lemma EndlessHeader(c: Core)
    requires c.mode.Idle?
    ensures Endless(c, ENDLESS_HEADER)
  {
    assert ENDLESS_HEADER[..4] == [255, 255, 255, 252];
  }

  /** A WRITE that declares 24 bytes, with a handle of four and data of 2^32 - 1 at offset 0. */
  function WrappedFrame(token: seq<Byte>): (x: seq<Byte>)
    requires |token| == 4
    ensures |x| == 29
  {
    [0, 0, 0, 24, FXP_WRITE, 0, 0, 0, 1, 0, 0, 0, 4] + token + [0, 0, 0, 0, 0, 0, 0, 0, 255, 255, 255, 255]
  }

  /** It is accepted although its fields are longer than its frame, and the next 2^32 - 1 bytes are its payload. */
  lemma WrappedFrameAccepted(env: Env, c: Core, token: seq<Byte>)
    requires EnvOk(env) && Wf(env, c) && c.mode.Idle? && |token| == 4 && SlotOf(c, token).Some?
    requires c.slots[SlotOf(c, token).value].FileSlot? && c.slots[SlotOf(c, token).value].writable
    ensures 4 + FromBe32(WrappedFrame(token)[..4]) == 28
    ensures Next(env, c, WrappedFrame(token)) ==
            Worked(c.(mode := Writing(WriteStream(1, SlotOf(c, token).value, U32_TOP, 0, None))), [], 29)
  {
    hide EnvOk, Wf, SlotOf, Dispatch, WrappedFrame;
    FrameSlices(token);
  }

  lemma FrameSlices(token: seq<Byte>)
    requires |token| == 4
    ensures var x := WrappedFrame(token);
            && x[..4] == [0, 0, 0, 24] && x[4] == FXP_WRITE && x[5..9] == [0, 0, 0, 1] && x[9..13] == [0, 0, 0, 4] && x[13..17] == token
            && x[17..21] == [0, 0, 0, 0] && x[21..25] == [0, 0, 0, 0] && x[25..29] == [255, 255, 255, 255]
  {
    var x := WrappedFrame(token);
    assert x[..4] == [0, 0, 0, 24];
    assert x[5..9] == [0, 0, 0, 1];
    assert x[9..13] == [0, 0, 0, 4];
    assert x[13..17] == token;
    assert x[17..21] == [0, 0, 0, 0];
    assert x[21..25] == [0, 0, 0, 0];
    assert x[25..29] == [255, 255, 255, 255];
  }
}
