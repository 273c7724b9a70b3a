/**
 One honest reply to every message, in order, whatever has happened to the files:
 no condition on stale cursors, only on the messages being messages.
 */
module SftpHonest {
  import opened Bytes
  import opened FatTree
  import opened Wire
  import opened SftpVolume
  import opened SftpModel
  import opened SftpStream
  import opened SftpCursors
  import opened SftpRuns
  import opened SftpChunks
  import opened SftpMachine
  import opened SftpReplies
  import opened SftpRequests

  // ---------------------------------------------------------------------
  // How far a stream of messages has been served
  // ---------------------------------------------------------------------

  /** A request other than WRITE that needs a reply with its id. */
  predicate Asks(m: Message) { Proper(m) && Kind(m) != FXP_WRITE && Kind(m) != FXP_INIT }

  /** The beginning of a DATA reply to `m` that still owes `left` bytes. */
  predicate PartialData(m: Message, part: seq<Byte>, left: nat) {
    Asks(m) && |part| >= 13 && |part| - 13 + left <= MAX_READ_REPLY && part[..13] == DataHeader(IdIn(m), |part| - 13 + left)
  }

  predicate RepliesTo(messages: seq<Message>, replies: seq<seq<Byte>>) {
    |replies| <= |messages| && forall i :: 0 <= i < |replies| ==> IsReplyTo(messages[i], replies[i])
  }

  /** `tail` is left of the message in hand, then come the messages from `k` on. */
  predicate Left(messages: seq<Message>, rest: seq<Byte>, tail: nat, k: nat) {
    k <= |messages| && tail <= |rest| && rest[tail..] == Concat(messages[k..])
  }

  /** Whole replies to the first messages have been emitted, and `part` of the next one. */
  ghost predicate Position(messages: seq<Message>, mode: Mode, rest: seq<Byte>, k: nat, part: seq<Byte>) {
    match mode
    case Idle => part == [] && Left(messages, rest, 0, k)
    case Skipping(left) => part == [] && Left(messages, rest, left, k)
    case Reading(r) => k < |messages| && PartialData(messages[k], part, r.remaining) && Left(messages, rest, 0, k + 1)
    case Writing(w) =>
      k < |messages| && part == [] && Proper(messages[k]) && Kind(messages[k]) == FXP_WRITE && w.id == IdIn(messages[k]) &&
      Left(messages, rest, w.remaining, k + 1)
    case Growing(g) => k < |messages| && part == [] && Asks(messages[k]) && g.id == IdIn(messages[k]) && Left(messages, rest, 0, k + 1)
    case Fatal => k < |messages| && exists left :: left > 0 && PartialData(messages[k], part, left)
  }

  ghost predicate Ordered(env: Env, messages: seq<Message>, g: Config, replies: seq<seq<Byte>>, part: seq<Byte>)
    requires EnvOk(env)
  {
    && MachineOk(env, g.machine) && AllProper(messages) && RepliesTo(messages, replies) && g.out == Concat(replies) + part
    && Position(messages, g.machine.core.mode, g.rest, |replies|, part)
  }

  // ---------------------------------------------------------------------
  // One unit of work
  // ---------------------------------------------------------------------

  lemma {:induction false} ConcatMore(parts: seq<seq<Byte>>, part: seq<Byte>)
    ensures Concat(parts + [part]) == Concat(parts) + part
  {
    if parts == [] {
      assert ([] + [part])[1..] == [] && Concat([]) == [];
    } else {
      assert (parts + [part])[1..] == parts[1..] + [part];
      ConcatMore(parts[1..], part);
    }
  }

  lemma OneMoreReply(messages: seq<Message>, replies: seq<seq<Byte>>, reply: seq<Byte>)
    requires RepliesTo(messages, replies) && |replies| < |messages| && IsReplyTo(messages[|replies|], reply)
    ensures RepliesTo(messages, replies + [reply]) && Concat(replies + [reply]) == Concat(replies) + reply
  {
    hide IsReplyTo, Concat;
    ConcatMore(replies, reply);
    var more := replies + [reply];
    forall i | 0 <= i < |more| ensures IsReplyTo(messages[i], more[i]) {
      if i < |replies| { assert more[i] == replies[i]; }
    }
  }

  lemma NextMessage(messages: seq<Message>, k: nat)
    requires k < |messages|
    ensures Concat(messages[k..]) == messages[k] + Concat(messages[k + 1..])
  {
    assert messages[k..][1..] == messages[k + 1..];
  }

  /** A whole message at the start of the input is taken as such. */
  lemma ParsesWhole(env: Env, m: Machine, x: Message, rest: seq<Byte>)
    requires EnvOk(env) && MachineOk(env, m) && m.core.mode.Idle? && Proper(x)
    ensures var a := OnParse(env, m, x + rest);
            if Kind(x) == FXP_WRITE then a == Does(m.(core := WriteStarted(m.core, x)), [], 25 + HandleLength(x))
            else if |x| - 4 > MAX_REQUEST then a == Does(m.(core := m.core.(mode := Skipping(|x|))), StatusReply(IdIn(x), REQUEST_TOO_LARGE), 0)
            else a.Does? && a.machine.core == Dispatch(env, m.core, Kind(x), x[5..]).core && a.out == Dispatch(env, m.core, Kind(x), x[5..]).out && a.used == |x|
  {
    hide EnvOk, MachineOk, Dispatch, CheckWrite, StatusReply, FromBe32, BeginWrite;
    ParseStaysSame(env, m, x, rest) by { ParsesAlone(env, m, x); }
    ParsesAlone(env, m, x);
  }

  lemma ParsesAlone(env: Env, m: Machine, x: Message)
    requires EnvOk(env) && MachineOk(env, m) && m.core.mode.Idle? && Proper(x)
    ensures var a := OnParse(env, m, x);
            if Kind(x) == FXP_WRITE then a == Does(m.(core := WriteStarted(m.core, x)), [], 25 + HandleLength(x))
            else if |x| - 4 > MAX_REQUEST then a == Does(m.(core := m.core.(mode := Skipping(|x|))), StatusReply(IdIn(x), REQUEST_TOO_LARGE), 0)
            else a.Does? && a.machine.core == Dispatch(env, m.core, Kind(x), x[5..]).core && a.out == Dispatch(env, m.core, Kind(x), x[5..]).out && a.used == |x|
  {
    hide EnvOk, Wf, JobOk, Dispatch, CheckWrite, StatusReply, FromBe32, CachesAfter, PacketRewrites;
    assert x[5..|x|] == x[5..];
  }

  lemma WriteBegins(env: Env, messages: seq<Message>, g: Config, replies: seq<seq<Byte>>)
    requires EnvOk(env) && Ordered(env, messages, g, replies, []) && g.machine.core.mode.Idle? && |replies| < |messages|
    requires Kind(messages[|replies|]) == FXP_WRITE
    ensures Busy(env, g) && Ordered(env, messages, Then(env, g), replies, [])
  {
    hide EnvOk, MachineOk, OnParse, CheckWrite, FromBe32, IsReplyTo;
    var k := |replies|;
    var x := messages[k];
    NextMessage(messages, k);
    assert g.rest == x + Concat(messages[k + 1..]);
    ParsesWhole(env, g.machine, x, Concat(messages[k + 1..]));
    MicroOk(env, g.machine, g.rest);
    assert g.rest[25 + HandleLength(x)..][|WriteData(x)|..] == Concat(messages[k + 1..]);
  }

  lemma SkipBegins(env: Env, messages: seq<Message>, g: Config, replies: seq<seq<Byte>>) returns (more: seq<seq<Byte>>)
    requires EnvOk(env) && Ordered(env, messages, g, replies, []) && g.machine.core.mode.Idle? && |replies| < |messages|
    requires Kind(messages[|replies|]) != FXP_WRITE && |messages[|replies|]| - 4 > MAX_REQUEST
    ensures Busy(env, g) && Ordered(env, messages, Then(env, g), more, [])
  {
    hide EnvOk, MachineOk, OnParse, FromBe32, IsReply, StatusReply;
    var k := |replies|;
    var x := messages[k];
    NextMessage(messages, k);
    assert g.rest == x + Concat(messages[k + 1..]);
    ParsesWhole(env, g.machine, x, Concat(messages[k + 1..]));
    MicroOk(env, g.machine, g.rest);
    StatusIsReply(IdIn(x), REQUEST_TOO_LARGE);
    more := replies + [StatusReply(IdIn(x), REQUEST_TOO_LARGE)];
    OneMoreReply(messages, replies, StatusReply(IdIn(x), REQUEST_TOO_LARGE));
    assert g.rest[0..][|x|..] == Concat(messages[k + 1..]);
  }

  /** What dispatching a message leads to. */
  lemma Dispatched(env: Env, c: Core, x: Message)
    requires EnvOk(env) && Wf(env, c) && c.mode.Idle? && Proper(x) && Kind(x) != FXP_WRITE && |x| - 4 <= MAX_REQUEST
    ensures var s := Dispatch(env, c, Kind(x), x[5..]);
            match s.core.mode
            case Idle => IsReplyTo(x, s.out)
            case Reading(r) => PartialData(x, s.out, r.remaining)
            case Growing(g) => Asks(x) && s.out == [] && g.id == IdIn(x)
            case _ => false
  {
    hide EnvOk, Wf, Dispatch, FromBe32, DataHeader;
    DispatchOk(env, c, Kind(x), x[5..]);
    DispatchAnswers(env, c, Kind(x), x[5..]);
    if Kind(x) == FXP_INIT {
      VersionIsReply();
    } else {
      assert x[5..][..4] == x[5..9];
      NotFatal(env, c, Kind(x), x[5..]);
      var s := Dispatch(env, c, Kind(x), x[5..]);
      if s.core.mode.Reading? { HeaderSize(IdIn(x), s.core.mode.read.remaining); }
    }
  }

  lemma HeaderSize(id: nat, length: nat)
    ensures |DataHeader(id, length)| == 13 && DataHeader(id, length)[..13] == DataHeader(id, length)
  {
  }

  lemma PacketServed(env: Env, messages: seq<Message>, g: Config, replies: seq<seq<Byte>>) returns (more: seq<seq<Byte>>, part: seq<Byte>)
    requires EnvOk(env) && Ordered(env, messages, g, replies, []) && g.machine.core.mode.Idle? && |replies| < |messages|
    requires Kind(messages[|replies|]) != FXP_WRITE && |messages[|replies|]| - 4 <= MAX_REQUEST
    ensures Busy(env, g) && Ordered(env, messages, Then(env, g), more, part)
  {
    hide EnvOk, Wf, JobOk, OnParse, FromBe32, IsReplyTo, PartialData, Dispatch, Asks;
    var k := |replies|;
    var x := messages[k];
    NextMessage(messages, k);
    assert g.rest == x + Concat(messages[k + 1..]);
    ParsesWhole(env, g.machine, x, Concat(messages[k + 1..]));
    Dispatched(env, g.machine.core, x);
    MicroOk(env, g.machine, g.rest);
    var s := Dispatch(env, g.machine.core, Kind(x), x[5..]);
    assert g.rest[|x|..] == Concat(messages[k + 1..]) && g.rest[|x|..][0..] == g.rest[|x|..];
    if s.core.mode.Idle? {
      more, part := replies + [s.out], [];
      OneMoreReply(messages, replies, s.out);
    } else {
      more, part := replies, s.out;
    }
  }

  lemma IdleServed(env: Env, messages: seq<Message>, g: Config, replies: seq<seq<Byte>>) returns (more: seq<seq<Byte>>, part: seq<Byte>)
    requires EnvOk(env) && Ordered(env, messages, g, replies, []) && g.machine.core.mode.Idle? && Busy(env, g)
    ensures Ordered(env, messages, Then(env, g), more, part)
  {
    hide Ordered, EnvOk, MachineOk, Micro;
    AllServedWaits(env, messages, g, replies);
    more, part := replies, [];
    if Kind(messages[|replies|]) == FXP_WRITE { WriteBegins(env, messages, g, replies); }
    else if |messages[|replies|]| - 4 > MAX_REQUEST { more := SkipBegins(env, messages, g, replies); }
    else { more, part := PacketServed(env, messages, g, replies); }
  }

  lemma AllServedWaits(env: Env, messages: seq<Message>, g: Config, replies: seq<seq<Byte>>)
    requires EnvOk(env) && Ordered(env, messages, g, replies, []) && g.machine.core.mode.Idle? && Busy(env, g)
    ensures |replies| < |messages|
  {
    hide EnvOk, MachineOk, IsReplyTo;
  }

  /** A completed DATA reply, as far as it was owed. */
  lemma DataComplete(m: Message, part: seq<Byte>)
    requires PartialData(m, part, 0)
    ensures IsReplyTo(m, part)
  {
    DataIsReply(IdIn(m), part[13..]) by { IdBelow(m); }
    assert part[..13] + part[13..] == part;
    assert |part[13..]| == |part| - 13;
    hide DataHeader, IsReply;
  }

  lemma IdBelow(m: Message)
    requires |m| >= 9
    ensures IdIn(m) < U32_LIMIT
  {
  }

  lemma PartGrows(m: Message, part: seq<Byte>, left: nat, bytes: seq<Byte>)
    requires PartialData(m, part, left) && |bytes| <= left
    ensures PartialData(m, part + bytes, left - |bytes|)
  {
    hide DataHeader, FromBe32;
    assert (part + bytes)[..13] == part[..13];
  }

  lemma ReadServed(env: Env, messages: seq<Message>, g: Config, replies: seq<seq<Byte>>, part: seq<Byte>)
      returns (more: seq<seq<Byte>>, next: seq<Byte>)
    requires EnvOk(env) && Ordered(env, messages, g, replies, part) && g.machine.core.mode.Reading?
    ensures Busy(env, g) && Ordered(env, messages, Then(env, g), more, next)
  {
    hide EnvOk, Wf, JobOk, ReadOutcome, IsReplyTo, PartialData;
    MicroOk(env, g.machine, g.rest);
    SlotsInRange(env, g.machine);
    ReadOwes(env, g.machine.core);
    var a := OnRead(env, g.machine);
    var left := g.machine.core.mode.read.remaining;
    var x := messages[|replies|];
    assert g.rest[0..] == g.rest && g.out + a.out == Concat(replies) + (part + a.out);
    PartGrows(x, part, left, a.out);
    if a.machine.core.mode.Idle? {
      DataComplete(x, part + a.out);
      OneMoreReply(messages, replies, part + a.out);
      more, next := replies + [part + a.out], [];
    } else {
      more, next := replies, part + a.out;
      assert left - |a.out| > 0;
    }
  }

  lemma ReadOwes(env: Env, c: Core)
    requires Wf(env, c) && c.mode.Reading?
    ensures c.mode.read.remaining > 0
  {
    hide TreeOk, EnvOk;
  }

  /** A chunk uses its bytes or none, and keeps the request's id. */
  lemma WriteCounts(env: Env, m: Machine, b: seq<Byte>)
    requires EnvOk(env) && MachineOk(env, m) && m.core.mode.Writing? && m.core.mode.write.remaining > 0 && OnWrite(env, m, b).Does?
    ensures var a := OnWrite(env, m, b);
            && a.out == [] && a.machine.core.mode.Writing? && a.machine.core.mode.write.id == m.core.mode.write.id
            && a.machine.core.mode.write.remaining + a.used == m.core.mode.write.remaining
  {
    hide EnvOk, MachineOk, WriteOutcome, Lookup, AfterWrite, PathOf;
  }

  lemma WriteServed(env: Env, messages: seq<Message>, g: Config, replies: seq<seq<Byte>>) returns (more: seq<seq<Byte>>)
    requires EnvOk(env) && Ordered(env, messages, g, replies, []) && g.machine.core.mode.Writing? && Busy(env, g)
    ensures Ordered(env, messages, Then(env, g), more, [])
  {
    hide EnvOk, Wf, JobOk, IsReplyTo, OnChunk, StatusReply, Proper;
    MicroOk(env, g.machine, g.rest);
    var w := g.machine.core.mode.write;
    var a := OnWrite(env, g.machine, g.rest);
    var x := messages[|replies|];
    if w.remaining == 0 {
      WriteReplied(x, w);
      OneMoreReply(messages, replies, a.out);
      more := replies + [a.out];
      assert g.rest[0..] == g.rest;
    } else {
      WriteCounts(env, g.machine, g.rest);
      more := replies;
      assert g.rest[a.used..][w.remaining - a.used..] == g.rest[w.remaining..];
    }
  }

  lemma WriteReplied(x: Message, w: WriteStream)
    requires Proper(x) && Kind(x) == FXP_WRITE && w.id == IdIn(x)
    ensures IsReplyTo(x, WriteReply(w))
  {
    hide StatusReply, IsReply, FromBe32;
    IdBelow(x);
    StatusIsReply(w.id, if w.failed.Some? then w.failed.value else OK);
  }

  lemma GrowServed(env: Env, messages: seq<Message>, g: Config, replies: seq<seq<Byte>>) returns (more: seq<seq<Byte>>)
    requires EnvOk(env) && Ordered(env, messages, g, replies, []) && g.machine.core.mode.Growing?
    ensures Busy(env, g) && Ordered(env, messages, Then(env, g), more, [])
  {
    hide EnvOk, Wf, JobOk, IsReplyTo, OnGrow, StatusReply, Asks;
    MicroOk(env, g.machine, g.rest);
    GrowReplies(env, g.machine);
    var a := OnGrow(env, g.machine);
    assert g.rest[0..] == g.rest;
    more := replies;
    if a.machine.core.mode.Idle? {
      GrowReplied(messages[|replies|], a.out);
      OneMoreReply(messages, replies, a.out);
      more := replies + [a.out];
    }
  }

  /** A growth goes on without a word, or ends with a STATUS that has its id. */
  lemma GrowReplies(env: Env, m: Machine)
    requires EnvOk(env) && MachineOk(env, m) && m.core.mode.Growing?
    ensures var a := OnGrow(env, m);
            if a.machine.core.mode.Growing? then a.out == [] && a.machine.core.mode == m.core.mode
            else a.machine.core.mode.Idle? && exists status :: a.out == StatusReply(m.core.mode.growth.id, status)
  {
    hide EnvOk, MachineOk, WriteOutcome, StatusReply, Forget, NewMeta;
  }

  lemma GrowReplied(x: Message, out: seq<Byte>)
    requires Asks(x) && exists status :: out == StatusReply(IdIn(x), status)
    ensures IsReplyTo(x, out)
  {
    hide StatusReply, IsReply, FromBe32;
    var status :| out == StatusReply(IdIn(x), status);
    IdBelow(x);
    StatusIsReply(IdIn(x), status);
  }

  lemma SkipServed(env: Env, messages: seq<Message>, g: Config, replies: seq<seq<Byte>>)
    requires EnvOk(env) && Ordered(env, messages, g, replies, []) && g.machine.core.mode.Skipping? && Busy(env, g)
    ensures Ordered(env, messages, Then(env, g), replies, [])
  {
    hide EnvOk, Wf, JobOk, IsReplyTo, Proper;
    MicroOk(env, g.machine, g.rest);
    SkipPositive(env, g.machine.core);
    var left := g.machine.core.mode.left;
    assert g.rest[1..][left - 1..] == g.rest[left..] && g.out + [] == g.out;
  }

  lemma UnitServed(env: Env, messages: seq<Message>, g: Config, replies: seq<seq<Byte>>, part: seq<Byte>)
      returns (more: seq<seq<Byte>>, next: seq<Byte>)
    requires EnvOk(env) && Ordered(env, messages, g, replies, part) && Busy(env, g)
    ensures Ordered(env, messages, Then(env, g), more, next)
  {
    hide EnvOk, MachineOk, Micro, Ordered;
    NothingPartial(env, messages, g, replies, part);
    next := [];
    match g.machine.core.mode {
      case Idle => more, next := IdleServed(env, messages, g, replies);
      case Reading(_) => more, next := ReadServed(env, messages, g, replies, part);
      case Writing(_) => more := WriteServed(env, messages, g, replies);
      case Growing(_) => more := GrowServed(env, messages, g, replies);
      case Skipping(_) =>
        more := replies;
        SkipServed(env, messages, g, replies);
      case Fatal => more := replies;
    }
  }

  /** Only a DATA reply is ever emitted in parts, and a session that has ended does nothing. */
  lemma NothingPartial(env: Env, messages: seq<Message>, g: Config, replies: seq<seq<Byte>>, part: seq<Byte>)
    requires EnvOk(env) && Ordered(env, messages, g, replies, part) && Busy(env, g)
    ensures !g.machine.core.mode.Reading? ==> part == []
    ensures !g.machine.core.mode.Fatal?
  {
    hide EnvOk, MachineOk, IsReplyTo, PartialData, OnParse, OnRead, OnWrite, OnGrow;
  }

  // ---------------------------------------------------------------------
  // Whole sessions
  // ---------------------------------------------------------------------

  /** Any amount of work done on a stream of messages: whole honest replies to the first of them, and part of a DATA reply at most. */
  lemma {:induction false} HonestRun(env: Env, messages: seq<Message>, g: Config, replies: seq<seq<Byte>>, part: seq<Byte>, n: nat, d: Config)
      returns (more: seq<seq<Byte>>, next: seq<Byte>)
    requires EnvOk(env) && Ordered(env, messages, g, replies, part) && Reaches(env, g, n, d)
    ensures Ordered(env, messages, d, more, next)
    decreases n
  {
    hide EnvOk, MachineOk, Micro, Ordered;
    more, next := replies, part;
    if n > 0 {
      var r, p := UnitServed(env, messages, g, replies, part);
      more, next := HonestRun(env, messages, Then(env, g), r, p, n - 1, d);
    }
  }

  lemma AtFirst(env: Env, m: Machine, messages: seq<Message>)
    requires EnvOk(env) && MachineOk(env, m) && m.core.mode.Idle? && AllProper(messages)
    ensures Ordered(env, messages, Config(m, [], Concat(messages)), [], [])
  {
    hide EnvOk, MachineOk, IsReplyTo;
    assert messages[0..] == messages && Concat(messages)[0..] == Concat(messages);
  }

  /** A session with nothing left to do, that has not ended, has replied to every message. */
  lemma HonestEnd(env: Env, messages: seq<Message>, d: Config, replies: seq<seq<Byte>>, part: seq<Byte>)
    requires EnvOk(env) && Ordered(env, messages, d, replies, part) && !Busy(env, d) && !d.machine.core.mode.Fatal?
    ensures |replies| == |messages| && d.out == Concat(replies) && d.rest == [] && d.machine.core.mode.Idle?
  {
    hide EnvOk, MachineOk, IsReplyTo, Ordered;
    if |replies| < |messages| || d.rest != [] || !d.machine.core.mode.Idle? {
      MoreToDo(env, messages, d, replies, part);
    } else {
      AllOut(env, messages, d, replies, part);
    }
  }

  lemma AllOut(env: Env, messages: seq<Message>, d: Config, replies: seq<seq<Byte>>, part: seq<Byte>)
    requires EnvOk(env) && Ordered(env, messages, d, replies, part) && d.machine.core.mode.Idle? && |replies| >= |messages|
    ensures |replies| == |messages| && d.out == Concat(replies)
  {
    hide EnvOk, MachineOk, IsReplyTo;
  }

  lemma MoreToDo(env: Env, messages: seq<Message>, d: Config, replies: seq<seq<Byte>>, part: seq<Byte>)
    requires EnvOk(env) && Ordered(env, messages, d, replies, part) && !d.machine.core.mode.Fatal?
    requires |replies| < |messages| || d.rest != [] || !d.machine.core.mode.Idle?
    ensures Busy(env, d)
  {
    hide EnvOk, MachineOk, IsReplyTo, Micro, Proper;
    var k := |replies|;
    match d.machine.core.mode {
      case Idle =>
        if k < |messages| { IdleBusy(env, messages, d, replies); }
      case Reading(_) => var _, _ := ReadServed(env, messages, d, replies, part);
      case Growing(_) => var _ := GrowServed(env, messages, d, replies);
      case _ => InputBusy(env, messages, d, replies, part);
    }
  }

  lemma IdleBusy(env: Env, messages: seq<Message>, g: Config, replies: seq<seq<Byte>>)
    requires EnvOk(env) && Ordered(env, messages, g, replies, []) && g.machine.core.mode.Idle? && |replies| < |messages|
    ensures Busy(env, g)
  {
    hide EnvOk, MachineOk, Micro, Ordered;
    if Kind(messages[|replies|]) == FXP_WRITE { WriteBegins(env, messages, g, replies); }
    else if |messages[|replies|]| - 4 > MAX_REQUEST { var _ := SkipBegins(env, messages, g, replies); }
    else { var _, _ := PacketServed(env, messages, g, replies); }
  }

  lemma InputBusy(env: Env, messages: seq<Message>, g: Config, replies: seq<seq<Byte>>, part: seq<Byte>)
    requires EnvOk(env) && Ordered(env, messages, g, replies, part) && (g.machine.core.mode.Writing? || g.machine.core.mode.Skipping?)
    ensures Busy(env, g)
  {
    hide EnvOk, Wf, JobOk, IsReplyTo, OnChunk, WriteReply, Proper;
    if g.machine.core.mode.Skipping? { SkipPositive(env, g.machine.core); }
  }
}
