/** Whole sessions: any way of feeding, polling, stepping and sending, against the one run the stream has. */
module SftpDrive {
  import opened Bytes
  import opened SftpVolume
  import opened SftpModel
  import opened SftpStream
  import opened SftpCursors
  import opened SftpRuns
  import opened SftpMachine
  import opened SftpFollows
  import opened SftpRequests
  import opened SftpHonest
  import opened SftpProgress
  import opened SftpDisk
  import opened SftpServer

  /** One call of the SSH layer. */
  datatype Event = Feeding(bytes: nat) | Polling | Stepping | Sending(most: nat)

  /** The server, what has left it before, and all it will still be given. */
  ghost function Whole(server: Sftp, disk: Disk, sent: seq<Byte>, unsent: seq<Byte>): Config
    reads server, disk
  {
    Config(server.Mach(disk), sent + server.out, server.input + unsent)
  }

  /** One call takes the run of the stream some units further, or leaves it where it is. */
  method Perform(env: Env, server: Sftp, disk: Disk, ghost sent: seq<Byte>, unsent: seq<Byte>, event: Event)
      returns (taken: seq<Byte>, used: nat, ghost n: nat)
    requires server.Valid(env, disk)
    modifies server, disk
    ensures server.Valid(env, disk) && used <= |unsent|
    ensures Reaches(env, old(Whole(server, disk, sent, unsent)), n, Whole(server, disk, sent + taken, unsent[used..]))
  {
    hide Sftp.Valid, EnvOk, MachineOk, Reaches;
    taken, used, n := [], 0, 0;
    ghost var g := server.Conf(disk);
    ValidReaches(env, server, disk, sent, unsent);
    assert unsent[0..] == unsent && sent + [] == sent;
    match event {
      case Feeding(bytes) =>
        var space := server.InputSpace();
        used := Min(bytes, Min(space, |unsent|));
        FitsInput(env, server, disk, space);
        server.Feed(env, disk, unsent[..used]);
        assert g.rest + unsent == g.rest + unsent[..used] + unsent[used..];
      case Polling => server.BeginPoll(env, disk);
      case Stepping =>
        var _, m := server.Step(env, disk);
        n := m;
        StepsWhole(env, g, n, server.Conf(disk), sent, unsent);
      case Sending(most) =>
        taken := server.ConsumeOutput(env, disk, most);
        assert sent + g.out == sent + taken + server.out;
    }
  }

  lemma ValidReaches(env: Env, server: Sftp, disk: Disk, sent: seq<Byte>, unsent: seq<Byte>)
    requires server.Valid(env, disk)
    ensures EnvOk(env) && Reaches(env, Whole(server, disk, sent, unsent), 0, Whole(server, disk, sent, unsent))
  {
    hide EnvOk, MachineOk;
    ReachesNone(env, Whole(server, disk, sent, unsent));
  }

  lemma FitsInput(env: Env, server: Sftp, disk: Disk, space: nat)
    requires server.Valid(env, disk) && (|server.input| <= MAX_INPUT ==> |server.input| + space == MAX_INPUT)
    ensures |server.input| + space == MAX_INPUT
  {
    hide EnvOk, MachineOk;
  }

  lemma StepsWhole(env: Env, g: Config, n: nat, d: Config, sent: seq<Byte>, unsent: seq<Byte>)
    requires EnvOk(env) && Reaches(env, g, n, d)
    ensures Reaches(env, Config(g.machine, sent + g.out, g.rest + unsent), n, Config(d.machine, sent + d.out, d.rest + unsent))
  {
    hide EnvOk, Reaches;
    ReachesWith(env, g, n, d, unsent);
    ReachesShift(env, With(g, unsent), n, With(d, unsent), sent);
  }

  /**
   Runs a session over `stream` in any order of calls. Whatever the stream is and has
   done to the files, what has been sent and what is queued is where `n` units of the
   one run of the stream lead.
   */
  method Drive(env: Env, server: Sftp, disk: Disk, stream: seq<Byte>, schedule: seq<Event>)
      returns (sent: seq<Byte>, fed: nat, ghost n: nat)
    requires server.Valid(env, disk) && server.input == [] && server.out == []
    modifies server, disk
    ensures server.Valid(env, disk) && fed <= |stream|
    ensures Reaches(env, Config(old(server.Mach(disk)), [], stream), n, Whole(server, disk, sent, stream[fed..]))
  {
    hide EnvOk, Reaches, Sftp.Valid, Whole;
    sent, fed, n := [], 0, 0;
    ghost var start := Config(server.Mach(disk), [], stream);
    ValidReaches(env, server, disk, [], stream);
    AtStart(server, disk, stream);
    assert stream[0..] == stream;
    for i := 0 to |schedule|
      invariant server.Valid(env, disk) && fed <= |stream| && EnvOk(env)
      invariant Reaches(env, start, n, Whole(server, disk, sent, stream[fed..]))
    {
      ghost var here := Whole(server, disk, sent, stream[fed..]);
      var taken, used, k := Perform(env, server, disk, sent, stream[fed..], schedule[i]);
      assert stream[fed..][used..] == stream[fed + used..];
      sent, fed := sent + taken, fed + used;
      ReachesMore(env, start, n, here, k, Whole(server, disk, sent, stream[fed..]));
      n := n + k;
    }
  }

  lemma AtStart(server: Sftp, disk: Disk, stream: seq<Byte>)
    requires server.input == [] && server.out == []
    ensures Whole(server, disk, [], stream) == Config(server.Mach(disk), [], stream)
  {
    assert [] + server.out == [] && server.input + stream == stream;
  }

  /**
   Two sessions over the same stream from the same state: the bytes one has emitted
   are the beginning of the other's, and where neither has anything left to do they
   have emitted the same bytes and made the same of the volume.
   */
  lemma SchedulesAgree(env: Env, start: Config, n: nat, d: Config, k: nat, e: Config)
    requires EnvOk(env) && Reaches(env, start, n, d) && Reaches(env, start, k, e)
    ensures d.out <= e.out || e.out <= d.out
    ensures !Busy(env, d) && !Busy(env, e) ==> d == e
  {
    hide EnvOk, Reaches, Busy;
    OneOutput(env, start, n, d, k, e);
    if !Busy(env, d) && !Busy(env, e) { OneEnd(env, start, n, d, k, e); }
  }

  /** One poll: feed what fits, free the card, do one step, send everything. */
  method Poll(env: Env, server: Sftp, disk: Disk, ghost sent: seq<Byte>, unsent: seq<Byte>)
      returns (taken: seq<Byte>, used: nat, did: bool, ghost n: nat)
    requires server.Valid(env, disk) && server.out == []
    modifies server, disk
    ensures server.Valid(env, disk) && server.out == [] && used <= |unsent| && EnvOk(env)
    ensures Reaches(env, old(Whole(server, disk, sent, unsent)), n, Whole(server, disk, sent + taken, unsent[used..]))
    ensures did ==> n > 0
    ensures !did ==> !Busy(env, Whole(server, disk, sent + taken, unsent[used..]))
  {
    hide Sftp.Valid, EnvOk, MachineOk, Reaches, Micro;
    ghost var g := Whole(server, disk, sent, unsent);
    var space := server.InputSpace();
    used := Min(space, |unsent|);
    FitsInput(env, server, disk, space);
    server.Feed(env, disk, unsent[..used]);
    assert unsent == unsent[..used] + unsent[used..];
    server.BeginPoll(env, disk);
    ghost var here := server.Conf(disk);
    did, n := server.Step(env, disk);
    StepsWhole(env, here, n, server.Conf(disk), sent, unsent[used..]);
    assert g == Config(here.machine, sent + here.out, here.rest + unsent[used..]);
    ghost var queued := server.out;
    taken := server.ConsumeOutput(env, disk, |server.out|);
    assert server.out == [] && taken + [] == taken == queued && sent + taken + [] == sent + taken;
    if !did { QuietWhole(env, server, disk, sent + taken, unsent[used..]); }
  }

  lemma QuietWhole(env: Env, server: Sftp, disk: Disk, sent: seq<Byte>, unsent: seq<Byte>)
    requires server.Valid(env, disk) && (server.fatal || (unsent == [] && !Busy(env, server.Conf(disk))))
    ensures EnvOk(env) && !Busy(env, Whole(server, disk, sent, unsent))
  {
    hide EnvOk, MachineOk, OnParse, OnRead, OnWrite, OnGrow;
    assert server.input + [] == server.input;
  }

  /**
   Polls until a poll finds nothing to do, `rounds` times at most. More rounds than
   the session has units of work are enough, unless it comes to a stale cursor or an
   endless header: then all there was to send has been sent.
   */
  method ServeAll(env: Env, server: Sftp, disk: Disk, stream: seq<Byte>, rounds: nat) returns (sent: seq<Byte>, quiet: bool)
    requires server.Valid(env, disk) && server.input == [] && server.out == []
    requires Exact(env, Config(server.Mach(disk), [], stream))
    modifies server, disk
    ensures server.Valid(env, disk)
    ensures var start, o := Config(old(server.Mach(disk)), [], stream), Run(env, old(server.View(disk)), stream);
            !Stops(o.core, o.rest) ==>
              && (rounds > Units(start) ==> quiet)
              && (quiet ==> sent == o.out && server.View(disk) == o.core && disk.root == o.core.root)
  {
    hide Sftp.Valid, EnvOk, MachineOk, Wf, Reaches, Micro, Exact, Run, Stops, Busy, Coherent, Units, Whole;
    ghost var start := Config(server.Mach(disk), [], stream);
    ValidReaches(env, server, disk, [], stream);
    AtStart(server, disk, stream);
    assert stream[0..] == stream;
    var fed := 0;
    ghost var n := 0;
    sent, quiet := [], false;
    for i := 0 to rounds
      invariant server.Valid(env, disk) && server.out == [] && fed <= |stream| && EnvOk(env) && i <= n
      invariant Reaches(env, start, n, Whole(server, disk, sent, stream[fed..]))
    {
      ghost var here := Whole(server, disk, sent, stream[fed..]);
      var taken, used, did, k := Poll(env, server, disk, sent, stream[fed..]);
      assert stream[fed..][used..] == stream[fed + used..];
      sent, fed := sent + taken, fed + used;
      ReachesMore(env, start, n, here, k, Whole(server, disk, sent, stream[fed..]));
      n := n + k;
      if !did {
        quiet := true;
        break;
      }
    }
    ServedAll(env, start, n, Whole(server, disk, sent, stream[fed..]), !quiet, rounds);
    WholeIs(server, disk, sent, stream[fed..]);
  }

  lemma WholeIs(server: Sftp, disk: Disk, sent: seq<Byte>, unsent: seq<Byte>)
    requires server.out == []
    ensures Whole(server, disk, sent, unsent).out == sent && Whole(server, disk, sent, unsent).machine.core == server.View(disk)
    ensures server.View(disk).root == disk.root
  {
  }

  lemma ExactWf(env: Env, g: Config)
    requires EnvOk(env) && Exact(env, g)
    ensures Wf(env, g.machine.core)
  {
  }

  lemma ServedAll(env: Env, start: Config, n: nat, d: Config, more: bool, rounds: nat)
    requires EnvOk(env) && Exact(env, start) && Reaches(env, start, n, d) && (more ==> rounds <= n) && (!more ==> !Busy(env, d)) && start.out == []
    ensures var o := Run(env, start.machine.core, start.rest);
            !Stops(o.core, o.rest) ==> (rounds > Units(start) ==> !more) && (!more ==> d.out == o.out && d.machine.core == o.core)
  {
    hide EnvOk, MachineOk, Wf, Reaches, Micro, Exact, Run, Stops, Busy, Units, Coherent;
    ExactWf(env, start);
    var o := Run(env, start.machine.core, start.rest);
    PrefixNothing(o);
    if !Stops(o.core, o.rest) {
      StraightOrStopped(env, start, n, d);
      RunsEnd(env, start, n, d);
      if !more { FaithfulEnd(env, start, n, d); }
    }
  }

  // ---------------------------------------------------------------------
  // From the first message
  // ---------------------------------------------------------------------

  lemma OpeningWf(env: Env, root: Vol, nextId: nat)
    requires EnvOk(env) && TreeOk(env, root) && root.Dir?
    ensures Wf(env, Opening(root, nextId))
  {
    hide TreeOk, EnvOk;
  }

  lemma OpeningExact(env: Env, root: Vol, nextId: nat, stream: seq<Byte>)
    requires EnvOk(env) && TreeOk(env, root) && root.Dir?
    ensures Exact(env, Config(OpeningMachine(root, nextId), [], stream))
  {
    hide TreeOk, EnvOk;
    OpeningWf(env, root, nextId);
  }

  method NewSession(env: Env, disk: Disk) returns (server: Sftp)
    requires disk.Valid(env)
    ensures fresh(server) && server.Valid(env, disk) && server.input == [] && server.out == []
    ensures server.Mach(disk) == OpeningMachine(disk.root, disk.nextId)
  {
    hide TreeOk, EnvOk, Coherent, Wf;
    server := new Sftp();
    OpeningExact(env, disk.root, disk.nextId, []);
    assert Slots(server.handles) == seq(MAX_HANDLES, _ => Free);
    assert Caches(server.handles) == seq(MAX_HANDLES, _ => NO_CACHE);
  }

  /** One of two sequences begins the other. */
  predicate Comparable(a: seq<Byte>, b: seq<Byte>) { a <= b || b <= a }

  /** What has been sent of the replies to messages of which the first `k` can be trusted. */
  lemma TrustedReplies(env: Env, root: Vol, nextId: nat, messages: seq<Message>, k: nat, n: nat, d: Config)
    requires EnvOk(env) && TreeOk(env, root) && root.Dir? && AllProper(messages) && k <= |messages|
    requires Reaches(env, Config(OpeningMachine(root, nextId), [], Concat(messages)), n, d)
    ensures Wf(env, Opening(root, nextId)) && AllProper(messages[..k])
    ensures AllTrusted(env, Opening(root, nextId), messages[..k]) ==>
              Comparable(d.out, Concat(Conversation(env, Opening(root, nextId), messages[..k]).replies))
  {
    hide TreeOk, EnvOk, Wf, Run, Reaches, AllTrusted, Proper, Exact, Stops, Coherent;
    var c, start := Opening(root, nextId), Config(OpeningMachine(root, nextId), [], Concat(messages));
    OpeningWf(env, root, nextId);
    OpeningExact(env, root, nextId, Concat(messages));
    ConcatSplits(messages, k);
    Faithful(env, start, n, d);
    PrefixNothing(Run(env, c, Concat(messages)));
    if AllTrusted(env, c, messages[..k]) {
      ConversationThen(env, c, messages[..k], Concat(messages[k..]));
      var t := Conversation(env, c, messages[..k]);
      BothBegin(d.out, Total(env, start).out, Concat(t.replies));
    }
  }

  lemma BothBegin(a: seq<Byte>, whole: seq<Byte>, b: seq<Byte>)
    requires (a <= whole || whole <= a) && b <= whole
    ensures Comparable(a, b)
  {
  }

  lemma {:induction false} ConcatSplits(parts: seq<seq<Byte>>, k: nat)
    requires k <= |parts|
    ensures Concat(parts) == Concat(parts[..k]) + Concat(parts[k..])
  {
    if k == 0 {
      assert parts[..0] == [] && parts[0..] == parts;
    } else {
      ConcatSplits(parts[1..], k - 1);
      assert parts[..k][1..] == parts[1..][..k - 1] && parts[1..][k - 1..] == parts[k..];
    }
  }

  /** A session of trusted messages with nothing left to do has done what serving them one by one does. */
  lemma TrustedEnd(env: Env, root: Vol, nextId: nat, messages: seq<Message>, n: nat, d: Config)
    requires EnvOk(env) && TreeOk(env, root) && root.Dir? && AllProper(messages) && Wf(env, Opening(root, nextId))
    requires AllTrusted(env, Opening(root, nextId), messages)
    requires Reaches(env, Config(OpeningMachine(root, nextId), [], Concat(messages)), n, d)
    ensures var t := Conversation(env, Opening(root, nextId), messages);
            && d.out <= Concat(t.replies)
            && (!Busy(env, d) ==> d.out == Concat(t.replies) && d.machine.core == t.core && d.rest == [])
  {
    hide TreeOk, EnvOk, Wf, Run, Reaches, AllTrusted, Proper, Exact, Coherent, Busy;
    var c, start := Opening(root, nextId), Config(OpeningMachine(root, nextId), [], Concat(messages));
    OpeningExact(env, root, nextId, Concat(messages));
    StreamIsConversation(env, c, messages);
    PrefixNothing(Run(env, c, Concat(messages)));
    var t := Conversation(env, c, messages);
    assert Total(env, start) == Outcome(Concat(t.replies), t.core, []);
    assert !Stops(t.core, []);
    Faithful(env, start, n, d);
    if !Busy(env, d) { FaithfulEnd(env, start, n, d); }
  }

  /** All that can be said of the replies to a stream of messages, wherever `n` units of work have led. */
  lemma SessionLaws(env: Env, root: Vol, nextId: nat, messages: seq<Message>, n: nat, d: Config, more: bool)
      returns (replies: seq<seq<Byte>>, part: seq<Byte>)
    requires EnvOk(env) && TreeOk(env, root) && root.Dir? && AllProper(messages)
    requires Reaches(env, Config(OpeningMachine(root, nextId), [], Concat(messages)), n, d)
    requires !more ==> !Busy(env, d) && !d.machine.core.mode.Fatal?
    ensures Wf(env, Opening(root, nextId)) && RepliesTo(messages, replies) && d.out == Concat(replies) + part
    ensures part != [] ==> |replies| < |messages| && exists left :: left > 0 && PartialData(messages[|replies|], part, left)
    ensures !more ==> |replies| == |messages| && d.out == Concat(replies)
    ensures forall k :: 0 <= k <= |messages| && AllTrusted(env, Opening(root, nextId), messages[..k]) ==>
              Comparable(d.out, Concat(Conversation(env, Opening(root, nextId), messages[..k]).replies))
    ensures AllTrusted(env, Opening(root, nextId), messages) ==>
              var t := Conversation(env, Opening(root, nextId), messages);
              d.out <= Concat(t.replies) && (!more ==> d.out == Concat(t.replies) && d.machine.core.root == t.core.root)
  {
    hide TreeOk, EnvOk, Wf, Reaches, Ordered, RepliesTo, PartialData, AllTrusted, Conversation, Proper, Busy, MachineOk, Exact, Comparable;
    OpeningWf(env, root, nextId);
    var start := OpeningMachine(root, nextId);
    OpeningMachineOk(env, root, nextId);
    AtFirst(env, start, messages);
    replies, part := HonestRun(env, messages, Config(start, [], Concat(messages)), [], [], n, d);
    OrderedMeans(env, messages, d, replies, part);
    if !more { HonestEnd(env, messages, d, replies, part); }
    forall k | 0 <= k <= |messages| && AllTrusted(env, Opening(root, nextId), messages[..k])
      ensures Comparable(d.out, Concat(Conversation(env, Opening(root, nextId), messages[..k]).replies))
    {
      TrustedReplies(env, root, nextId, messages, k, n, d);
    }
    if AllTrusted(env, Opening(root, nextId), messages) { TrustedEnd(env, root, nextId, messages, n, d); }
  }

  lemma OpeningMachineOk(env: Env, root: Vol, nextId: nat)
    requires EnvOk(env) && TreeOk(env, root) && root.Dir?
    ensures MachineOk(env, OpeningMachine(root, nextId))
  {
    hide TreeOk, EnvOk;
    OpeningWf(env, root, nextId);
  }

  /**
   A whole session: any messages, cut and scheduled in any way. What has been sent is
   made of whole honest replies to the first of them and part of a DATA reply at most,
   and is what serving them one by one gives for as long as no message goes through a
   handle that has lost its file. A server with nothing left to do that has not ended
   the session has answered every message.
   */
  method Session(env: Env, disk: Disk, messages: seq<Message>, schedule: seq<Event>)
      returns (sent: seq<Byte>, quiet: bool, ghost replies: seq<seq<Byte>>, ghost part: seq<Byte>)
    requires disk.Valid(env) && AllProper(messages)
    modifies disk
    ensures disk.Valid(env) && Wf(env, Opening(old(disk.root), old(disk.nextId)))
    ensures RepliesTo(messages, replies) && sent <= Concat(replies) + part
    ensures part != [] ==> |replies| < |messages| && exists left :: left > 0 && PartialData(messages[|replies|], part, left)
    ensures quiet ==> |replies| == |messages| && sent == Concat(replies)
    ensures forall k :: 0 <= k <= |messages| && AllTrusted(env, Opening(old(disk.root), old(disk.nextId)), messages[..k]) ==>
              Comparable(sent, Concat(Conversation(env, Opening(old(disk.root), old(disk.nextId)), messages[..k]).replies))
    ensures var c := Opening(old(disk.root), old(disk.nextId));
            AllTrusted(env, c, messages) ==>
              var t := Conversation(env, c, messages);
              sent <= Concat(t.replies) && (quiet ==> sent == Concat(t.replies) && disk.root == t.core.root)
  {
    hide TreeOk, EnvOk, Wf, Reaches, Sftp.Valid, Ordered, RepliesTo, PartialData, AllTrusted, Conversation, Proper, Busy, Micro, MachineOk;
    ghost var root, nextId := disk.root, disk.nextId;
    OpeningWf(env, root, nextId);
    var server := NewSession(env, disk);
    ghost var start := Config(server.Mach(disk), [], Concat(messages));
    var stream, fed := Concat(messages), 0;
    ghost var n;
    sent, fed, n := Drive(env, server, disk, stream, schedule);
    var unsent := stream[fed..];
    ghost var d := Whole(server, disk, sent, unsent);
    quiet := false;
    if fed == |stream| && server.out == [] {
      assert unsent == [];
      ghost var m;
      quiet, m := LastStep(env, server, disk, sent);
      ReachesMore(env, start, n, d, m, Whole(server, disk, sent, []));
      n, d := n + m, Whole(server, disk, sent, []);
    }
    replies, part := SessionLaws(env, root, nextId, messages, n, d, !quiet);
  }

  /** One step on a card that is free, when all replies have left. */
  method LastStep(env: Env, server: Sftp, disk: Disk, ghost sent: seq<Byte>) returns (quiet: bool, ghost n: nat)
    requires server.Valid(env, disk) && server.out == []
    modifies server, disk
    ensures server.Valid(env, disk) && EnvOk(env) && Reaches(env, old(Whole(server, disk, sent, [])), n, Whole(server, disk, sent, []))
    ensures quiet ==> server.out == [] && !Busy(env, Whole(server, disk, sent, [])) && !server.Mach(disk).core.mode.Fatal?
  {
    hide TreeOk, EnvOk, Reaches, Micro, MachineOk;
    server.BeginPoll(env, disk);
    ghost var g := server.Conf(disk);
    var did, m := server.Step(env, disk);
    n := m;
    StepsWhole(env, g, n, server.Conf(disk), sent, []);
    quiet := !did && !server.fatal;
    assert server.input + [] == server.input;
  }

  lemma OrderedMeans(env: Env, messages: seq<Message>, d: Config, replies: seq<seq<Byte>>, part: seq<Byte>)
    requires EnvOk(env) && Ordered(env, messages, d, replies, part)
    ensures RepliesTo(messages, replies) && d.out == Concat(replies) + part
    ensures part != [] ==> |replies| < |messages| && exists left :: left > 0 && PartialData(messages[|replies|], part, left)
  {
    hide EnvOk, Wf, JobOk, IsReplyTo, PartialData;
    if d.machine.core.mode.Reading? {
      ReadOwes(env, d.machine.core);
      assert PartialData(messages[|replies|], part, d.machine.core.mode.read.remaining);
    }
  }
}
