/** OPENDIR and then READDIR to the end, read as a client reads it. */
module SftpListing {
  import opened Bytes
  import opened FatTree
  import opened FsPath
  import opened Wire
  import opened SftpVolume
  import opened SftpModel
  import opened SftpStream
  import opened SftpWrites
  import opened SftpRequests
  import opened SftpLaws
  import opened SftpRefusals
  import opened SftpTokens
  import opened SftpClient
  import opened SftpAttrs
  import opened SftpHandles

  // ---------------------------------------------------------------------
  // Reading a NAME reply
  // ---------------------------------------------------------------------

  /** One line of a listing: the name, a text like that of `ls -l`, and what STAT would tell. */
  datatype Line = Line(name: Name, text: seq<Byte>, shown: Shown)

  /** What the client reads is all lines, and nothing else. */
  predicate LinesAre(b: seq<Byte>, lines: seq<Line>) {
    if lines == [] then b == []
    else
      var name := TakeString(b);
      && name.Got?
      && var text := TakeString(name.rest);
      && text.Got? && AttrsAt(text.rest, 0)
      && lines[0] == Line(name.value, text.value, ShownAt(text.rest, 0)) && LinesAre(text.rest[24..], lines[1..])
  }

  /** Type 104, and after the id how many lines, and the lines. */
  predicate TellsLines(reply: seq<Byte>, lines: seq<Line>) {
    |reply| >= 13 && reply[4] == 104 && WordAt(reply, 9) == |lines| && LinesAre(reply[13..], lines)
  }

  /** What there is to list of an entry. */
  function LineFor(env: Env, e: Item): Line { Line(e.name, env.listing(e), Kept(env, e.node)) }

  function LinesFor(env: Env, entries: seq<Item>): seq<Line> { seq(|entries|, i requires 0 <= i < |entries| => LineFor(env, entries[i])) }

  lemma {:induction false} NamesOfFirst(env: Env, e: Item, rest: seq<Item>)
    ensures NamesBytes(env, [e] + rest) == NameBytes(env, e) + NamesBytes(env, rest)
    decreases |rest|
  {
    hide NameBytes;
    var all := [e] + rest;
    if rest == [] {
      assert all[..0] == [] && all[0] == e;
      assert NamesBytes(env, []) == [];
    } else {
      var last := |rest| - 1;
      assert all[..|all| - 1] == [e] + rest[..last] && all[|all| - 1] == rest[last];
      NamesOfFirst(env, e, rest[..last]);
    }
  }

  /** An entry of the tree: its name, listing line and size fit their fields. */
  ghost predicate Listable(env: Env, e: Item) { |e.name| < U32_LIMIT && |env.listing(e)| < U32_LIMIT && SizeOf(e.node) < U64_LIMIT }

  lemma LineRead(env: Env, e: Item, rest: seq<Byte>)
    requires Listable(env, e)
    ensures var b := NameBytes(env, e) + rest;
            var name := TakeString(b);
            && name.Got?
            && var text := TakeString(name.rest);
            && text.Got? && AttrsAt(text.rest, 0) && LineFor(env, e) == Line(name.value, text.value, ShownAt(text.rest, 0)) && text.rest[24..] == rest
  {
    hide AttrBytes, TakeString, Kept, AttrsAt, ShownAt, Str;
    var attrs := AttrBytes(env, e.node);
    var b := NameBytes(env, e) + rest;
    assert b == Str(e.name) + (Str(env.listing(e)) + (attrs + rest));
    TakesString(e.name, Str(env.listing(e)) + (attrs + rest));
    TakesString(env.listing(e), attrs + rest);
    AttrsRead(env, e.node);
    assert (attrs + rest)[0..24] == attrs && (attrs + rest)[24..] == rest;
    AttrsInside(attrs + rest, 0, attrs);
  }

  lemma {:induction false} LinesRead(env: Env, entries: seq<Item>)
    requires forall i :: 0 <= i < |entries| ==> Listable(env, entries[i])
    ensures LinesAre(NamesBytes(env, entries), LinesFor(env, entries))
    decreases |entries|
  {
    hide NameBytes, TakeString, AttrsAt, ShownAt, Listable, LineFor;
    if entries != [] {
      var e, rest := entries[0], entries[1..];
      assert entries == [e] + rest;
      NamesOfFirst(env, e, rest);
      LineRead(env, e, NamesBytes(env, rest));
      LinesRead(env, rest);
      assert LinesFor(env, entries)[1..] == LinesFor(env, rest);
    }
  }

  lemma NamesRead(env: Env, id: nat, entries: seq<Item>)
    requires |entries| < U32_LIMIT && forall i :: 0 <= i < |entries| ==> Listable(env, entries[i])
    ensures TellsLines(NamesReply(id, |entries|, NamesBytes(env, entries)), LinesFor(env, entries))
  {
    hide Be32, FromBe32, NamesBytes, LinesAre, Listable, LineFor;
    LinesRead(env, entries);
    Be32RoundTrip(|entries|);
    var names := NamesBytes(env, entries);
    var reply := NamesReply(id, |entries|, names);
    assert reply[9..13] == Be32(|entries|) && reply[13..] == names;
  }

  lemma EntriesListable(env: Env, c: Core, path: Path)
    requires EnvOk(env) && Wf(env, c) && IsDir(c.root, path)
    ensures forall i :: 0 <= i < |Lookup(c.root, path).value.entries| ==> Listable(env, Lookup(c.root, path).value.entries[i])
  {
    hide Lookup, ModeOk;
    LookupOk(env, c.root, path);
  }

  // ---------------------------------------------------------------------
  // OPENDIR
  // ---------------------------------------------------------------------

  lemma DirSlotGiven(c: Core, id: nat, path: Path)
    requires |c.slots| == |c.tokens| <= 256
    ensures var s := ServeOpenDir(c, id, path);
            && (GivesHandle(s.out) <==> IsDir(c.root, path) && SlotLeft(c))
            && (!GivesHandle(s.out) ==> s.core == c && exists status: Status :: 0 < status.code < 256 && s.out == StatusReply(id, status))
            && (GivesHandle(s.out) ==>
                  var slot := SlotOf(s.core, HandleIn(s.out));
                  s.core.root == c.root && slot.Some? && s.core.slots[slot.value] == DirSlot(path, 0))
  {
    hide Text, StatusReply, HandleReply, GivesHandle, HandleIn, Be32, FromBe32, TokenFor, Lookup;
    var s, a := ServeOpenDir(c, id, path), Allocated(c, DirSlot(path, 0));
    if !IsDir(c.root, path) || a.None? {
      var status := if IsDir(c.root, path) then Failure("Too many open handles")
                    else if path != [] && Lookup(c.root, path).Some? then Failure("Not a directory") else NO_SUCH_FILE;
      StatusRead(id, status);
      assert s.out == StatusReply(id, status);
    } else {
      var (d, i) := a.value;
      HandleRead(id, d.tokens[i]);
      TokenFits(d.generation, i);
      Be32RoundTrip(d.tokens[i]);
    }
  }

  /** OPENDIR gives a handle exactly for a directory while one is free, and changes nothing on the card. */
  lemma OpenDirGives(env: Env, c: Core, id: nat, p: seq<Byte>, owner: seq<Byte>)
    requires EnvOk(env) && Wf(env, c) && c.mode.Idle? && Sends(id, OpenDir(p), owner)
    ensures var s := Asked(env, c, id, OpenDir(p), owner);
            && (GivesHandle(s.out) <==> IsDir(c.root, Resolved([], p)) && SlotLeft(c))
            && (!GivesHandle(s.out) ==> Refusal(s.out) && s.core == c) && s.core.root == c.root
  {
    hide EnvOk, TreeOk, ModeOk, ServeOpenDir, Sends, StatusReply, GivesHandle, Refusal, Resolved, SlotLeft, Asked, IsDir, SlotOf;
    AskedIs(env, c, id, OpenDir(p), owner);
    DirSlotGiven(c, id, Resolved([], p));
    var s := Asked(env, c, id, OpenDir(p), owner);
    if !GivesHandle(s.out) {
      var status: Status :| 0 < status.code < 256 && s.out == StatusReply(id, status);
      StatusRefuses(id, status);
    }
  }

  // ---------------------------------------------------------------------
  // READDIR to the end
  // ---------------------------------------------------------------------

  /** The same READDIR again and again. */
  function Asking(ask: nat, token: Token, owner: seq<Byte>, times: nat): seq<Message> { seq(times, _ => Sent(ask, ReadDir(token), owner)) }

  lemma {:induction false} ReadDirsSaid(env: Env, c: Core, ask: nat, token: Token, owner: seq<Byte>, times: nat)
    requires EnvOk(env) && Wf(env, c) && c.mode.Idle? && Sends(ask, ReadDir(token), owner)
    ensures AllProper(Asking(ask, token, owner, times))
    ensures Conversation(env, c, Asking(ask, token, owner, times)).replies == ReadDirs(env, c, ask, token, times).replies
    decreases times
  {
    hide EnvOk, Wf, ServeReadDir, Sends, ServeMessage, Sent, IsReplyTo, Proper;
    SentServed(env, c, ask, ReadDir(token), owner);
    if times > 0 {
      var all, m := Asking(ask, token, owner, times), Sent(ask, ReadDir(token), owner);
      assert all[1..] == Asking(ask, token, owner, times - 1) && all[0] == m;
      ReadyAgain(env, c, m);
      ReadDirOk(env, c, ask, token);
      CompletedIdle(env, Serve(env, c, ask, ReadDir(token)));
      ReadDirsSaid(env, ServeMessage(env, c, m).core, ask, token, owner, times - 1);
    }
  }

  lemma {:induction false} ListingReplyAt(env: Env, id: nat, batches: seq<seq<Item>>, i: nat)
    requires i <= |batches|
    ensures ListingReplies(env, id, batches)[i] ==
            if i < |batches| then NamesReply(id, |batches[i]|, NamesBytes(env, batches[i])) else StatusReply(id, END_OF_DIRECTORY)
    decreases i
  {
    hide NamesReply, NamesBytes, StatusReply;
    if i > 0 {
      assert batches[1..][i - 1..] == batches[i..];
      ListingReplyAt(env, id, batches[1..], i - 1);
    }
  }

  function AllLines(batches: seq<seq<Line>>): seq<Line> { if batches == [] then [] else batches[0] + AllLines(batches[1..]) }

  function LineBatches(env: Env, batches: seq<seq<Item>>): seq<seq<Line>> {
    seq(|batches|, i requires 0 <= i < |batches| => LinesFor(env, batches[i]))
  }

  lemma {:induction false} LinesInOrder(env: Env, batches: seq<seq<Item>>)
    ensures AllLines(LineBatches(env, batches)) == LinesFor(env, Flat(batches))
    decreases |batches|
  {
    hide LineFor;
    if batches != [] {
      assert LineBatches(env, batches)[1..] == LineBatches(env, batches[1..]);
      LinesInOrder(env, batches[1..]);
      LinesOfBoth(env, batches[0], Flat(batches[1..]));
    }
  }

  lemma LinesOfBoth(env: Env, a: seq<Item>, b: seq<Item>)
    ensures LinesFor(env, a + b) == LinesFor(env, a) + LinesFor(env, b)
  {
    hide LineFor;
  }

  lemma {:induction false} BatchFull(env: Env, entries: seq<Item>, taken: nat)
    requires taken <= |entries|
    ensures var n := BatchFrom(env, entries, taken);
            n == |entries| || n >= READDIR_MAX_ENTRIES || |NamesBytes(env, entries[..n])| >= READDIR_MAX_BYTES
    decreases |entries| - taken
  {
    hide NamesBytes;
    if taken < |entries| && taken < READDIR_MAX_ENTRIES && |NamesBytes(env, entries[..taken])| < READDIR_MAX_BYTES {
      BatchFull(env, entries, taken + 1);
    }
  }

  /** Only the last batch of a listing has room left. */
  lemma {:induction false} ListingFull(env: Env, entries: seq<Item>, next: nat, i: nat)
    requires next <= |entries| && i + 1 < |Listing(env, entries, next)|
    ensures var b := Listing(env, entries, next)[i]; |b| >= READDIR_MAX_ENTRIES || |NamesBytes(env, b)| >= READDIR_MAX_BYTES
    decreases i
  {
    hide Batch, Unsent, Listing, NamesBytes;
    ListingStep(env, entries, next);
    var left := Unsent(entries, next);
    var n := Batch(env, left);
    if i > 0 {
      ListingFull(env, entries, next + n, i - 1);
    } else {
      ListingStep(env, entries, next + n);
      BatchIs(env, left);
      BatchFull(env, left, 0);
    }
  }

  lemma BatchIs(env: Env, entries: seq<Item>)
    ensures Batch(env, entries) == BatchFrom(env, entries, 0)
  {
  }

  /** READDIR after READDIR is answered with these lines, 1 to 24 at a time and as many as fit, and then with the end. */
  ghost predicate Lists(env: Env, c: Core, ask: nat, token: Token, owner: seq<Byte>, batches: seq<seq<Line>>)
    requires EnvOk(env) && Wf(env, c) && c.mode.Idle?
  {
    var messages := Asking(ask, token, owner, |batches| + 1);
    && AllProper(messages)
    && var replies := Conversation(env, c, messages).replies;
    && (forall i :: 0 <= i < |batches| ==> TellsLines(replies[i], batches[i]) && 1 <= |batches[i]| <= 24)
    && (forall i :: 0 <= i < |batches| - 1 ==> |batches[i]| == 24 || |replies[i]| >= 13 + 3072)
    && TellsStatus(replies[|batches|], 1)
  }

  /** OPENDIR, and READDIR to the end: every entry of the directory at that path is told, once and in order, and nothing else. */
  lemma OpenThenList(env: Env, c: Core, id: nat, p: seq<Byte>, owner: seq<Byte>, ask: nat)
    requires EnvOk(env) && Wf(env, c) && c.mode.Idle? && Sends(id, OpenDir(p), owner) && ask < U32_LIMIT
    requires GivesHandle(Asked(env, c, id, OpenDir(p), owner).out)
    ensures var s, path := Asked(env, c, id, OpenDir(p), owner), Resolved([], p);
            && IsDir(c.root, path)
            && exists batches ::
                 Lists(env, s.core, ask, HandleIn(s.out), owner, batches) && AllLines(batches) == LinesFor(env, Lookup(c.root, path).value.entries)
  {
    hide EnvOk, TreeOk, ModeOk, Wf, ServeOpenDir, Sends, GivesHandle, Resolved, SlotLeft, Asked, SlotOf, Lists, LinesFor, Lookup;
    var path := Resolved([], p);
    AskedIs(env, c, id, OpenDir(p), owner);
    TableSizes(env, c);
    DirSlotGiven(c, id, path);
    var s := Asked(env, c, id, OpenDir(p), owner);
    var token, entries := HandleIn(s.out), Lookup(c.root, path).value.entries;
    TokenSent(ask, token, id, p, owner);
    ListsAll(env, s.core, ask, token, owner, entries);
    ListsEachOnce(env, entries, 0);
    LinesInOrder(env, Listing(env, entries, 0));
    assert entries[0..] == entries;
  }

  lemma TableSizes(env: Env, c: Core)
    requires Wf(env, c)
    ensures |c.slots| == |c.tokens| <= 256
  {
  }

  lemma TokenSent(ask: nat, token: Token, id: nat, p: seq<Byte>, owner: seq<Byte>)
    requires ask < U32_LIMIT && |token| == 4 && Sends(id, OpenDir(p), owner)
    ensures Sends(ask, ReadDir(token), owner)
  {
    hide TextPath;
  }

  lemma ListsAll(env: Env, c: Core, ask: nat, token: Token, owner: seq<Byte>, entries: seq<Item>)
    requires EnvOk(env) && Wf(env, c) && c.mode.Idle? && Sends(ask, ReadDir(token), owner)
    requires var slot := SlotOf(c, token);
             slot.Some? && c.slots[slot.value].DirSlot? && c.slots[slot.value].next == 0 &&
             IsDir(c.root, c.slots[slot.value].path) && Lookup(c.root, c.slots[slot.value].path).value.entries == entries
    ensures Lists(env, c, ask, token, owner, LineBatches(env, Listing(env, entries, 0)))
  {
    hide EnvOk, Wf, Sends, SlotOf, Lookup, LinesFor, TellsLines, Conversation, NamesBytes, NamesReply, StatusReply, TellsStatus, Listing,
         Proper, Listable, Sent;
    var batches := Listing(env, entries, 0);
    var n := |batches|;
    ReadDirsSaid(env, c, ask, token, owner, n + 1);
    ReadDirEnumerates(env, c, ask, token, entries, 0);
    ListsEachOnce(env, entries, 0);
    EntriesListable(env, c, c.slots[SlotOf(c, token).value].path);
    BatchesFrom(env, batches, entries) by { assert entries[0..] == entries; }
    var replies := Conversation(env, c, Asking(ask, token, owner, n + 1)).replies;
    forall i | 0 <= i < n
      ensures TellsLines(replies[i], LineBatches(env, batches)[i]) && 1 <= |LineBatches(env, batches)[i]| <= 24
      ensures i < n - 1 ==> |LineBatches(env, batches)[i]| == 24 || |replies[i]| >= 13 + 3072
    {
      ListingReplyAt(env, ask, batches, i);
      NamesRead(env, ask, batches[i]);
      LineCount(env, batches[i]);
      ReplySize(ask, |batches[i]|, NamesBytes(env, batches[i]));
      if i < n - 1 { ListingFull(env, entries, 0, i); }
    }
    ListingReplyAt(env, ask, batches, n);
    StatusRead(ask, END_OF_DIRECTORY);
  }

  lemma ReplySize(id: nat, count: nat, names: seq<Byte>)
    ensures |NamesReply(id, count, names)| == 13 + |names|
  {
    hide Be32;
  }

  lemma LineCount(env: Env, entries: seq<Item>)
    ensures |LinesFor(env, entries)| == |entries|
  {
  }

  /** What is in a batch is in the directory. */
  lemma {:induction false} BatchesFrom(env: Env, batches: seq<seq<Item>>, entries: seq<Item>)
    requires Flat(batches) == entries && forall i :: 0 <= i < |entries| ==> Listable(env, entries[i])
    ensures forall i, j :: 0 <= i < |batches| && 0 <= j < |batches[i]| ==> Listable(env, batches[i][j])
    decreases |batches|
  {
    hide Listable;
    if batches != [] {
      var first, rest := batches[0], Flat(batches[1..]);
      assert forall j :: 0 <= j < |first| ==> first[j] == entries[j];
      assert forall j :: 0 <= j < |rest| ==> rest[j] == entries[|first| + j];
      BatchesFrom(env, batches[1..], rest);
    }
  }
}
