/** What a client can rely on: WRITE, SETSTAT and READ as operations on byte sequences, and READDIR as a list. */
module SftpLaws {
  import opened Bytes
  import opened FatTree
  import opened FatFile
  import opened Wire
  import opened SftpVolume
  import opened SftpModel
  import opened SftpStream
  import opened SftpRuns
  import opened SftpReplies
  import opened SftpWrites
  import opened SftpRequests

  // ---------------------------------------------------------------------
  // WRITE
  // ---------------------------------------------------------------------

  /** The file a WRITE's handle stands for. */
  function WriteTarget(c: Core, m: Message): Path
    requires Proper(m) && Kind(m) == FXP_WRITE && CheckWrite(c, WriteToken(m), WriteOffset(m), |WriteData(m)|).Pass?
  {
    PathOf(c.slots[CheckWrite(c, WriteToken(m), WriteOffset(m), |WriteData(m)|).slot])
  }

  function AppendsTo(c: Core, m: Message): bool
    requires Proper(m) && Kind(m) == FXP_WRITE && CheckWrite(c, WriteToken(m), WriteOffset(m), |WriteData(m)|).Pass?
  {
    c.slots[CheckWrite(c, WriteToken(m), WriteOffset(m), |WriteData(m)|).slot].append
  }

  /** The OK reply to a WRITE is the exact sign that the file holds the flat result. */
  lemma WriteLaw(env: Env, c: Core, m: Message)
    requires EnvOk(env) && Wf(env, c) && c.mode.Idle? && Proper(m) && Kind(m) == FXP_WRITE
    requires CheckWrite(c, WriteToken(m), WriteOffset(m), |WriteData(m)|).Pass?
    ensures var s, data := ServeMessage(env, c, m), WriteData(m);
            if data == [] then s == Served(c, StatusReply(IdIn(m), OK))
            else
              match StoreChunk(env, c.root, WriteTarget(c, m), AppendsTo(c, m), WriteOffset(m), data)
              case Stored(root) => s == Served(c.(root := root), StatusReply(IdIn(m), OK))
              case Refused(status) => s.out == StatusReply(IdIn(m), status)
  {
    hide Wf, EnvOk, StoreChunk, StatusReply, FromBe32, SlotOf;
    WriteStartedOk(env, c, m);
    var d, data := WriteStarted(c, m), WriteData(m);
    var slot := d.mode.write.slot;
    assert slot < |c.slots| && c.slots[slot].FileSlot? by { CheckedFile(c, WriteToken(m), WriteOffset(m), |data|); }
    if data != [] {
      PayloadIsOneStore(env, d, data);
    }
  }

  lemma CheckedFile(c: Core, token: Token, offset: nat, length: nat)
    ensures var check := CheckWrite(c, token, offset, length);
            check.Pass? ==> check.slot < |c.slots| && c.slots[check.slot].FileSlot? && c.slots[check.slot].writable && offset + length <= U32_TOP
  {
  }

  /** An appended payload that would pass the 4 GiB limit only after at least one whole chunk. */
  predicate PassesLimitLate(f: FatFile, append: bool, length: nat) {
    append && !f.meta.readOnly && |f.data| + WRITE_CHUNK <= U32_TOP < |f.data| + length
  }

  /** How much of it is stored: the whole chunks below the limit. */
  function ChunksBelowLimit(f: FatFile): nat
    requires |f.data| <= U32_TOP
  {
    (U32_TOP - |f.data|) / WRITE_CHUNK * WRITE_CHUNK
  }

  /** What a refused payload leaves of itself. */
  function LeftBehind(env: Env, c: Core, data: seq<Byte>): Vol
    requires EnvOk(env) && c.mode.Writing? && c.mode.write.slot < |c.slots| && c.slots[c.mode.write.slot].FileSlot?
  {
    var s := c.slots[c.mode.write.slot];
    var f := FileAt(c.root, PathOf(s));
    if f.Some? && PassesLimitLate(f.value, s.append, |data|) && ChunksBelowLimit(f.value) <= |data| then
      PutFile(c.root, PathOf(s), StoredFile(env, f.value, true, c.mode.write.offset, data[..ChunksBelowLimit(f.value)]))
    else c.root
  }

  /**
   A refused WRITE leaves the volume as it was, unless its handle appends and the payload
   passes the limit only after a whole chunk: then the whole chunks below the limit stay.
   */
  lemma RefusedLeaves(env: Env, c: Core, data: seq<Byte>)
    requires EnvOk(env) && Wf(env, c) && c.mode.Writing? && |data| == c.mode.write.remaining && data != [] && c.mode.write.failed.None?
    requires c.mode.write.slot < |c.slots| && c.slots[c.mode.write.slot].FileSlot?
    requires var s := c.slots[c.mode.write.slot]; StoreChunk(env, c.root, PathOf(s), s.append, c.mode.write.offset, data).Refused?
    ensures AfterPayload(env, c, data).root == LeftBehind(env, c, data)
    ensures var s := c.slots[c.mode.write.slot];
            var f := FileAt(c.root, PathOf(s));
            AfterPayload(env, c, data).root != c.root <==> f.Some? && PassesLimitLate(f.value, s.append, |data|)
  {
    hide Wf, StoreChunk, EnvOk, StoredFile;
    var w, s := c.mode.write, c.slots[c.mode.write.slot];
    var f := FileAt(c.root, PathOf(s));
    WriteFits(env, c);
    if f.Some? && PassesLimitLate(f.value, s.append, |data|) {
      TargetSound(env, c.root, PathOf(s));
      AppendStopsAtLimit(env, c, data);
      LimitChunks(f.value, |data|);
      Grows(env, c.root, PathOf(s), w.offset, data[..ChunksBelowLimit(f.value)]);
    } else {
      FirstRefused(env, c, data);
      DroppedAfterRefusal(env, c, data);
    }
  }

  lemma TargetSound(env: Env, root: Vol, path: Path)
    requires EnvOk(env) && TreeOk(env, root) && FileAt(root, path).Some?
    ensures |FileAt(root, path).value.data| <= U32_TOP
  {
    LookupOk(env, root, path);
  }

  lemma LimitChunks(f: FatFile, length: nat)
    requires |f.data| <= U32_TOP < |f.data| + length
    ensures ChunksBelowLimit(f) < length && |f.data| + ChunksBelowLimit(f) <= U32_TOP
    ensures |f.data| + WRITE_CHUNK <= U32_TOP ==> ChunksBelowLimit(f) >= WRITE_CHUNK
    ensures U32_TOP < |f.data| + WRITE_CHUNK ==> ChunksBelowLimit(f) == 0
  {
  }

  lemma Grows(env: Env, root: Vol, path: Path, offset: nat, bytes: seq<Byte>)
    requires EnvOk(env) && FileAt(root, path).Some? && bytes != []
    ensures PutFile(root, path, StoredFile(env, FileAt(root, path).value, true, offset, bytes)) != root
  {
    var f := FileAt(root, path).value;
    SizeAfter(env, f, true, offset, bytes);
    LookupPut(root, path, File(StoredFile(env, f, true, offset, bytes)));
  }

  /** In any other case the first chunk is refused already. */
  lemma FirstRefused(env: Env, c: Core, data: seq<Byte>)
    requires EnvOk(env) && Wf(env, c) && c.mode.Writing? && |data| == c.mode.write.remaining && c.mode.write.failed.None?
    requires c.mode.write.slot < |c.slots| && c.slots[c.mode.write.slot].FileSlot?
    requires var s := c.slots[c.mode.write.slot];
             && StoreChunk(env, c.root, PathOf(s), s.append, c.mode.write.offset, data).Refused?
             && var f := FileAt(c.root, PathOf(s)); !(f.Some? && PassesLimitLate(f.value, s.append, |data|))
    ensures var s := c.slots[c.mode.write.slot];
            StoreChunk(env, c.root, PathOf(s), s.append, c.mode.write.offset, data[..Min(|data|, WRITE_CHUNK)]).Refused?
  {
    WriteFits(env, c);
    hide Wf, EnvOk, Written, Extended;
  }

  lemma DroppedAfterRefusal(env: Env, c: Core, data: seq<Byte>)
    requires EnvOk(env) && Wf(env, c) && c.mode.Writing? && |data| == c.mode.write.remaining && data != [] && c.mode.write.failed.None?
    requires c.mode.write.slot < |c.slots| && c.slots[c.mode.write.slot].FileSlot?
    requires var s := c.slots[c.mode.write.slot];
             StoreChunk(env, c.root, PathOf(s), s.append, c.mode.write.offset, data[..Min(|data|, WRITE_CHUNK)]).Refused?
    ensures AfterPayload(env, c, data).root == c.root
  {
    hide Wf, StoreChunk, EnvOk;
    var n := Min(|data|, WRITE_CHUNK);
    ChunkOk(env, c, c.mode.write, data[..n]);
    ChunkCounts(env, c, c.mode.write, data[..n]);
    DroppedPayload(env, AfterChunk(env, c, c.mode.write, data[..n]), data[n..]);
  }

  /** Chunk after chunk is appended until one would pass the limit. */
  lemma {:induction false} AppendStopsAtLimit(env: Env, c: Core, data: seq<Byte>)
    requires EnvOk(env) && Wf(env, c) && c.mode.Writing? && |data| == c.mode.write.remaining && c.mode.write.failed.None?
    requires c.mode.write.slot < |c.slots| && c.slots[c.mode.write.slot].FileSlot? && c.slots[c.mode.write.slot].append
    requires var f := FileAt(c.root, PathOf(c.slots[c.mode.write.slot]));
             f.Some? && !f.value.meta.readOnly && |f.value.data| <= U32_TOP < |f.value.data| + |data|
    ensures var path := PathOf(c.slots[c.mode.write.slot]);
            var f := FileAt(c.root, path).value;
            && ChunksBelowLimit(f) <= |data|
            && AfterPayload(env, c, data).root == PutFile(c.root, path, StoredFile(env, f, true, c.mode.write.offset, data[..ChunksBelowLimit(f)]))
    decreases |data|
  {
    hide Wf, StoreChunk, EnvOk, StoredFile, ChunksBelowLimit, PutFile;
    var w, path := c.mode.write, PathOf(c.slots[c.mode.write.slot]);
    var f := FileAt(c.root, path).value;
    var n := Min(|data|, WRITE_CHUNK);
    LimitChunks(f, |data|);
    if |f.data| + n > U32_TOP {
      StoreOutcome(env, c.root, path, true, w.offset, data[..n]);
      DroppedAfterRefusal(env, c, data);
      WriteFits(env, c);
      NothingStored(env, c.root, path, w.offset);
      assert data[..0] == [];
    } else {
      assert n == WRITE_CHUNK;
      var first, rest := data[..n], data[n..];
      ChunkAppended(env, c, first);
      var next, stored := AfterChunk(env, c, w, first), StoredFile(env, f, true, w.offset, first);
      AppendStopsAtLimit(env, next, rest);
      LimitStep(f, stored);
      var k := ChunksBelowLimit(stored);
      assert first + rest[..k] == data[..ChunksBelowLimit(f)];
      AppendedTwice(env, c.root, next.root, path, w.offset, first, rest[..k]);
    }
  }

  /** A chunk below the limit is appended, and the WRITE goes on behind it. */
  lemma ChunkAppended(env: Env, c: Core, bytes: seq<Byte>)
    requires EnvOk(env) && Wf(env, c) && c.mode.Writing? && |bytes| <= c.mode.write.remaining && c.mode.write.failed.None?
    requires c.mode.write.slot < |c.slots| && c.slots[c.mode.write.slot].FileSlot? && c.slots[c.mode.write.slot].append
    requires var f := FileAt(c.root, PathOf(c.slots[c.mode.write.slot]));
             f.Some? && !f.value.meta.readOnly && |f.value.data| + |bytes| <= U32_TOP
    ensures var w, path := c.mode.write, PathOf(c.slots[c.mode.write.slot]);
            var f := FileAt(c.root, path).value;
            var next, stored := AfterChunk(env, c, w, bytes), StoredFile(env, f, true, w.offset, bytes);
            && Wf(env, next) && next.slots == c.slots
            && next.mode == Writing(w.(remaining := w.remaining - |bytes|, offset := w.offset + |bytes|))
            && next.root == PutFile(c.root, path, stored) && FileAt(next.root, path) == Some(stored)
            && stored.meta == f.meta && |stored.data| == |f.data| + |bytes|
  {
    hide Wf, StoreChunk, EnvOk, StoredFile;
    var w, path := c.mode.write, PathOf(c.slots[c.mode.write.slot]);
    var f := FileAt(c.root, path).value;
    StoreOutcome(env, c.root, path, true, w.offset, bytes);
    ChunkOk(env, c, w, bytes);
    LookupPut(c.root, path, File(StoredFile(env, f, true, w.offset, bytes)));
    SizeAfter(env, f, true, w.offset, bytes);
    StoredFileTwice(env, f, true, w.offset, bytes, []);
  }

  lemma AppendedTwice(env: Env, root: Vol, next: Vol, path: Path, offset: nat, a: seq<Byte>, b: seq<Byte>)
    requires EnvOk(env) && FileAt(root, path).Some?
    requires var stored := StoredFile(env, FileAt(root, path).value, true, offset, a);
             next == PutFile(root, path, stored) && FileAt(next, path) == Some(stored)
    ensures PutFile(next, path, StoredFile(env, FileAt(next, path).value, true, offset + |a|, b)) ==
              PutFile(root, path, StoredFile(env, FileAt(root, path).value, true, offset, a + b))
  {
    hide EnvOk, StoredFile;
    var f := FileAt(root, path).value;
    StoredFileTwice(env, f, true, offset, a, b);
    PutPut(root, path, File(StoredFile(env, f, true, offset, a)), File(StoredFile(env, f, true, offset, a + b)));
  }

  lemma LimitStep(f: FatFile, stored: FatFile)
    requires |stored.data| == |f.data| + WRITE_CHUNK <= U32_TOP
    ensures ChunksBelowLimit(f) == WRITE_CHUNK + ChunksBelowLimit(stored)
  {
  }

  lemma NothingStored(env: Env, root: Vol, path: Path, offset: nat)
    requires EnvOk(env) && TreeOk(env, root) && FileAt(root, path).Some?
    ensures PutFile(root, path, StoredFile(env, FileAt(root, path).value, true, offset, [])) == root
  {
    var f := FileAt(root, path).value;
    PutSame(root, path);
    LookupOk(env, root, path);
    assert Overlay(f.data, |f.data|, []) == f.data;
  }

  /** 12000 bytes appended 10000 below the limit are refused, and the first 8192 of them stay. */
  lemma LateRefusal(env: Env, c: Core, m: Message)
    requires EnvOk(env) && Wf(env, c) && c.mode.Idle? && Proper(m) && Kind(m) == FXP_WRITE && |WriteData(m)| == 12000
    requires CheckWrite(c, WriteToken(m), WriteOffset(m), 12000).Pass? && AppendsTo(c, m) && FileAt(c.root, WriteTarget(c, m)).Some?
    requires var f := FileAt(c.root, WriteTarget(c, m)).value; |f.data| == U32_TOP - 10000 && !f.meta.readOnly
    ensures var s, path := ServeMessage(env, c, m), WriteTarget(c, m);
            && s.out == StatusReply(IdIn(m), TOO_LARGE) && FileAt(s.core.root, path).Some?
            && FileAt(s.core.root, path).value.data == FileAt(c.root, path).value.data + WriteData(m)[..8192]
  {
    hide Wf, EnvOk, StatusReply, FromBe32, SlotOf, StoreChunk, AfterPayload;
    var d, data, path := WriteStarted(c, m), WriteData(m), WriteTarget(c, m);
    var f := FileAt(c.root, path).value;
    WriteStartedOk(env, c, m);
    CheckedFile(c, WriteToken(m), WriteOffset(m), 12000);
    StoreOutcome(env, c.root, path, true, WriteOffset(m), data);
    PayloadIsOneStore(env, d, data);
    AppendStopsAtLimit(env, d, data);
    var stored := StoredFile(env, f, true, WriteOffset(m), data[..8192]);
    LookupPut(c.root, path, File(stored));
    AppendedData(env, f, WriteOffset(m), data[..8192]);
  }

  lemma AppendedData(env: Env, f: FatFile, offset: nat, data: seq<Byte>)
    requires EnvOk(env)
    ensures StoredFile(env, f, true, offset, data).data == f.data + data
  {
  }

  // ---------------------------------------------------------------------
  // SETSTAT
  // ---------------------------------------------------------------------

  /** A size change that is accepted cuts the file or fills it with zeros. */
  lemma SetStatLaw(env: Env, c: Core, id: nat, path: Path, attrs: RequestedAttrs)
    requires EnvOk(env) && Wf(env, c) && c.mode.Idle? && path != [] && FileAt(c.root, path).Some?
    requires AttrsRefusal(env, attrs).None? && attrs.size.Some?
    requires !FileAt(c.root, path).value.meta.readOnly || attrs.size.value == |FileAt(c.root, path).value.data|
    ensures var s := ServeSetStat(env, c, id, path, attrs);
            Wf(env, s.core) &&
            var done, was := Completed(env, s), FileAt(c.root, path).value;
            && done.out == StatusReply(id, OK) && FileAt(done.core.root, path).Some?
            && FileAt(done.core.root, path).value.data ==
               (if attrs.size.value <= |was.data| then was.data[..attrs.size.value] else ZeroExtend(was.data, attrs.size.value))
            && FileAt(done.core.root, path).value.meta == NewMeta(env, was.meta, attrs)
  {
    hide Wf, EnvOk, StatusReply, AttrsRefusal, NewMeta;
    SetStatOk(env, c, id, path, attrs);
    var f := FileAt(c.root, path).value;
    PositiveGeometry(env);
    if attrs.size.value > |f.data| {
      GrowthLaw(env, c.root, path, attrs);
      assert [] + StatusReply(id, OK) == StatusReply(id, OK);
    } else {
      LookupPut(c.root, path, Settled(env, File(f), attrs));
      assert f.data[..|f.data|] == f.data;
    }
  }

  lemma PositiveGeometry(env: Env)
    requires EnvOk(env)
    ensures env.g.clusterSize > 0
  {
  }

  lemma GrowthLaw(env: Env, root: Vol, path: Path, attrs: RequestedAttrs)
    requires EnvOk(env) && FileAt(root, path).Some? && attrs.size.Some? && attrs.size.value > |FileAt(root, path).value.data|
    requires !FileAt(root, path).value.meta.readOnly
    ensures var r, was := FinishGrowth(env, root, path, attrs), FileAt(root, path).value;
            && r.Stored? && FileAt(r.root, path).Some?
            && FileAt(r.root, path).value.data == ZeroExtend(was.data, attrs.size.value)
            && FileAt(r.root, path).value.meta == NewMeta(env, was.meta, attrs)
  {
    hide NewMeta;
    var f := FileAt(root, path).value;
    PositiveGeometry(env);
    ExtendedData(env.g, f, attrs.size.value);
    var grown := Extended(env.g, f, attrs.size.value);
    LookupPut(root, path, File(grown.(meta := NewMeta(env, grown.meta, attrs))));
  }

  // ---------------------------------------------------------------------
  // READ
  // ---------------------------------------------------------------------

  function DataReply(id: nat, payload: seq<Byte>): seq<Byte> { Frame(FXP_DATA, Be32(id) + (Be32(|payload|) + payload)) }

  /** A READ inside the file returns its bytes, as many as were asked for, fit a reply and exist. */
  lemma ReadLaw(env: Env, c: Core, id: nat, token: Token, offset: nat, wanted: nat)
    requires EnvOk(env) && Wf(env, c) && c.mode.Idle? && id < U32_LIMIT && SlotOf(c, token).Some?
    requires var s := c.slots[SlotOf(c, token).value]; s.FileSlot? && s.readable && FileAt(c.root, PathOf(s)).Some?
    ensures var r := ServeRead(c, id, token, offset, wanted);
            var data := FileAt(c.root, PathOf(c.slots[SlotOf(c, token).value])).value.data;
            && Wf(env, r.core)
            && (offset < |data| && wanted > 0 ==>
                  Completed(env, r) == Served(c, DataReply(id, data[offset..offset + Min(|data| - offset, Min(wanted, MAX_READ_REPLY))])))
            && (offset >= |data| || wanted == 0 ==> Completed(env, r) == Served(c, StatusReply(id, END_OF_FILE)))
  {
    hide Wf, EnvOk, StatusReply, SlotOf, DataHeader, Frame, Lookup, Text, TreeOk;
    ReadOk(env, c, id, token, offset, wanted);
    var data := FileAt(c.root, PathOf(c.slots[SlotOf(c, token).value])).value.data;
    if offset < |data| && wanted > 0 {
      DataIsReply(id, data[offset..offset + Min(|data| - offset, Min(wanted, MAX_READ_REPLY))]);
    }
  }

  /** What a WRITE stored, a READ of the same range gives back. */
  lemma ReadBack(env: Env, c: Core, m: Message, id: nat, token: Token)
    requires EnvOk(env) && Wf(env, c) && c.mode.Idle? && Proper(m) && Kind(m) == FXP_WRITE && id < U32_LIMIT
    requires CheckWrite(c, WriteToken(m), WriteOffset(m), |WriteData(m)|).Pass? && !AppendsTo(c, m)
    requires 0 < |WriteData(m)| <= MAX_READ_REPLY && ServeMessage(env, c, m).out == StatusReply(IdIn(m), OK)
    requires SlotOf(c, token).Some? && c.slots[SlotOf(c, token).value].FileSlot? && c.slots[SlotOf(c, token).value].readable
    requires PathOf(c.slots[SlotOf(c, token).value]) == WriteTarget(c, m)
    ensures var after := ServeMessage(env, c, m).core;
            Wf(env, after) && after.mode.Idle? &&
            var r := ServeRead(after, id, token, WriteOffset(m), |WriteData(m)|);
            Wf(env, r.core) && Completed(env, r) == Served(after, DataReply(id, WriteData(m)))
  {
    hide Wf, EnvOk, StoreChunk, Completed, ServeMessage, ServeRead, Proper, FromBe32, DataReply;
    ReadyAgain(env, c, m);
    WriteLaw(env, c, m);
    OkOnlyWhenStored(env, c, m);
    var after := ServeMessage(env, c, m).core;
    StoredContents(env, c.root, WriteTarget(c, m), false, WriteOffset(m), WriteData(m));
    var data := FileAt(after.root, WriteTarget(c, m)).value.data;
    assert data[WriteOffset(m)..WriteOffset(m) + |WriteData(m)|] == WriteData(m);
    ReadLaw(env, after, id, token, WriteOffset(m), |WriteData(m)|);
  }

  lemma OkOnlyWhenStored(env: Env, c: Core, m: Message)
    requires EnvOk(env) && Wf(env, c) && c.mode.Idle? && Proper(m) && Kind(m) == FXP_WRITE && WriteData(m) != []
    requires CheckWrite(c, WriteToken(m), WriteOffset(m), |WriteData(m)|).Pass? && ServeMessage(env, c, m).out == StatusReply(IdIn(m), OK)
    ensures StoreChunk(env, c.root, WriteTarget(c, m), AppendsTo(c, m), WriteOffset(m), WriteData(m)).Stored?
  {
    hide Wf, EnvOk, ServeMessage, FromBe32, StatusReply, Text;
    WriteLaw(env, c, m);
    var r := StoreChunk(env, c.root, WriteTarget(c, m), AppendsTo(c, m), WriteOffset(m), WriteData(m));
    if r.Refused? { CodesDiffer(IdIn(m), r.status); }
  }

  /** Two STATUS replies with different codes are different bytes. */
  lemma CodesDiffer(id: nat, s: Status)
    requires 0 < s.code < 256
    ensures StatusReply(id, s) != StatusReply(id, OK)
  {
    assert StatusReply(id, s)[12] == s.code && StatusReply(id, OK)[12] == 0;
  }

  // ---------------------------------------------------------------------
  // READDIR
  // ---------------------------------------------------------------------

  lemma {:induction false} BatchTakesSome(env: Env, entries: seq<Item>, taken: nat)
    requires taken <= |entries| && taken <= READDIR_MAX_ENTRIES
    ensures BatchFrom(env, entries, taken) <= READDIR_MAX_ENTRIES
    decreases |entries| - taken
  {
    hide NamesBytes;
    if taken < |entries| && taken < READDIR_MAX_ENTRIES && |NamesBytes(env, entries[..taken])| < READDIR_MAX_BYTES {
      BatchTakesSome(env, entries, taken + 1);
    }
  }

  /** Every reply before the end carries at least one entry and at most the limit. */
  lemma BatchBounds(env: Env, left: seq<Item>)
    ensures Batch(env, left) <= READDIR_MAX_ENTRIES && (left != [] ==> Batch(env, left) >= 1)
  {
    BatchTakesSome(env, left, 0);
    NamesOfNone(env, left);
  }

  /** What READDIR requests return one after another, from entry `next` on, until the end of the directory. */
  function Listing(env: Env, entries: seq<Item>, next: nat): (batches: seq<seq<Item>>)
    requires next <= |entries|
    decreases |entries| - next
  {
    var left := Unsent(entries, next);
    BatchBounds(env, left);
    if left == [] then [] else [left[..Batch(env, left)]] + Listing(env, entries, next + Batch(env, left))
  }

  function Flat(batches: seq<seq<Item>>): seq<Item> { if batches == [] then [] else batches[0] + Flat(batches[1..]) }

  /** Together they are the directory's entries, each once and in order, in replies of 1 to 24 entries. */
  lemma {:induction false} ListsEachOnce(env: Env, entries: seq<Item>, next: nat)
    requires next <= |entries|
    ensures Flat(Listing(env, entries, next)) == entries[next..]
    ensures forall i :: 0 <= i < |Listing(env, entries, next)| ==> 1 <= |Listing(env, entries, next)[i]| <= READDIR_MAX_ENTRIES
    decreases |entries| - next
  {
    hide Batch, Unsent;
    ListingStep(env, entries, next);
    if next < |entries| {
      var n := Batch(env, Unsent(entries, next));
      var first, more := Unsent(entries, next)[..n], Listing(env, entries, next + n);
      ListsEachOnce(env, entries, next + n);
      FlatStep(first, more);
      assert first + entries[next + n..] == entries[next..];
      hide Listing;
    }
  }

  lemma FlatStep(first: seq<Item>, more: seq<seq<Item>>)
    ensures Flat([first] + more) == first + Flat(more)
  {
    assert ([first] + more)[1..] == more;
  }

  lemma ListingStep(env: Env, entries: seq<Item>, next: nat)
    requires next <= |entries|
    ensures Unsent(entries, next) == entries[next..]
    ensures next == |entries| ==> Listing(env, entries, next) == []
    ensures next < |entries| ==>
              var left := Unsent(entries, next);
              var n := Batch(env, left);
              1 <= n <= READDIR_MAX_ENTRIES && next + n <= |entries| && Listing(env, entries, next) == [left[..n]] + Listing(env, entries, next + n)
  {
    hide Batch, Unsent, Listing;
    UnsentIs(entries, next);
    if next < |entries| { ListingMore(env, entries, next); } else { ListingEnds(env, entries); }
  }

  lemma UnsentIs(entries: seq<Item>, next: nat)
    requires next <= |entries|
    ensures Unsent(entries, next) == entries[next..]
  {
  }

  lemma ListingEnds(env: Env, entries: seq<Item>)
    ensures Listing(env, entries, |entries|) == []
  {
    hide Batch, Unsent;
    UnsentIs(entries, |entries|);
  }

  lemma {:induction false} ListingMore(env: Env, entries: seq<Item>, next: nat)
    requires next < |entries|
    ensures var n := Batch(env, Unsent(entries, next));
            && 1 <= n <= READDIR_MAX_ENTRIES && n <= |Unsent(entries, next)| && next + n <= |entries|
            && Listing(env, entries, next) == [Unsent(entries, next)[..n]] + Listing(env, entries, next + n)
  {
    hide Batch, Unsent, BatchFrom, NamesBytes;
    UnsentIs(entries, next);
    BatchBounds(env, Unsent(entries, next));
  }

  datatype Enumerated = Enumerated(core: Core, replies: seq<seq<Byte>>)

  /** READDIR on the same handle `times` times. */
  function ReadDirs(env: Env, c: Core, id: nat, token: Token, times: nat): Enumerated
    decreases times
  {
    if times == 0 then Enumerated(c, [])
    else
      var s := ServeReadDir(env, c, id, token);
      var more := ReadDirs(env, s.core, id, token, times - 1);
      Enumerated(more.core, [s.out] + more.replies)
  }

  /** The replies of a client that asks until it is told the directory ends. */
  function ListingReplies(env: Env, id: nat, batches: seq<seq<Item>>): (r: seq<seq<Byte>>)
    ensures |r| == |batches| + 1
  {
    if batches == [] then [StatusReply(id, END_OF_DIRECTORY)]
    else [NamesReply(id, |batches[0]|, NamesBytes(env, batches[0]))] + ListingReplies(env, id, batches[1..])
  }

  /** Asking until the end gives exactly the listing's batches and then the end. */
  lemma {:induction false} ReadDirEnumerates(env: Env, c: Core, id: nat, token: Token, entries: seq<Item>, next: nat)
    requires SlotOf(c, token).Some? && c.slots[SlotOf(c, token).value].DirSlot?
    requires var s := c.slots[SlotOf(c, token).value]; s.next == next && IsDir(c.root, s.path) && Lookup(c.root, s.path).value.entries == entries
    requires next <= |entries|
    ensures var batches := Listing(env, entries, next);
            ReadDirs(env, c, id, token, |batches| + 1).replies == ListingReplies(env, id, batches)
    decreases |entries| - next
  {
    hide NamesBytes, NamesReply, StatusReply, Batch, Lookup, SlotOf, ServeReadDir, Listing, Unsent;
    ListingStep(env, entries, next);
    ReadDirStep(env, c, id, token, entries, next);
    var s := ServeReadDir(env, c, id, token);
    if next < |entries| {
      var left := Unsent(entries, next);
      var n := Batch(env, left);
      var more := Listing(env, entries, next + n);
      assert ([left[..n]] + more)[1..] == more;
      ReadDirEnumerates(env, s.core, id, token, entries, next + n);
    } else {
      assert ReadDirs(env, s.core, id, token, 0).replies == [];
    }
  }

  lemma ReadDirStep(env: Env, c: Core, id: nat, token: Token, entries: seq<Item>, next: nat)
    requires SlotOf(c, token).Some? && c.slots[SlotOf(c, token).value].DirSlot?
    requires var s := c.slots[SlotOf(c, token).value]; s.next == next && IsDir(c.root, s.path) && Lookup(c.root, s.path).value.entries == entries
    requires next <= |entries|
    ensures var left, r := Unsent(entries, next), ServeReadDir(env, c, id, token);
            var n := Batch(env, left);
            if next == |entries| then r.out == StatusReply(id, END_OF_DIRECTORY)
            else
              && r.out == NamesReply(id, n, NamesBytes(env, left[..n])) && SlotOf(r.core, token) == SlotOf(c, token) && r.core.root == c.root
              && r.core.slots[SlotOf(c, token).value] == c.slots[SlotOf(c, token).value].(next := next + n)
  {
    hide NamesBytes, NamesReply, StatusReply, Batch, Lookup, FromBe32;
    BatchBounds(env, Unsent(entries, next));
  }
}
