/** WRITE as a whole: the chunks its payload is stored in add up to one write of all of it. */
module SftpWrites {
  import opened Bytes
  import opened FatTree
  import opened FatFile
  import opened Wire
  import opened SftpVolume
  import opened SftpModel
  import opened SftpStream
  import opened SftpRuns

  // ---------------------------------------------------------------------
  // Storing in pieces
  // ---------------------------------------------------------------------

  /** The file a successful store leaves. */
  function StoredFile(env: Env, f: FatFile, append: bool, offset: nat, bytes: seq<Byte>): FatFile
    requires EnvOk(env)
  {
    var at := if append then |f.data| else offset;
    Written(env.g, Extended(env.g, f, at), at, bytes)
  }

  lemma StoredFileTwice(env: Env, f: FatFile, append: bool, offset: nat, a: seq<Byte>, b: seq<Byte>)
    requires EnvOk(env)
    ensures StoredFile(env, StoredFile(env, f, append, offset, a), append, offset + |a|, b) == StoredFile(env, f, append, offset, a + b)
    ensures StoredFile(env, f, append, offset, a).meta == f.meta
    ensures var at := if append then |f.data| else offset;
            var first := StoredFile(env, f, append, offset, a);
            if append then |first.data| == at + |a| else |first.data| >= at + |a|
  {
    var at := if append then |f.data| else offset;
    ExtendedData(env.g, f, at);
    WrittenTwice(env.g, Extended(env.g, f, at), at, a, b);
  }

  /** A store that works leaves `StoredFile`; whether it works depends only on the file and the end it would have. */
  lemma StoreOutcome(env: Env, root: Vol, path: Path, append: bool, offset: nat, bytes: seq<Byte>)
    requires EnvOk(env) && FileAt(root, path).Some?
    ensures var f := FileAt(root, path).value;
            var at := if append then |f.data| else offset;
            StoreChunk(env, root, path, append, offset, bytes) ==
            if f.meta.readOnly then Refused(READ_ONLY)
            else if at + |bytes| > U32_TOP then Refused(TOO_LARGE)
            else Stored(PutFile(root, path, StoredFile(env, f, append, offset, bytes)))
  {
    hide Written, Extended;
  }

  /** After a first piece has been stored, the second does what storing both at once would have done. */
  lemma StoreTwice(env: Env, root: Vol, path: Path, append: bool, offset: nat, a: seq<Byte>, b: seq<Byte>)
    requires EnvOk(env) && StoreChunk(env, root, path, append, offset, a).Stored?
    ensures var first := StoreChunk(env, root, path, append, offset, a).root;
            FileAt(first, path).Some? &&
            StoreChunk(env, first, path, append, offset + |a|, b) == StoreChunk(env, root, path, append, offset, a + b)
  {
    hide StoreChunk, StoredFile;
    FoundFile(env, root, path, append, offset, a);
    var f := FileAt(root, path).value;
    StoreOutcome(env, root, path, append, offset, a);
    StoreOutcome(env, root, path, append, offset, a + b);
    var stored := StoredFile(env, f, append, offset, a);
    LookupPut(root, path, File(stored));
    StoredFileTwice(env, f, append, offset, a, b);
    StoreOutcome(env, PutFile(root, path, stored), path, append, offset + |a|, b);
    PutPut(root, path, File(stored), File(StoredFile(env, f, append, offset, a + b)));
    if append { SizeAfter(env, f, append, offset, a); }
  }

  lemma SizeAfter(env: Env, f: FatFile, append: bool, offset: nat, a: seq<Byte>)
    requires EnvOk(env) && append
    ensures |StoredFile(env, f, append, offset, a).data| == |f.data| + |a|
  {
  }

  lemma FoundFile(env: Env, root: Vol, path: Path, append: bool, offset: nat, bytes: seq<Byte>)
    requires EnvOk(env) && StoreChunk(env, root, path, append, offset, bytes).Stored?
    ensures FileAt(root, path).Some?
  {
  }

  /** A piece that is refused makes the whole refused, with the same status. */
  lemma RefusedFirst(env: Env, root: Vol, path: Path, append: bool, offset: nat, a: seq<Byte>, b: seq<Byte>)
    requires EnvOk(env) && StoreChunk(env, root, path, append, offset, a).Refused?
    ensures StoreChunk(env, root, path, append, offset, a + b) == StoreChunk(env, root, path, append, offset, a)
  {
  }

  // ---------------------------------------------------------------------
  // A payload in chunks
  // ---------------------------------------------------------------------

  /** The state once all of a payload has been used. */
  function AfterPayload(env: Env, c: Core, data: seq<Byte>): (r: Core)
    requires Wf(env, c) && c.mode.Writing? && |data| == c.mode.write.remaining
    ensures Wf(env, r) && r.mode.Writing? && r.mode.write.remaining == 0 && r.mode.write.id == c.mode.write.id
    decreases |data|
  {
    var w := c.mode.write;
    if data == [] then c
    else
      var n := Min(|data|, WRITE_CHUNK);
      ChunkOk(env, c, w, data[..n]);
      ChunkCounts(env, c, w, data[..n]);
      AfterPayload(env, AfterChunk(env, c, w, data[..n]), data[n..])
  }

  lemma ChunkCounts(env: Env, c: Core, w: WriteStream, bytes: seq<Byte>)
    requires EnvOk(env) && |bytes| <= w.remaining && (w.failed.None? ==> w.slot < |c.slots|)
    ensures var r := AfterChunk(env, c, w, bytes);
            r.mode.Writing? && r.mode.write.remaining == w.remaining - |bytes| && r.mode.write.id == w.id && r.mode.write.slot == w.slot &&
            r.slots == c.slots && (w.failed.Some? ==> r.root == c.root && r.mode.write.failed == w.failed)
  {
    hide StoreChunk, EnvOk;
  }

  /** A WRITE that starts through a handle that still has its file, or finds none, never comes to a stale cursor. */
  lemma StaysTrusted(env: Env, c: Core, bytes: seq<Byte>)
    requires EnvOk(env) && c.mode.Writing? && !Strays(c) && 0 < |bytes| <= c.mode.write.remaining
    requires c.mode.write.failed.None? ==> c.mode.write.slot < |c.slots|
    ensures !Strays(AfterChunk(env, c, c.mode.write, bytes))
  {
    hide EnvOk, Written, Extended, Put;
  }

  lemma {:induction false} RunPayload(env: Env, c: Core, data: seq<Byte>, rest: seq<Byte>)
    requires Wf(env, c) && c.mode.Writing? && |data| == c.mode.write.remaining && !Strays(c)
    ensures var done := AfterPayload(env, c, data);
            Wf(env, done.(mode := Idle)) &&
            Run(env, c, data + rest) == Prefix(WriteReply(done.mode.write), Run(env, done.(mode := Idle), rest))
    decreases |data|
  {
    hide Wf, Run, AfterChunk, WriteReply, Strays;
    if data == [] {
      assert data + rest == rest;
      ReplyUnit(env, c, rest);
    } else {
      var n := Min(|data|, WRITE_CHUNK);
      SlotHeld(env, c);
      ChunkOk(env, c, c.mode.write, data[..n]);
      ChunkCounts(env, c, c.mode.write, data[..n]);
      StaysTrusted(env, c, data[..n]);
      ChunkUnit(env, c, data + rest);
      assert (data + rest)[..n] == data[..n] && (data + rest)[n..] == data[n..] + rest;
      RunPayload(env, AfterChunk(env, c, c.mode.write, data[..n]), data[n..], rest);
    }
  }

  lemma SlotHeld(env: Env, c: Core)
    requires Wf(env, c) && c.mode.Writing?
    ensures EnvOk(env) && (c.mode.write.failed.None? ==> c.mode.write.slot < |c.slots|)
  {
    hide TreeOk;
  }

  lemma ReplyUnit(env: Env, c: Core, rest: seq<Byte>)
    requires Wf(env, c) && c.mode.Writing? && c.mode.write.remaining == 0
    ensures Wf(env, c.(mode := Idle)) && Run(env, c, rest) == Prefix(WriteReply(c.mode.write), Run(env, c.(mode := Idle), rest))
  {
    NextOk(env, c, rest);
    assert rest[0..] == rest;
    hide Wf, WriteReply;
  }

  /** Chunk after chunk, a payload is stored as one store of all of it would be, and refused with the same status. */
  lemma {:induction false} PayloadIsOneStore(env: Env, c: Core, data: seq<Byte>)
    requires EnvOk(env) && Wf(env, c) && c.mode.Writing? && |data| == c.mode.write.remaining && data != [] && c.mode.write.failed.None?
    requires c.mode.write.slot < |c.slots| && c.slots[c.mode.write.slot].FileSlot?
    ensures var w, s, done := c.mode.write, c.slots[c.mode.write.slot], AfterPayload(env, c, data);
            match StoreChunk(env, c.root, PathOf(s), s.append, w.offset, data)
            case Stored(root) => done == c.(root := root, mode := Writing(w.(offset := w.offset + |data|, remaining := 0)))
            case Refused(status) => done.mode.write.failed == Some(status)
    decreases |data|
  {
    hide Wf, StoreChunk;
    var w, s := c.mode.write, c.slots[c.mode.write.slot];
    var n := Min(|data|, WRITE_CHUNK);
    var first, rest := data[..n], data[n..];
    assert first + rest == data;
    ChunkOk(env, c, w, first);
    ChunkCounts(env, c, w, first);
    var next := AfterChunk(env, c, w, first);
    if StoreChunk(env, c.root, PathOf(s), s.append, w.offset, first).Refused? {
      RefusedFirst(env, c.root, PathOf(s), s.append, w.offset, first, rest);
      DroppedPayload(env, next, rest);
    } else if rest != [] {
      StoreTwice(env, c.root, PathOf(s), s.append, w.offset, first, rest);
      PayloadIsOneStore(env, next, rest);
    } else {
      assert first == data;
      assert AfterPayload(env, next, rest) == next;
    }
  }

  lemma {:induction false} DroppedPayload(env: Env, c: Core, data: seq<Byte>)
    requires Wf(env, c) && c.mode.Writing? && |data| == c.mode.write.remaining && c.mode.write.failed.Some?
    ensures AfterPayload(env, c, data) == c.(mode := Writing(c.mode.write.(remaining := 0)))
    decreases |data|
  {
    hide Wf, StoreChunk;
    if data != [] {
      var n := Min(|data|, WRITE_CHUNK);
      SlotHeld(env, c);
      ChunkOk(env, c, c.mode.write, data[..n]);
      ChunkCounts(env, c, c.mode.write, data[..n]);
      DroppedPayload(env, AfterChunk(env, c, c.mode.write, data[..n]), data[n..]);
    }
  }

  // ---------------------------------------------------------------------
  // What is in the file
  // ---------------------------------------------------------------------

  /** An accepted WRITE leaves the old contents, zeros up to the offset, the payload over them, and the old tail. */
  lemma StoredContents(env: Env, root: Vol, path: Path, append: bool, offset: nat, data: seq<Byte>)
    requires EnvOk(env) && StoreChunk(env, root, path, append, offset, data).Stored?
    ensures var after := StoreChunk(env, root, path, append, offset, data).root;
            FileAt(root, path).Some? && FileAt(after, path).Some? &&
            var was, now := FileAt(root, path).value, FileAt(after, path).value;
            now.data == (if append then was.data + data else Overlay(ZeroExtend(was.data, offset), offset, data)) && now.id == was.id
  {
    hide StoreChunk;
    FoundFile(env, root, path, append, offset, data);
    StoreOutcome(env, root, path, append, offset, data);
    var f := FileAt(root, path).value;
    LookupPut(root, path, File(StoredFile(env, f, append, offset, data)));
    ExtendedData(env.g, f, if append then |f.data| else offset);
  }
}
