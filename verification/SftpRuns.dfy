/**
 Whole byte streams: what a server that is given them makes of them. Every way
 of cutting a stream, and every amount of work done per step, leads to the same
 outcome.
 */
module SftpRuns {
  import opened Bytes
  import opened FatTree
  import opened FatFile
  import opened Wire
  import opened SftpVolume
  import opened SftpModel
  import opened SftpStream

  /** All that is emitted, the state at the end, and the bytes that are not used. */
  datatype Outcome = Outcome(out: seq<Byte>, core: Core, rest: seq<Byte>)

  function Prefix(out: seq<Byte>, o: Outcome): Outcome { o.(out := out + o.out) }

  function Run(env: Env, c: Core, b: seq<Byte>): (o: Outcome)
    requires Wf(env, c)
    ensures Wf(env, o.core) && |o.rest| <= |b|
    decreases |b|, Stage(c.mode)
  {
    var u := Next(env, c, b);
    if u.Stuck? then Outcome([], c, b)
    else
      NextOk(env, c, b);
      Prefix(u.out, Run(env, u.core, b[u.used..]))
  }

  /** An oversized request whose length wraps to zero is next. */
  predicate Endless(c: Core, b: seq<Byte>) {
    c.mode.Idle? && |b| >= 9 && b[4] != FXP_WRITE && FromBe32(b[..4]) > MAX_REQUEST && WrapUsize(4 + FromBe32(b[..4])) == 0
  }

  /** Here the meaning of the stream ends: a stale cursor would be used, or a header answered without end. */
  predicate Stops(c: Core, b: seq<Byte>) { Strays(c) || Endless(c, b) }

  // ---------------------------------------------------------------------
  // Bytes that come later
  // ---------------------------------------------------------------------

  lemma SliceOfMore(x: seq<Byte>, y: seq<Byte>, i: nat, j: nat)
    requires i <= j <= |x|
    ensures (x + y)[i..j] == x[i..j]
  {
  }

  lemma WriteHeaderStays(c: Core, x: seq<Byte>, y: seq<Byte>, length: nat)
    requires BeginWrite(c, x, length).Worked?
    ensures BeginWrite(c, x + y, length) == BeginWrite(c, x, length)
  {
    hide FromBe32, CheckWrite, WrapUsize;
    SliceOfMore(x, y, 9, 13);
    var h := FromBe32(x[9..13]);
    if h <= 64 {
      SliceOfMore(x, y, 5, 9);
      SliceOfMore(x, y, 13, 13 + h);
      SliceOfMore(x, y, 13 + h, 17 + h);
      SliceOfMore(x, y, 17 + h, 21 + h);
      SliceOfMore(x, y, 21 + h, 25 + h);
    }
  }

  lemma ParseStays(env: Env, c: Core, x: seq<Byte>, y: seq<Byte>)
    requires EnvOk(env) && ParseNext(env, c, x).Worked?
    ensures ParseNext(env, c, x + y) == ParseNext(env, c, x)
  {
    hide Dispatch, BeginWrite, FromBe32, StatusReply, WrapUsize, EnvOk;
    SliceOfMore(x, y, 0, 4);
    var length := FromBe32(x[..4]);
    if length > 0 && x[4] == FXP_WRITE {
      WriteHeaderStays(c, x, y, length);
    } else if length > MAX_REQUEST {
      SliceOfMore(x, y, 5, 9);
    } else if length > 0 {
      SliceOfMore(x, y, 5, 4 + length);
    }
  }

  /** Work that can be done is not changed by bytes that come after it. */
  lemma NextStays(env: Env, c: Core, x: seq<Byte>, y: seq<Byte>)
    requires EnvOk(env) && Wf(env, c) && Next(env, c, x).Worked? && !c.mode.Skipping?
    ensures Next(env, c, x + y) == Next(env, c, x)
  {
    hide Wf, ParseNext, AfterChunk, FinishGrowth, StatusReply, WriteReply;
    match c.mode
    case Idle => ParseStays(env, c, x, y);
    case Writing(w) =>
      if w.remaining > 0 { SliceOfMore(x, y, 0, Min(w.remaining, WRITE_CHUNK)); }
    case _ =>
  }

  /** Doing one unit of work now, before the rest of the stream is known. */
  lemma RunUnit(env: Env, c: Core, x: seq<Byte>, y: seq<Byte>)
    requires Wf(env, c) && Next(env, c, x).Worked? && !c.mode.Skipping?
    ensures var u := Next(env, c, x); Wf(env, u.core) && Run(env, c, x + y) == Prefix(u.out, Run(env, u.core, x[u.used..] + y))
  {
    NextOk(env, c, x);
    NextStays(env, c, x, y);
    var u := Next(env, c, x);
    assert (x + y)[u.used..] == x[u.used..] + y;
    hide Wf, Next;
  }

  lemma SkipWf(env: Env, c: Core, left: nat)
    requires Wf(env, c)
    ensures Wf(env, c.(mode := Skipped(left)))
  {
    hide TreeOk, EnvOk;
  }

  lemma SkipOnce(env: Env, c: Core, b: seq<Byte>)
    requires Wf(env, c) && c.mode.Skipping? && b != []
    ensures var have := Min(c.mode.left, |b|);
            var after := c.(mode := Skipped(c.mode.left - have));
            Next(env, c, b) == Worked(after, [], have) && Wf(env, after) && Run(env, c, b) == Run(env, after, b[have..])
  {
    hide Wf, EnvOk;
    SkipWf(env, c, c.mode.left - Min(c.mode.left, |b|));
    assert c.mode.left > 0 by { SkipPositive(env, c); }
  }

  lemma SkipPositive(env: Env, c: Core)
    requires Wf(env, c) && c.mode.Skipping?
    ensures c.mode.left > 0
  {
    hide TreeOk, EnvOk;
  }

  /** Dropping what is there of an oversized request. */
  lemma RunSkip(env: Env, c: Core, x: seq<Byte>, y: seq<Byte>)
    requires Wf(env, c) && c.mode.Skipping?
    ensures var have := Min(c.mode.left, |x|);
            var after := c.(mode := Skipped(c.mode.left - have));
            Wf(env, after) && Run(env, c, x + y) == Run(env, after, x[have..] + y)
  {
    hide Wf, Run;
    var left := c.mode.left;
    var have := Min(left, |x|);
    var after := c.(mode := Skipped(left - have));
    SkipWf(env, c, left - have);
    SkipPositive(env, c);
    if have == 0 {
      assert x[have..] + y == x + y;
    } else {
      SkipOnce(env, c, x + y);
      var all := Min(left, |x + y|);
      if have == left || y == [] {
        assert (x + y)[all..] == x[have..] + y;
      } else {
        assert x[have..] + y == y;
        SkipOnce(env, after, y);
        assert (x + y)[all..] == y[Min(left - have, |y|)..];
      }
    }
  }

  /**
   Fragmentation does not matter: serving a stream is serving its first part and
   then the rest together with what the first part left over.
   */
  lemma {:induction false} RunInParts(env: Env, c: Core, x: seq<Byte>, y: seq<Byte>)
    requires Wf(env, c)
    ensures var o := Run(env, c, x); Run(env, c, x + y) == Prefix(o.out, Run(env, o.core, o.rest + y))
    decreases |x|, Stage(c.mode)
  {
    hide Wf, Next;
    var u := Next(env, c, x);
    if u.Stuck? {
      assert Prefix([], Run(env, c, x + y)) == Run(env, c, x + y);
    } else {
      NextOk(env, c, x);
      RunInParts(env, u.core, x[u.used..], y);
      if c.mode.Skipping? { SkipInParts(env, c, x, y); } else { RunUnit(env, c, x, y); }
      PrefixTwice(u.out, Run(env, u.core, x[u.used..]).out,
                  Run(env, Run(env, c, x).core, Run(env, c, x).rest + y));
    }
  }

  lemma PrefixTwice(a: seq<Byte>, b: seq<Byte>, o: Outcome)
    ensures Prefix(a, Prefix(b, o)) == Prefix(a + b, o)
  {
    assert a + (b + o.out) == (a + b) + o.out;
  }

  lemma NothingToSkip(env: Env, c: Core)
    requires Wf(env, c) && c.mode.Skipping?
    ensures Next(env, c, []).Stuck?
  {
    hide Wf;
  }

  lemma SkipInParts(env: Env, c: Core, x: seq<Byte>, y: seq<Byte>)
    requires Wf(env, c) && c.mode.Skipping? && Next(env, c, x).Worked?
    ensures var u := Next(env, c, x); Wf(env, u.core) && u.out == [] && Run(env, c, x + y) == Prefix(u.out, Run(env, u.core, x[u.used..] + y))
  {
    hide Wf, Next;
    SkipOnce(env, c, x) by { assert x != [] by { NothingToSkip(env, c); } }
    RunSkip(env, c, x, y);
    var u := Next(env, c, x);
    assert Prefix([], Run(env, u.core, x[u.used..] + y)) == Run(env, u.core, x[u.used..] + y);
  }

  // ---------------------------------------------------------------------
  // Less than a unit of work
  // ---------------------------------------------------------------------

  /** While a DATA reply is in progress what it promised is in the file. */
  lemma ReadPromised(env: Env, c: Core)
    requires Wf(env, c) && c.mode.Reading?
    ensures var r := c.mode.read;
            r.slot < |c.slots| && FileAt(c.root, PathOf(c.slots[r.slot])).Some? &&
            r.offset + r.remaining <= |FileAt(c.root, PathOf(c.slots[r.slot])).value.data|
  {
    hide TreeOk, EnvOk, FileAt, PathOf;
  }

  lemma ReadUnit(env: Env, c: Core, b: seq<Byte>)
    requires Wf(env, c) && c.mode.Reading? && !Strays(c)
    ensures var r := c.mode.read;
            var idle := c.(mode := Idle);
            r.slot < |c.slots| && FileAt(c.root, PathOf(c.slots[r.slot])).Some? && Wf(env, idle) &&
            var data := FileAt(c.root, PathOf(c.slots[r.slot])).value.data;
            r.offset + r.remaining <= |data| && Next(env, c, b) == Worked(idle, data[r.offset..r.offset + r.remaining], 0)
  {
    hide TreeOk, EnvOk, FileAt, PathOf;
  }

  lemma ReadOnce(env: Env, c: Core, b: seq<Byte>)
    requires Wf(env, c) && c.mode.Reading? && !Strays(c)
    ensures var r := c.mode.read;
            var idle := c.(mode := Idle);
            r.slot < |c.slots| && FileAt(c.root, PathOf(c.slots[r.slot])).Some? && Wf(env, idle) &&
            var data := FileAt(c.root, PathOf(c.slots[r.slot])).value.data;
            r.offset + r.remaining <= |data| &&
            Run(env, c, b) == Prefix(data[r.offset..r.offset + r.remaining], Run(env, idle, b))
  {
    hide Wf, EnvOk, FileAt, PathOf, Next;
    ReadUnit(env, c, b);
    assert b[0..] == b;
  }

  lemma ReadPartWf(env: Env, c: Core, count: nat)
    requires Wf(env, c) && c.mode.Reading? && 0 < count < c.mode.read.remaining
    ensures var r := c.mode.read; Wf(env, c.(mode := Reading(ReadStream(r.slot, r.offset + count, r.remaining - count))))
  {
    hide TreeOk, EnvOk, FileAt, PathOf;
  }

  /** Reading part of what a DATA reply promised. */
  lemma RunReadPart(env: Env, c: Core, count: nat, b: seq<Byte>)
    requires Wf(env, c) && c.mode.Reading? && !Strays(c) && 0 < count <= c.mode.read.remaining
    ensures var r := c.mode.read;
            var left := r.remaining - count;
            var after := c.(mode := if left == 0 then Idle else Reading(ReadStream(r.slot, r.offset + count, left)));
            r.slot < |c.slots| && FileAt(c.root, PathOf(c.slots[r.slot])).Some? && Wf(env, after) &&
            var data := FileAt(c.root, PathOf(c.slots[r.slot])).value.data;
            r.offset + r.remaining <= |data| &&
            Run(env, c, b) == Prefix(data[r.offset..r.offset + count], Run(env, after, b))
  {
    hide Wf, Run, FileAt, PathOf;
    ReadOnce(env, c, b);
    var r := c.mode.read;
    var data := FileAt(c.root, PathOf(c.slots[r.slot])).value.data;
    if count < r.remaining {
      ReadPartWf(env, c, count);
      var after := c.(mode := Reading(ReadStream(r.slot, r.offset + count, r.remaining - count)));
      ReadOnce(env, after, b);
      PrefixTwice(data[r.offset..r.offset + count], data[r.offset + count..r.offset + r.remaining], Run(env, c.(mode := Idle), b));
      assert data[r.offset..r.offset + r.remaining] == data[r.offset..r.offset + count] + data[r.offset + count..r.offset + r.remaining];
    }
  }

  /** The file with `count` zeros after its end. */
  function Padded(g: Geometry, f: FatFile, count: nat): FatFile
    requires g.clusterSize > 0
  {
    Written(g, f, |f.data|, Zeros(count))
  }

  lemma PaddedTree(env: Env, root: Vol, path: Path, count: nat)
    requires EnvOk(env) && TreeOk(env, root) && root.Dir? && FileAt(root, path).Some?
    requires |FileAt(root, path).value.data| + count <= U32_TOP
    ensures var f := FileAt(root, path).value;
            var after := PutFile(root, path, Padded(env.g, f, count));
            TreeOk(env, after) && after.Dir? && FileAt(after, path) == Some(Padded(env.g, f, count))
    ensures var f := FileAt(root, path).value;
            |Padded(env.g, f, count).data| == |f.data| + count && Padded(env.g, f, count).meta == f.meta
  {
    var f := FileAt(root, path).value;
    LookupOk(env, root, path);
    WrittenSound(env.g, f, |f.data|, Zeros(count));
    PutOk(env, root, path, File(Padded(env.g, f, count)));
    LookupPut(root, path, File(Padded(env.g, f, count)));
  }

  /** Filling part of the gap before a chunk leaves what the chunk will do unchanged. */
  lemma StoreAfterPadding(env: Env, root: Vol, path: Path, count: nat, offset: nat, bytes: seq<Byte>)
    requires EnvOk(env) && TreeOk(env, root) && root.Dir? && FileAt(root, path).Some?
    requires 0 < count && |FileAt(root, path).value.data| + count <= offset && offset + |bytes| <= U32_TOP
    requires !FileAt(root, path).value.meta.readOnly
    ensures var f := FileAt(root, path).value;
            var after := PutFile(root, path, Padded(env.g, f, count));
            StoreChunk(env, after, path, false, offset, bytes) == StoreChunk(env, root, path, false, offset, bytes) &&
            StoreChunk(env, root, path, false, offset, bytes).Stored?
  {
    hide TreeOk, Written, Zeros;
    var f := FileAt(root, path).value;
    var padded := Padded(env.g, f, count);
    PaddedTree(env, root, path, count);
    ExtendedStep(env.g, f, count, offset);
    LookupPut(root, path, File(padded));
    ExtendedData(env.g, f, offset);
    ExtendedData(env.g, padded, offset);
    var done := Written(env.g, Extended(env.g, f, offset), offset, bytes);
    PutPut(root, path, File(padded), File(done));
  }

  lemma GrowthAfterPadding(env: Env, root: Vol, path: Path, count: nat, a: RequestedAttrs)
    requires EnvOk(env) && TreeOk(env, root) && root.Dir? && FileAt(root, path).Some? && a.size.Some? && a.size.value <= U32_TOP
    requires 0 < count && |FileAt(root, path).value.data| + count <= a.size.value
    requires !FileAt(root, path).value.meta.readOnly
    ensures var f := FileAt(root, path).value;
            FinishGrowth(env, PutFile(root, path, Padded(env.g, f, count)), path, a) == FinishGrowth(env, root, path, a)
  {
    hide TreeOk, Written, Zeros, NewMeta;
    var f := FileAt(root, path).value;
    var padded := Padded(env.g, f, count);
    PaddedTree(env, root, path, count);
    ExtendedStep(env.g, f, count, a.size.value);
    LookupPut(root, path, File(padded));
    ExtendedData(env.g, f, a.size.value);
    ExtendedData(env.g, padded, a.size.value);
    var grown := Extended(env.g, f, a.size.value);
    PutPut(root, path, File(padded), File(grown.(meta := NewMeta(env, grown.meta, a))));
  }

  // ---------------------------------------------------------------------
  // Waiting
  // ---------------------------------------------------------------------

  lemma StuckStays(env: Env, c: Core, b: seq<Byte>)
    requires Wf(env, c) && Next(env, c, b).Stuck?
    ensures Run(env, c, b) == Outcome([], c, b)
  {
    hide Wf, Next;
  }

  // ---------------------------------------------------------------------
  // WRITE payloads
  // ---------------------------------------------------------------------

  /** An error found before a chunk is taken is the error the chunk ends with. */
  lemma RunFailedEarly(env: Env, c: Core, status: Status, b: seq<Byte>)
    requires Wf(env, c) && c.mode.Writing? && c.mode.write.failed.None? && c.mode.write.remaining > 0 && !Strays(c)
    requires var n := Min(c.mode.write.remaining, WRITE_CHUNK);
             n <= |b| && AfterChunk(env, c, c.mode.write, b[..n]).mode.write.failed == Some(status)
    ensures var after := c.(mode := Writing(c.mode.write.(failed := Some(status))));
            Wf(env, after) && Run(env, c, b) == Run(env, after, b)
  {
    var w := c.mode.write;
    var n := Min(w.remaining, WRITE_CHUNK);
    var after := c.(mode := Writing(w.(failed := Some(status))));
    FailedWf(env, c, status);
    RefusedChunk(env, c, status, b[..n]);
    hide Wf, AfterChunk;
  }

  lemma FailedWf(env: Env, c: Core, status: Status)
    requires Wf(env, c) && c.mode.Writing?
    ensures Wf(env, c.(mode := Writing(c.mode.write.(failed := Some(status)))))
  {
    hide TreeOk, EnvOk;
  }

  lemma RefusedChunk(env: Env, c: Core, status: Status, bytes: seq<Byte>)
    requires EnvOk(env) && Wf(env, c) && c.mode.Writing? && c.mode.write.failed.None? && |bytes| <= c.mode.write.remaining
    requires AfterChunk(env, c, c.mode.write, bytes).mode.write.failed == Some(status)
    ensures var failed := c.mode.write.(failed := Some(status));
            AfterChunk(env, c, c.mode.write, bytes) == AfterChunk(env, c.(mode := Writing(failed)), failed, bytes)
  {
    hide TreeOk, EnvOk, StoreChunk;
  }

  lemma RootWf(env: Env, c: Core, root: Vol)
    requires Wf(env, c) && (c.mode.Writing? || c.mode.Growing?) && TreeOk(env, root) && root.Dir?
    ensures Wf(env, c.(root := root))
  {
    hide TreeOk, EnvOk;
  }

  /** A WRITE whose next chunk lies after a gap of at least `count` bytes. */
  ghost predicate GapBefore(env: Env, c: Core, count: nat)
    requires EnvOk(env)
  {
    && c.mode.Writing? && c.mode.write.failed.None? && c.mode.write.remaining > 0 && c.mode.write.slot < |c.slots|
    && c.mode.write.slot !in c.lost
    && var s := c.slots[c.mode.write.slot];
    && s.FileSlot? && !s.append && FileAt(c.root, PathOf(s)).Some?
    && !FileAt(c.root, PathOf(s)).value.meta.readOnly
    && 0 < count && |FileAt(c.root, PathOf(s)).value.data| + count <= c.mode.write.offset
  }

  function WithGapFilled(env: Env, c: Core, count: nat): Core
    requires EnvOk(env) && GapBefore(env, c, count)
  {
    var path := PathOf(c.slots[c.mode.write.slot]);
    c.(root := PutFile(c.root, path, Padded(env.g, FileAt(c.root, path).value, count)))
  }

  lemma GapChunk(env: Env, c: Core, count: nat, bytes: seq<Byte>)
    requires EnvOk(env) && Wf(env, c) && GapBefore(env, c, count) && |bytes| <= c.mode.write.remaining
    ensures Wf(env, WithGapFilled(env, c, count))
    ensures AfterChunk(env, WithGapFilled(env, c, count), c.mode.write, bytes) == AfterChunk(env, c, c.mode.write, bytes)
  {
    hide Wf, AfterChunk, StoreChunk, TreeOk, Padded, Lookup, PutFile;
    var path := PathOf(c.slots[c.mode.write.slot]);
    var root := WithGapFilled(env, c, count).root;
    WriteFits(env, c);
    PaddedTree(env, c.root, path, count);
    StoreAfterPadding(env, c.root, path, count, c.mode.write.offset, bytes);
    RootWf(env, c, root);
    SameChunk(env, c, root, bytes);
  }

  /** Filling part of the gap before a chunk whose bytes are all there changes nothing in the end. */
  lemma RunPaddedWrite(env: Env, c: Core, count: nat, b: seq<Byte>)
    requires EnvOk(env) && Wf(env, c) && GapBefore(env, c, count) && Min(c.mode.write.remaining, WRITE_CHUNK) <= |b|
    ensures Wf(env, WithGapFilled(env, c, count)) && Run(env, c, b) == Run(env, WithGapFilled(env, c, count), b)
  {
    hide Wf, AfterChunk, FileAt, PutFile, PathOf, Padded, Run, Next;
    GapChunk(env, c, count, b[..Min(c.mode.write.remaining, WRITE_CHUNK)]);
    ChunkUnit(env, c, b);
    ChunkUnit(env, WithGapFilled(env, c, count), b);
  }

  lemma ChunkUnit(env: Env, c: Core, b: seq<Byte>)
    requires Wf(env, c) && c.mode.Writing? && c.mode.write.remaining > 0 && Min(c.mode.write.remaining, WRITE_CHUNK) <= |b| && !Strays(c)
    requires c.mode.write.failed.None? ==> c.mode.write.slot < |c.slots|
    ensures EnvOk(env)
    ensures var n := Min(c.mode.write.remaining, WRITE_CHUNK);
            var after := AfterChunk(env, c, c.mode.write, b[..n]);
            Next(env, c, b) == Worked(after, [], n) && Wf(env, after) && Run(env, c, b) == Run(env, after, b[n..])
  {
    NextOk(env, c, b);
    var n := Min(c.mode.write.remaining, WRITE_CHUNK);
    var after := AfterChunk(env, c, c.mode.write, b[..n]);
    hide Wf, AfterChunk;
    assert Prefix([], Run(env, after, b[n..])) == Run(env, after, b[n..]);
  }

  lemma WriteFits(env: Env, c: Core)
    requires Wf(env, c) && c.mode.Writing? && c.mode.write.failed.None?
    ensures c.mode.write.slot < |c.slots| && c.slots[c.mode.write.slot].FileSlot?
    ensures c.mode.write.offset + c.mode.write.remaining <= U32_TOP && TreeOk(env, c.root) && c.root.Dir?
  {
    hide TreeOk, EnvOk;
  }

  lemma SameChunk(env: Env, c: Core, root: Vol, bytes: seq<Byte>)
    requires EnvOk(env) && c.mode.Writing? && c.mode.write.failed.None? && c.mode.write.slot < |c.slots|
    requires |bytes| <= c.mode.write.remaining
    requires var s := c.slots[c.mode.write.slot];
             s.FileSlot? && var stored := StoreChunk(env, c.root, PathOf(s), s.append, c.mode.write.offset, bytes);
             stored.Stored? && stored == StoreChunk(env, root, PathOf(s), s.append, c.mode.write.offset, bytes)
    ensures AfterChunk(env, c, c.mode.write, bytes) == AfterChunk(env, c.(root := root), c.mode.write, bytes)
  {
    hide EnvOk, StoreChunk;
  }

  /** Growing a file part of the way changes nothing in the end. */
  lemma RunPaddedGrowth(env: Env, c: Core, count: nat, b: seq<Byte>)
    requires EnvOk(env) && Wf(env, c) && c.mode.Growing?
    requires var g := c.mode.growth;
             && FileAt(c.root, g.path).Some? && !FileAt(c.root, g.path).value.meta.readOnly && g.attrs.size.Some?
             && 0 < count && |FileAt(c.root, g.path).value.data| + count <= g.attrs.size.value
    ensures var g := c.mode.growth;
            var after := c.(root := PutFile(c.root, g.path, Padded(env.g, FileAt(c.root, g.path).value, count)));
            Wf(env, after) && Run(env, c, b) == Run(env, after, b)
  {
    var g := c.mode.growth;
    var f := FileAt(c.root, g.path).value;
    var root := PutFile(c.root, g.path, Padded(env.g, f, count));
    GrowthFits(env, c);
    PaddedTree(env, c.root, g.path, count);
    GrowthAfterPadding(env, c.root, g.path, count, g.attrs);
    RootWf(env, c, root);
    hide Wf, FinishGrowth, EnvOk, FileAt, PutFile;
  }

  lemma GrowthFits(env: Env, c: Core)
    requires Wf(env, c) && c.mode.Growing?
    ensures var g := c.mode.growth;
            g.path != [] && g.attrs.size.Some? && AttrsRefusal(env, g.attrs).None? && g.attrs.size.value <= U32_TOP && TreeOk(env, c.root) && c.root.Dir?
  {
    hide TreeOk, EnvOk;
  }

  // ---------------------------------------------------------------------
  // Steps that leave the outcome as it was
  // ---------------------------------------------------------------------

  /** Emitting `out` and going on from `d` with `y` is what `c` with `x` leads to, whatever comes after. */
  ghost predicate Continues(env: Env, c: Core, x: seq<Byte>, out: seq<Byte>, d: Core, y: seq<Byte>)
    requires Wf(env, c) && Wf(env, d)
  {
    forall rest :: Prefix(out, Run(env, d, y + rest)) == Run(env, c, x + rest)
  }

  lemma UnitContinues(env: Env, c: Core, x: seq<Byte>)
    requires Wf(env, c) && Next(env, c, x).Worked? && !c.mode.Skipping?
    ensures var u := Next(env, c, x); Wf(env, u.core) && Continues(env, c, x, u.out, u.core, x[u.used..])
  {
    hide Wf, Next, Run;
    NextOk(env, c, x);
    var u := Next(env, c, x);
    forall rest ensures Prefix(u.out, Run(env, u.core, x[u.used..] + rest)) == Run(env, c, x + rest) { RunUnit(env, c, x, rest); }
  }

  lemma OversizedUnit(env: Env, c: Core, x: seq<Byte>)
    requires EnvOk(env) && Wf(env, c) && c.mode.Idle? && |x| >= 9 && x[4] != FXP_WRITE && FromBe32(x[..4]) > MAX_REQUEST
    ensures var whole := WrapUsize(4 + FromBe32(x[..4]));
            Next(env, c, x) ==
            if whole == 0 then Stuck else Worked(c.(mode := Skipping(whole)), StatusReply(FromBe32(x[5..9]), REQUEST_TOO_LARGE), 0)
  {
    hide Wf, Dispatch, FromBe32, StatusReply;
  }

  lemma ReadContinues(env: Env, c: Core, x: seq<Byte>, count: nat)
    requires Wf(env, c) && c.mode.Reading? && !Strays(c) && 0 < count <= c.mode.read.remaining
    ensures var r := c.mode.read;
            var left := r.remaining - count;
            var after := c.(mode := if left == 0 then Idle else Reading(ReadStream(r.slot, r.offset + count, left)));
            r.slot < |c.slots| && FileAt(c.root, PathOf(c.slots[r.slot])).Some? && Wf(env, after) &&
            var data := FileAt(c.root, PathOf(c.slots[r.slot])).value.data;
            r.offset + r.remaining <= |data| && Continues(env, c, x, data[r.offset..r.offset + count], after, x)
  {
    hide Wf, Run, FileAt, PathOf;
    var r := c.mode.read;
    var left := r.remaining - count;
    var after := c.(mode := if left == 0 then Idle else Reading(ReadStream(r.slot, r.offset + count, left)));
    RunReadPart(env, c, count, x);
    var data := FileAt(c.root, PathOf(c.slots[r.slot])).value.data;
    forall rest ensures Prefix(data[r.offset..r.offset + count], Run(env, after, x + rest)) == Run(env, c, x + rest) {
      RunReadPart(env, c, count, x + rest);
    }
  }

  lemma GapContinues(env: Env, c: Core, x: seq<Byte>, count: nat)
    requires EnvOk(env) && Wf(env, c) && GapBefore(env, c, count) && Min(c.mode.write.remaining, WRITE_CHUNK) <= |x|
    ensures Wf(env, WithGapFilled(env, c, count)) && Continues(env, c, x, [], WithGapFilled(env, c, count), x)
  {
    hide Wf, Run, FileAt, PutFile, PathOf, Padded;
    RunPaddedWrite(env, c, count, x);
    forall rest ensures Prefix([], Run(env, WithGapFilled(env, c, count), x + rest)) == Run(env, c, x + rest) {
      RunPaddedWrite(env, c, count, x + rest);
    }
  }

  lemma FailedContinues(env: Env, c: Core, x: seq<Byte>, status: Status)
    requires Wf(env, c) && c.mode.Writing? && c.mode.write.failed.None? && c.mode.write.remaining > 0 && !Strays(c)
    requires var n := Min(c.mode.write.remaining, WRITE_CHUNK);
             n <= |x| && AfterChunk(env, c, c.mode.write, x[..n]).mode.write.failed == Some(status)
    ensures var after := c.(mode := Writing(c.mode.write.(failed := Some(status))));
            Wf(env, after) && Continues(env, c, x, [], after, x)
  {
    hide Wf, Run, AfterChunk;
    var after := c.(mode := Writing(c.mode.write.(failed := Some(status))));
    RunFailedEarly(env, c, status, x);
    var n := Min(c.mode.write.remaining, WRITE_CHUNK);
    forall rest ensures Prefix([], Run(env, after, x + rest)) == Run(env, c, x + rest) {
      SliceOfMore(x, rest, 0, n);
      assert (x + rest)[..n] == x[..n];
      RunFailedEarly(env, c, status, x + rest);
    }
  }

  lemma GrowthContinues(env: Env, c: Core, x: seq<Byte>, count: nat)
    requires EnvOk(env) && Wf(env, c) && c.mode.Growing?
    requires var g := c.mode.growth;
             && FileAt(c.root, g.path).Some? && !FileAt(c.root, g.path).value.meta.readOnly && g.attrs.size.Some?
             && 0 < count && |FileAt(c.root, g.path).value.data| + count <= g.attrs.size.value
    ensures var g := c.mode.growth;
            var after := c.(root := PutFile(c.root, g.path, Padded(env.g, FileAt(c.root, g.path).value, count)));
            Wf(env, after) && Continues(env, c, x, [], after, x)
  {
    hide Wf, Run, PutFile, Padded;
    var g := c.mode.growth;
    var after := c.(root := PutFile(c.root, g.path, Padded(env.g, FileAt(c.root, g.path).value, count)));
    RunPaddedGrowth(env, c, count, x);
    forall rest ensures Prefix([], Run(env, after, x + rest)) == Run(env, c, x + rest) { RunPaddedGrowth(env, c, count, x + rest); }
  }

  /** A WRITE goes on after a change of the volume. */
  lemma WritingWf(env: Env, c: Core, root: Vol, w: WriteStream)
    requires Wf(env, c) && c.mode.Writing? && TreeOk(env, root) && root.Dir?
    requires w.failed.None? ==> c.mode.write.failed.None? && w.slot == c.mode.write.slot
    requires w.offset + w.remaining <= c.mode.write.offset + c.mode.write.remaining
    ensures Wf(env, c.(root := root, mode := Writing(w)))
  {
    hide TreeOk, EnvOk;
  }
}
