/**
 What the volume holds between two card accesses: in the middle of a WRITE the old file
 with part of the zeros or of the payload, in the middle of a growth the old file with
 part of the zeros. And how much work a session can be at most.
 */
module SftpProgress {
  import opened Bytes
  import opened FatTree
  import opened FatFile
  import opened Wire
  import opened SftpVolume
  import opened SftpModel
  import opened SftpStream
  import opened SftpCursors
  import opened SftpFrames
  import opened SftpRuns
  import opened SftpChunks
  import opened SftpMachine
  import opened SftpFollows
  import opened SftpWrites

  // ---------------------------------------------------------------------
  // In the middle of a WRITE
  // ---------------------------------------------------------------------

  /** `root` is `was` with zeros before a payload at `offset`, as far as they have been written. */
  ghost predicate PartPadded(env: Env, was: Vol, path: Path, offset: nat, root: Vol)
    requires EnvOk(env)
  {
    root == was || exists j :: PaddedBy(env, was, path, offset, j, root)
  }

  predicate PaddedBy(env: Env, was: Vol, path: Path, offset: nat, j: nat, root: Vol)
    requires EnvOk(env)
  {
    && 0 < j && FileAt(was, path).Some? && |FileAt(was, path).value.data| + j <= offset
    && root == PutFile(was, path, Padded(env.g, FileAt(was, path).value, j))
  }

  /** `root` is `was` with `bytes` of a payload stored, or with some of the zeros before them. */
  ghost predicate PartStored(env: Env, was: Vol, path: Path, append: bool, offset: nat, bytes: seq<Byte>, root: Vol)
    requires EnvOk(env)
  {
    if bytes != [] then StoreChunk(env, was, path, append, offset, bytes) == Stored(root)
    else root == was || (!append && PartPadded(env, was, path, offset, root))
  }

  function TargetOf(c: Core): Path
    requires c.mode.Writing?
  {
    if c.mode.write.slot < |c.slots| then PathOf(c.slots[c.mode.write.slot]) else []
  }

  predicate Appends(c: Core)
    requires c.mode.Writing?
  {
    c.mode.write.slot < |c.slots| && c.slots[c.mode.write.slot].FileSlot? && c.slots[c.mode.write.slot].append
  }

  /** From `e`, where a WRITE began, to `d`, still in it, `k` bytes of its payload have been stored. */
  ghost predicate Midway(env: Env, e: Config, d: Config, k: nat)
    requires EnvOk(env)
  {
    var c, now := e.machine.core, d.machine.core;
    && c.mode.Writing? && now.mode.Writing? && now.slots == c.slots && now.lost == c.lost
    && var v, w := c.mode.write, now.mode.write;
    && w.id == v.id && w.slot == v.slot && w.remaining <= v.remaining && d.out == e.out
    && var used := v.remaining - w.remaining;
    && k <= used <= |e.rest| && d.rest == e.rest[used..]
    && PartStored(env, c.root, TargetOf(c), Appends(c), v.offset, e.rest[..k], now.root)
    && (w.failed.None? ==> k == used && w.offset == v.offset + k)
  }

  lemma MidwayStarts(env: Env, e: Config)
    requires EnvOk(env) && e.machine.core.mode.Writing?
    ensures Midway(env, e, e, 0)
  {
    hide EnvOk, PartPadded, StoreChunk;
  }

  lemma MorePadding(env: Env, was: Vol, path: Path, offset: nat, root: Vol, count: nat)
    requires EnvOk(env) && TreeOk(env, was) && was.Dir? && PartPadded(env, was, path, offset, root) && FileAt(root, path).Some? && 0 < count
    requires |FileAt(root, path).value.data| + count <= offset <= U32_TOP
    ensures PartPadded(env, was, path, offset, PutFile(root, path, Padded(env.g, FileAt(root, path).value, count)))
  {
    hide TreeOk, PaddedBy, Padded;
    var f := FileAt(root, path).value;
    if root == was {
      PaddedOnce(env, was, path, offset, count);
    } else {
      var j :| PaddedBy(env, was, path, offset, j, root);
      PaddedAgain(env, was, path, offset, j, root, count);
    }
  }

  lemma PaddedOnce(env: Env, was: Vol, path: Path, offset: nat, count: nat)
    requires EnvOk(env) && FileAt(was, path).Some? && 0 < count && |FileAt(was, path).value.data| + count <= offset
    ensures PaddedBy(env, was, path, offset, count, PutFile(was, path, Padded(env.g, FileAt(was, path).value, count)))
  {
  }

  lemma PaddedAgain(env: Env, was: Vol, path: Path, offset: nat, j: nat, root: Vol, count: nat)
    requires EnvOk(env) && TreeOk(env, was) && was.Dir? && PaddedBy(env, was, path, offset, j, root) && 0 < count && offset <= U32_TOP
    requires FileAt(root, path).Some? && |FileAt(root, path).value.data| + count <= offset
    ensures PaddedBy(env, was, path, offset, j + count, PutFile(root, path, Padded(env.g, FileAt(root, path).value, count)))
  {
    hide TreeOk, Written;
    var f := FileAt(was, path).value;
    PaddedTree(env, was, path, j);
    var once := Padded(env.g, f, j);
    WrittenTwice(env.g, f, |f.data|, Zeros(j), Zeros(count));
    assert Zeros(j) + Zeros(count) == Zeros(j + count);
    PutPut(was, path, File(once), File(Padded(env.g, once, count)));
  }

  /** Once some of a payload is stored there is no gap before the rest. */
  lemma NoGapAfter(env: Env, was: Vol, path: Path, offset: nat, bytes: seq<Byte>, root: Vol)
    requires EnvOk(env) && StoreChunk(env, was, path, false, offset, bytes) == Stored(root)
    ensures FileAt(root, path).Some? && |FileAt(root, path).value.data| >= offset + |bytes|
  {
    hide StoreChunk;
    StoredContents(env, was, path, false, offset, bytes);
  }

  /** Storing after some of the zeros have been written, or after some of the payload, is storing it all. */
  lemma StoredMore(env: Env, was: Vol, path: Path, append: bool, offset: nat, first: seq<Byte>, root: Vol, bytes: seq<Byte>, after: Vol)
    requires EnvOk(env) && TreeOk(env, was) && was.Dir? && PartStored(env, was, path, append, offset, first, root) && bytes != []
    requires offset + |first| + |bytes| <= U32_TOP
    requires StoreChunk(env, root, path, append, offset + |first|, bytes) == Stored(after)
    ensures StoreChunk(env, was, path, append, offset, first + bytes) == Stored(after)
  {
    hide TreeOk, StoreChunk, Padded, PutFile;
    if first != [] {
      StoreTwice(env, was, path, append, offset, first, bytes);
    } else {
      assert first + bytes == bytes;
      if root != was {
        var j :| PaddedBy(env, was, path, offset, j, root);
        StoredAfterPadding(env, was, path, offset, j, root, bytes);
      }
    }
  }

  lemma StoredAfterPadding(env: Env, was: Vol, path: Path, offset: nat, j: nat, root: Vol, bytes: seq<Byte>)
    requires EnvOk(env) && TreeOk(env, was) && was.Dir? && PaddedBy(env, was, path, offset, j, root) && offset + |bytes| <= U32_TOP
    requires StoreChunk(env, root, path, false, offset, bytes).Stored?
    ensures StoreChunk(env, was, path, false, offset, bytes) == StoreChunk(env, root, path, false, offset, bytes)
  {
    hide TreeOk, Padded, Written, Extended;
    var f := FileAt(was, path).value;
    PaddedTree(env, was, path, j);
    if !f.meta.readOnly { StoreAfterPadding(env, was, path, j, offset, bytes); }
  }

  lemma SameRoot(env: Env, e: Config, d: Config, k: nat, a: Act)
    requires EnvOk(env) && Midway(env, e, d, k) && a.Does? && a.used <= |d.rest| && a.out == []
    requires var c, now := d.machine.core, a.machine.core;
             && now.root == c.root && now.slots == c.slots && now.lost == c.lost && now.mode.Writing?
             && now.mode.write.id == c.mode.write.id && now.mode.write.slot == c.mode.write.slot && now.mode.write.failed.Some?
             && now.mode.write.remaining + a.used == c.mode.write.remaining
    ensures Midway(env, e, Config(a.machine, d.out + a.out, d.rest[a.used..]), k)
  {
    hide EnvOk, PartStored;
    assert d.out + [] == d.out;
    var used := e.machine.core.mode.write.remaining - d.machine.core.mode.write.remaining;
    assert e.rest[used..][a.used..] == e.rest[used + a.used..];
  }

  lemma MissingStep(env: Env, e: Config, d: Config, k: nat)
    requires EnvOk(env) && Midway(env, e, d, k) && Exact(env, d) && Busy(env, d)
    requires var w := d.machine.core.mode.write;
             w.remaining > 0 && (w.failed.Some? || (w.slot < |d.machine.core.slots| && Lookup(d.machine.core.root, PathOf(d.machine.core.slots[w.slot])).None?))
    ensures Midway(env, e, Then(env, d), k)
  {
    hide EnvOk, Wf, JobOk, Coherent, Midway, WriteOutcome, Lookup, PathOf, StatusReply;
    StillWriting(env, e, d, k);
    var w := d.machine.core.mode.write;
    var a := OnWrite(env, d.machine, d.rest);
    assert a.out == [] && a.machine.core.mode.Writing? && a.machine.core.mode.write.failed.Some?;
    SameRoot(env, e, d, k, a);
  }

  lemma StillWriting(env: Env, e: Config, d: Config, k: nat)
    requires EnvOk(env) && Midway(env, e, d, k)
    ensures d.machine.core.mode.Writing?
  {
    hide EnvOk, PartStored;
  }

  lemma NoneStored(env: Env, was: Vol, path: Path, offset: nat, root: Vol)
    requires EnvOk(env) && PartStored(env, was, path, false, offset, [], root)
    ensures PartPadded(env, was, path, offset, root)
  {
    hide EnvOk, PaddedBy;
  }

  lemma GapStep(env: Env, e: Config, d: Config, f: FatFile)
    requires EnvOk(env) && MachineOk(env, e.machine) && Midway(env, e, d, 0) && Storing(env, d.machine, f) && Busy(env, d)
    requires var w := d.machine.core.mode.write; !d.machine.core.slots[w.slot].append && w.offset > |f.data|
    ensures Midway(env, e, Then(env, d), 0)
  {
    hide EnvOk, TreeOk, JobOk, Coherent, WriteOutcome, CacheOk, Wf, PutFile, WriteRefusal, AfterWrite, PartPadded, StatusReply, Written;
    var m := d.machine;
    var c, w := m.core, m.core.mode.write;
    SlotsInRange(env, m);
    SlotsInRange(env, e.machine);
    WriteFits(env, c);
    PositiveClusters(env);
    var count := Min(w.offset - |f.data|, WRITE_CHUNK);
    GapRefusal(env, c, w, |f.data|, count, []);
    var a := OnWrite(env, m, d.rest);
    WroteCoherent(env, m, f, |f.data|, Zeros(count), a.machine.core.mode.write);
    assert d.rest[0..] == d.rest && d.out + [] == d.out && e.rest[..0] == [];
    if f.meta.readOnly {
      SameRoot(env, e, d, 0, a);
    } else {
      NoneStored(env, e.machine.core.root, TargetOf(c), w.offset, c.root);
      MorePadding(env, e.machine.core.root, TargetOf(c), w.offset, c.root, count);
    }
  }

  lemma StoreStep(env: Env, e: Config, d: Config, k: nat, f: FatFile) returns (k2: nat)
    requires EnvOk(env) && MachineOk(env, e.machine) && Midway(env, e, d, k) && Storing(env, d.machine, f) && Busy(env, d)
    requires var w := d.machine.core.mode.write; d.machine.core.slots[w.slot].append || w.offset <= |f.data|
    ensures Midway(env, e, Then(env, d), k2)
  {
    hide EnvOk, TreeOk, JobOk, Coherent, CacheOk, Wf, OnChunk, StatusReply, StoreChunk, Midway;
    var m := d.machine;
    var c, w := m.core, m.core.mode.write;
    var bytes := d.rest[..Min(w.remaining, WRITE_CHUNK)];
    StoreUnit(env, m, f, bytes);
    var a := OnWrite(env, m, d.rest);
    assert a == OnChunk(env, m, bytes);
    k2 := if StoreChunk(env, c.root, PathOf(c.slots[w.slot]), c.slots[w.slot].append, w.offset, bytes).Stored? then k + |bytes| else k;
    if k2 == k { SameRoot(env, e, d, k, a); } else { StoredStep(env, e, d, k, f, a); }
  }

  lemma StoredStep(env: Env, e: Config, d: Config, k: nat, f: FatFile, a: Act)
    requires EnvOk(env) && MachineOk(env, e.machine) && Midway(env, e, d, k) && Storing(env, d.machine, f)
    requires var c, w := d.machine.core, d.machine.core.mode.write;
             var n := Min(w.remaining, WRITE_CHUNK);
             && n <= |d.rest| && a.Does? && a.out == [] && a.used == n && a.machine.core == AfterChunk(env, c, w, d.rest[..n])
             && StoreChunk(env, c.root, PathOf(c.slots[w.slot]), c.slots[w.slot].append, w.offset, d.rest[..n]).Stored?
    ensures Midway(env, e, Config(a.machine, d.out + a.out, d.rest[a.used..]), k + a.used)
  {
    hide EnvOk, TreeOk, JobOk, Coherent, CacheOk, Wf, StoreChunk, PartPadded;
    var c, w := d.machine.core, d.machine.core.mode.write;
    var n := Min(w.remaining, WRITE_CHUNK);
    var bytes := d.rest[..n];
    SlotsInRange(env, e.machine);
    WriteFits(env, c);
    assert d.out + [] == d.out && d.rest[n..] == e.rest[k + n..] && e.rest[..k + n] == e.rest[..k] + bytes;
    StoredMore(env, e.machine.core.root, TargetOf(c), Appends(c), e.machine.core.mode.write.offset, e.rest[..k], c.root, bytes, a.machine.core.root);
  }

  lemma NoGapLeft(env: Env, e: Config, d: Config, k: nat, f: FatFile)
    requires EnvOk(env) && Midway(env, e, d, k) && Storing(env, d.machine, f)
    requires var w := d.machine.core.mode.write; !d.machine.core.slots[w.slot].append && w.offset > |f.data|
    ensures k == 0
  {
    hide EnvOk, MachineOk, Coherent, CacheOk, TreeOk, StoreChunk, PartPadded;
    if k > 0 {
      NoGapAfter(env, e.machine.core.root, TargetOf(d.machine.core), e.machine.core.mode.write.offset, e.rest[..k], d.machine.core.root);
    }
  }

  /** Every unit of a WRITE in progress takes it on. */
  lemma MidwayStep(env: Env, e: Config, d: Config, k: nat) returns (k2: nat)
    requires EnvOk(env) && MachineOk(env, e.machine) && Midway(env, e, d, k) && Exact(env, d) && Busy(env, d)
    requires !Stops(d.machine.core, d.rest) && Then(env, d).machine.core.mode.Writing?
    ensures Midway(env, e, Then(env, d), k2)
  {
    hide EnvOk, Wf, JobOk, Coherent, Midway, OnChunk, Lookup, StatusReply, CacheOk, TreeOk;
    StillWriting(env, e, d, k);
    var w := d.machine.core.mode.write;
    SlotsInRange(env, d.machine);
    k2 := k;
    if w.failed.Some? || Lookup(d.machine.core.root, PathOf(d.machine.core.slots[w.slot])).None? {
      MissingStep(env, e, d, k);
    } else {
      var f := StoringFile(env, d.machine);
      if !d.machine.core.slots[w.slot].append && w.offset > |f.data| {
        NoGapLeft(env, e, d, k, f);
        GapStep(env, e, d, f);
      } else {
        k2 := StoreStep(env, e, d, k, f);
      }
    }
  }

  /** What that means for the file: its old bytes, then zeros, or the payload laid over them; nothing else has changed. */
  lemma MidwayContents(env: Env, e: Config, d: Config, k: nat)
    requires EnvOk(env) && Midway(env, e, d, k) && FileAt(e.machine.core.root, TargetOf(e.machine.core)).Some? && k <= |e.rest|
    ensures var path, offset := TargetOf(e.machine.core), e.machine.core.mode.write.offset;
            var was, now := FileAt(e.machine.core.root, path).value, FileAt(d.machine.core.root, path);
            && now.Some? && now.value.id == was.id
            && if Appends(e.machine.core) then now.value.data == was.data + e.rest[..k]
               else if k > 0 then now.value.data == Overlay(ZeroExtend(was.data, offset), offset, e.rest[..k])
               else |now.value.data| <= Max(|was.data|, offset) && now.value.data == ZeroExtend(was.data, |now.value.data|)
  {
    hide EnvOk, StoreChunk, Padded;
    var c, path, offset := e.machine.core, TargetOf(e.machine.core), e.machine.core.mode.write.offset;
    var bytes := e.rest[..k];
    if k > 0 {
      StoredContents(env, c.root, path, Appends(c), offset, bytes);
    } else if d.machine.core.root != c.root {
      var j :| PaddedBy(env, c.root, path, offset, j, d.machine.core.root);
      PaddedContents(env, c.root, path, offset, j, d.machine.core.root);
    }
  }

  function Max(a: nat, b: nat): nat { if a < b then b else a }

  lemma PaddedContents(env: Env, was: Vol, path: Path, offset: nat, j: nat, root: Vol)
    requires EnvOk(env) && PaddedBy(env, was, path, offset, j, root)
    ensures FileAt(root, path).Some? && FileAt(root, path).value.data == ZeroExtend(FileAt(was, path).value.data, |FileAt(was, path).value.data| + j)
    ensures FileAt(root, path).value.id == FileAt(was, path).value.id && |FileAt(was, path).value.data| + j <= offset
  {
    var f := FileAt(was, path).value;
    LookupPut(was, path, File(Padded(env.g, f, j)));
  }

  // ---------------------------------------------------------------------
  // In the middle of a growth
  // ---------------------------------------------------------------------

  /** From `e`, where a growth began, to `d`, still in it, only zeros have been added to its file. */
  ghost predicate MidGrowth(env: Env, e: Config, d: Config)
    requires EnvOk(env)
  {
    var c, now := e.machine.core, d.machine.core;
    && c.mode.Growing? && now.mode == c.mode && d.out == e.out && d.rest == e.rest && c.mode.growth.attrs.size.Some?
    && now == c.(root := now.root)
    && PartPadded(env, c.root, c.mode.growth.path, c.mode.growth.attrs.size.value, now.root)
  }

  lemma MidGrowthStep(env: Env, e: Config, d: Config)
    requires EnvOk(env) && MachineOk(env, e.machine) && MidGrowth(env, e, d) && MachineOk(env, d.machine) && Then(env, d).machine.core.mode.Growing? && Busy(env, d)
    ensures MidGrowth(env, e, Then(env, d))
  {
    hide EnvOk, TreeOk, JobOk, WriteOutcome, CacheOk, Wf, PutFile, PartPadded, Padded, StatusReply, Written, NewMeta, Forget;
    var c, g := d.machine.core, d.machine.core.mode.growth;
    SlotsInRange(env, e.machine);
    GrowthFits(env, c);
    JobFile(env, d.machine);
    var f := FileAt(c.root, g.path).value;
    assert d.rest[0..] == d.rest && d.out + [] == d.out;
    GrowExact(env, d.machine);
    MorePadding(env, e.machine.core.root, g.path, g.attrs.size.value, c.root, Min(g.attrs.size.value - |f.data|, WRITE_CHUNK));
  }

  // ---------------------------------------------------------------------
  // Over whole runs
  // ---------------------------------------------------------------------

  /** `n` units that come to no stale cursor and no endless header. */
  ghost predicate Straight(env: Env, c: Config, n: nat, d: Config)
    requires EnvOk(env)
    decreases n
  {
    if n == 0 then c == d && MachineOk(env, c.machine)
    else Busy(env, c) && !Stops(c.machine.core, c.rest) && Straight(env, Then(env, c), n - 1, d)
  }

  lemma {:induction false} StraightExact(env: Env, c: Config, n: nat, d: Config)
    requires EnvOk(env) && Exact(env, c) && Straight(env, c, n, d)
    ensures Exact(env, d) && Total(env, d) == Total(env, c)
    decreases n
  {
    hide EnvOk, MachineOk, Micro, Coherent, Run, Stops, Wf;
    if n > 0 {
      ThenExact(env, c);
      StraightExact(env, Then(env, c), n - 1, d);
    }
  }

  /** A run of which the reference says more than it has come to is straight. */
  lemma {:induction false} StraightOrStopped(env: Env, c: Config, n: nat, d: Config)
    requires EnvOk(env) && Exact(env, c) && Reaches(env, c, n, d)
    ensures var o := Total(env, c); Straight(env, c, n, d) || Stops(o.core, o.rest)
    decreases n
  {
    hide EnvOk, MachineOk, Micro, Coherent, Run, Stops, Wf;
    if n > 0 {
      if Stops(c.machine.core, c.rest) {
        StopsThere(env, c);
      } else {
        ThenExact(env, c);
        StraightOrStopped(env, Then(env, c), n - 1, d);
      }
    }
  }

  /** A WRITE that is in progress began at `e`, and `k` bytes of it are in the file. */
  lemma {:induction false} MidWrite(env: Env, c: Config, n: nat, d: Config) returns (i: nat, e: Config, k: nat)
    requires EnvOk(env) && Exact(env, c) && Straight(env, c, n, d) && !c.machine.core.mode.Writing? && d.machine.core.mode.Writing?
    ensures i <= n && Reaches(env, c, i, e) && Midway(env, e, d, k)
    decreases n, 1
  {
    hide EnvOk, MachineOk, Micro, Coherent, Run, Stops, Wf, Midway;
    var next := Then(env, c);
    ThenExact(env, c);
    if next.machine.core.mode.Writing? {
      MidwayStarts(env, next);
      i, e, k := MidRun(env, next, 0, next, n - 1, d);
      if e == next { i := 0; StartsHere(env, next); }
    } else {
      i, e, k := MidWrite(env, next, n - 1, d);
    }
    i := i + 1;
  }

  lemma StartsHere(env: Env, c: Config)
    requires EnvOk(env) && Exact(env, c)
    ensures Reaches(env, c, 0, c)
  {
    hide EnvOk, Wf, Coherent;
  }

  lemma {:induction false} MidRun(env: Env, start: Config, stored: nat, c: Config, n: nat, d: Config) returns (i: nat, e: Config, k: nat)
    requires EnvOk(env) && Exact(env, c) && Straight(env, c, n, d) && c.machine.core.mode.Writing? && d.machine.core.mode.Writing?
    requires Exact(env, start) && Midway(env, start, c, stored)
    ensures i <= n && (e == start || Reaches(env, c, i, e)) && Midway(env, e, d, k)
    decreases n, 0
  {
    hide EnvOk, MachineOk, Micro, Coherent, Run, Stops, Wf, Midway;
    i, e, k := 0, start, stored;
    if n > 0 {
      var next := Then(env, c);
      ThenExact(env, c);
      if next.machine.core.mode.Writing? {
        var more := MidwayStep(env, start, c, stored);
        i, e, k := MidRun(env, start, more, next, n - 1, d);
      } else {
        i, e, k := MidWrite(env, next, n - 1, d);
      }
      i := i + 1;
    }
  }

  /** A growth that is in progress began at `e`, and has added only zeros, whatever became of other files. */
  lemma {:induction false} MidGrow(env: Env, c: Config, n: nat, d: Config) returns (i: nat, e: Config)
    requires EnvOk(env) && Reaches(env, c, n, d) && !c.machine.core.mode.Growing? && d.machine.core.mode.Growing?
    ensures i <= n && Reaches(env, c, i, e) && MidGrowth(env, e, d)
    decreases n, 1
  {
    hide EnvOk, Wf, JobOk, Micro, MidGrowth;
    var next := Then(env, c);
    MicroOk(env, c.machine, c.rest);
    if next.machine.core.mode.Growing? {
      MidGrowthStarts(env, next);
      i, e := GrowRun(env, next, next, n - 1, d);
      if e == next { i := 0; }
      assert Reaches(env, next, 0, next);
    } else {
      i, e := MidGrow(env, next, n - 1, d);
    }
    i := i + 1;
  }

  lemma MidGrowthStarts(env: Env, e: Config)
    requires EnvOk(env) && MachineOk(env, e.machine) && e.machine.core.mode.Growing?
    ensures MidGrowth(env, e, e)
  {
    hide EnvOk, TreeOk, JobOk;
    GrowthFits(env, e.machine.core);
  }

  lemma {:induction false} GrowRun(env: Env, start: Config, c: Config, n: nat, d: Config) returns (i: nat, e: Config)
    requires EnvOk(env) && Reaches(env, c, n, d) && c.machine.core.mode.Growing? && d.machine.core.mode.Growing?
    requires MachineOk(env, start.machine) && MidGrowth(env, start, c)
    ensures i <= n && (e == start || Reaches(env, c, i, e)) && MidGrowth(env, e, d)
    decreases n, 0
  {
    hide EnvOk, Wf, JobOk, Micro, MidGrowth;
    i, e := 0, start;
    if n > 0 {
      var next := Then(env, c);
      ReachesOk(env, c, n, d);
      if next.machine.core.mode.Growing? {
        MidGrowthStep(env, start, c);
        i, e := GrowRun(env, start, next, n - 1, d);
      } else {
        i, e := MidGrow(env, next, n - 1, d);
      }
      i := i + 1;
    }
  }

  /** What the growing file holds: its old bytes and some zeros, up to the new size. */
  lemma MidGrowthContents(env: Env, e: Config, d: Config)
    requires EnvOk(env) && MidGrowth(env, e, d) && FileAt(e.machine.core.root, e.machine.core.mode.growth.path).Some?
    ensures var path, target := e.machine.core.mode.growth.path, e.machine.core.mode.growth.attrs.size.value;
            var was, now := FileAt(e.machine.core.root, path).value, FileAt(d.machine.core.root, path);
            && now.Some? && now.value.id == was.id && now.value.data == ZeroExtend(was.data, |now.value.data|)
            && |now.value.data| <= Max(|was.data|, target)
  {
    hide EnvOk, Padded;
    var c, path, target := e.machine.core, e.machine.core.mode.growth.path, e.machine.core.mode.growth.attrs.size.value;
    if d.machine.core.root != c.root {
      var j :| PaddedBy(env, c.root, path, target, j, d.machine.core.root);
      PaddedContents(env, c.root, path, target, j, d.machine.core.root);
    }
  }

  // ---------------------------------------------------------------------
  // How much there is to do
  // ---------------------------------------------------------------------

  const UNITS_PER_BYTE := U32_LIMIT + 4

  /** At most this many units before more input is used. */
  function WorkLeft(c: Core): nat {
    match c.mode
    case Idle => 1
    case Reading(r) => r.remaining + 2
    case Writing(w) => if w.failed.Some? then 2 else 3 + GapLeft(c)
    case Growing(g) => 2 + if g.attrs.size.Some? then Gap(g.attrs.size.value, SizeAt(c.root, g.path)) else 0
    case _ => 0
  }

  function Gap(target: nat, size: nat): nat { if target > size then target - size else 0 }

  function GapLeft(c: Core): nat
    requires c.mode.Writing?
  {
    if Appends(c) || c.mode.write.remaining == 0 then 0 else Gap(c.mode.write.offset, SizeAt(c.root, TargetOf(c)))
  }

  function Units(g: Config): nat { |g.rest| * UNITS_PER_BYTE + WorkLeft(g.machine.core) }

  lemma WorkBounded(env: Env, c: Core)
    requires Wf(env, c)
    ensures WorkLeft(c) < UNITS_PER_BYTE
  {
    hide TreeOk, EnvOk, SizeAt;
    if c.mode.Reading? { ReadBounded(env, c); }
    if c.mode.Growing? { GrowthFits(env, c); }
  }

  lemma ReadBounded(env: Env, c: Core)
    requires Wf(env, c) && c.mode.Reading?
    ensures c.mode.read.remaining <= U32_TOP
  {
    hide ModeOk;
    ReadPromised(env, c);
    LookupOk(env, c.root, PathOf(c.slots[c.mode.read.slot]));
  }

  /** A unit that uses input may leave any amount of work, one that does not must leave less. */
  lemma UsesOrShrinks(env: Env, g: Config)
    requires EnvOk(env) && Busy(env, g)
    requires var a := Micro(env, g.machine, g.rest); a.used > 0 || WorkLeft(a.machine.core) < WorkLeft(g.machine.core)
    ensures Units(Then(env, g)) < Units(g)
  {
    var a := Micro(env, g.machine, g.rest);
    MicroOk(env, g.machine, g.rest);
    WorkBounded(env, a.machine.core);
    hide EnvOk, MachineOk, Micro, WorkLeft;
    if a.used > 0 { Fewer(|g.rest|, a.used, WorkLeft(a.machine.core), WorkLeft(g.machine.core)); }
  }

  lemma Fewer(length: nat, used: nat, after: nat, before: nat)
    requires 0 < used <= length && after < UNITS_PER_BYTE
    ensures (length - used) * UNITS_PER_BYTE + after < length * UNITS_PER_BYTE + before
  {
  }

  lemma ParseShrinks(env: Env, m: Machine, x: seq<Byte>)
    requires EnvOk(env) && MachineOk(env, m) && m.core.mode.Idle? && OnParse(env, m, x).Does? && !Endless(m.core, x)
    ensures var a := OnParse(env, m, x); a.used > 0 || WorkLeft(a.machine.core) == 0
  {
    hide EnvOk, MachineOk, OnPacket, FromBe32, StatusReply, WrapUsize, CheckWrite;
  }

  lemma ReadShrinks(env: Env, m: Machine)
    requires EnvOk(env) && MachineOk(env, m) && m.core.mode.Reading?
    ensures WorkLeft(OnRead(env, m).machine.core) < WorkLeft(m.core)
  {
    hide EnvOk, MachineOk, ReadOutcome;
  }

  lemma GapShrinks(env: Env, m: Machine, f: FatFile, bytes: seq<Byte>)
    requires EnvOk(env) && Storing(env, m, f) && 0 < |bytes| <= m.core.mode.write.remaining
    requires !m.core.slots[m.core.mode.write.slot].append && m.core.mode.write.offset > |f.data|
    ensures WorkLeft(OnChunk(env, m, bytes).machine.core) < WorkLeft(m.core)
  {
    hide EnvOk, TreeOk, JobOk, Coherent, WriteOutcome, CacheOk, Wf, WriteRefusal, AfterWrite, Written, PutFile;
    var c, w := m.core, m.core.mode.write;
    var path := PathOf(c.slots[w.slot]);
    var count := Min(w.offset - |f.data|, WRITE_CHUNK);
    var a := OnChunk(env, m, bytes);
    PositiveClusters(env);
    WroteCoherent(env, m, f, |f.data|, Zeros(count), a.machine.core.mode.write);
    SizeAfterWrite(env, c.root, path, f, Zeros(count));
  }

  lemma SizeAfterWrite(env: Env, root: Vol, path: Path, f: FatFile, bytes: seq<Byte>)
    requires EnvOk(env) && FileAt(root, path) == Some(f)
    ensures SizeAt(root, path) == |f.data|
    ensures SizeAt(PutFile(root, path, Written(env.g, f, |f.data|, bytes)), path) == |f.data| + |bytes|
  {
    LookupPut(root, path, File(Written(env.g, f, |f.data|, bytes)));
  }

  lemma WriteShrinks(env: Env, m: Machine, x: seq<Byte>)
    requires EnvOk(env) && MachineOk(env, m) && m.core.mode.Writing? && Coherent(env, m.core, m.caches) && !Strays(m.core) && OnWrite(env, m, x).Does?
    ensures var a := OnWrite(env, m, x); a.used > 0 || WorkLeft(a.machine.core) < WorkLeft(m.core)
  {
    hide EnvOk, TreeOk, JobOk, Coherent, Wf, Lookup, CacheOk, WriteReply, WriteOutcome, SizeAt, AfterWrite, TargetOf;
    var w := m.core.mode.write;
    SlotsInRange(env, m);
    if w.remaining > 0 && w.failed.None? && Lookup(m.core.root, PathOf(m.core.slots[w.slot])).Some? {
      var f := StoringFile(env, m);
      if !m.core.slots[w.slot].append && w.offset > |f.data| { GapShrinks(env, m, f, x[..Min(w.remaining, WRITE_CHUNK)]); }
    }
  }

  lemma GrowShrinks(env: Env, m: Machine)
    requires EnvOk(env) && MachineOk(env, m) && m.core.mode.Growing?
    ensures WorkLeft(OnGrow(env, m).machine.core) < WorkLeft(m.core)
  {
    hide EnvOk, TreeOk, JobOk, WriteOutcome, CacheOk, Wf, Written, StatusReply, NewMeta, Forget, PutFile;
    var c, g := m.core, m.core.mode.growth;
    SlotsInRange(env, m);
    GrowthFits(env, c);
    JobFile(env, m);
    PositiveClusters(env);
    var f := FileAt(c.root, g.path).value;
    SizeAfterWrite(env, c.root, g.path, f, Zeros(if g.attrs.size.value > |f.data| then Min(g.attrs.size.value - |f.data|, WRITE_CHUNK) else 0));
    if |f.data| < g.attrs.size.value { GrowExact(env, m); }
  }

  /** Every unit uses input or leaves less to do. */
  lemma UnitShrinks(env: Env, g: Config)
    requires EnvOk(env) && Exact(env, g) && Busy(env, g) && !Stops(g.machine.core, g.rest)
    ensures Units(Then(env, g)) < Units(g)
  {
    hide EnvOk, Wf, JobOk, OnParse, OnRead, OnWrite, OnGrow, Coherent, Strays, Endless, WorkLeft, Units, Then;
    UsesOrShrinks(env, g) by {
      match g.machine.core.mode
      case Idle => IdleShrinks(env, g);
      case Reading(_) => ReadShrinks(env, g.machine);
      case Writing(_) => WriteShrinks(env, g.machine, g.rest);
      case Growing(_) => GrowShrinks(env, g.machine);
      case _ =>
    }
  }

  lemma IdleShrinks(env: Env, g: Config)
    requires EnvOk(env) && Exact(env, g) && Busy(env, g) && g.machine.core.mode.Idle? && !Endless(g.machine.core, g.rest)
    ensures var a := Micro(env, g.machine, g.rest); a.used > 0 || WorkLeft(a.machine.core) < WorkLeft(g.machine.core)
  {
    hide EnvOk, Wf, JobOk, OnParse, Coherent, Endless;
    ParseShrinks(env, g.machine, g.rest);
  }

  /** A session is quiet after at most `Units` units, unless it comes to a stale cursor or an endless header. */
  lemma {:induction false} RunsEnd(env: Env, c: Config, n: nat, d: Config)
    requires EnvOk(env) && Exact(env, c) && Straight(env, c, n, d)
    ensures n + Units(d) <= Units(c)
    decreases n
  {
    hide EnvOk, MachineOk, Micro, Coherent, Run, Stops, Wf, Units;
    if n > 0 {
      ThenExact(env, c);
      UnitShrinks(env, c);
      RunsEnd(env, Then(env, c), n - 1, d);
    }
  }
}
