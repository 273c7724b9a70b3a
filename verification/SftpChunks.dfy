/**
 One card read or write through a handle, with its cached cursors, as a function:
 what is read or stored, what is refused, and what the handle remembers.
 */
module SftpChunks {
  import opened Bytes
  import opened FatTree
  import opened FatFile
  import opened Wire
  import opened SftpVolume
  import opened SftpModel
  import opened SftpCursors

  const WRITE_FAILED := Failure("SD write failed")
  const GAP_FIRST := Failure("Gap must be zero-filled first")

  // ---------------------------------------------------------------------
  // Reading
  // ---------------------------------------------------------------------

  /** How many bytes of the `most` there are one read gives: at least one. */
  function Burst(env: Env, f: FatFile, at: nat, most: nat): (n: nat)
    ensures n <= most && (most > 0 ==> n > 0)
  {
    var n := env.burst(f, at, most);
    if 0 < n <= most then n else most
  }

  /** Where a cursor's cluster and offset are, if that is where it says it is. */
  predicate ReaderStands(env: Env, f: FatFile, c: ReadCursor) {
    c.position <= |f.data| && PositionOf(env.g, f.chain, c.cluster, c.offsetInCluster) == Some(c.position)
  }

  /** `FileReader::read` from a cursor. Wherever its cluster is, its position moves on by what it gives. */
  function ReadFrom(env: Env, root: Vol, path: Path, f: FatFile, c: ReadCursor, count: nat): (r: (Option<seq<Byte>>, ReadCursor))
    requires EnvOk(env)
    ensures r.0.Some? ==> |r.0.value| <= count && r.1.position == c.position + |r.0.value|
  {
    if ReaderStands(env, f, c) then
      var n := Burst(env, f, c.position, Min(count, |f.data| - c.position));
      (Some(f.data[c.position..c.position + n]), CursorAt(env.g, f, c.position + n))
    else
      var (given, after) := env.strayRead(root, path, c, count);
      var most := if c.position <= c.size then Min(count, c.size - c.position) else 0;
      var bytes := if given.Some? && |given.value| > most then Some(given.value[..most]) else given;
      (bytes, if bytes.Some? then c.(cluster := after.cluster, offsetInCluster := after.offsetInCluster, position := c.position + |bytes.value|) else c)
  }

  datatype ReadResult = ReadResult(bytes: Option<seq<Byte>>, cache: Cache)

  /** `read_chunk`: resume from the saved cursor if it stands at `offset`, else walk there. */
  function ReadOutcome(env: Env, root: Vol, path: Path, k: Cache, offset: nat, count: nat): (r: ReadResult)
    requires EnvOk(env)
    ensures r.bytes.Some? ==> |r.bytes.value| <= count
  {
    var f := FileAt(root, path);
    var resumed := k.readAt.Some? && k.readAt.value.0 == offset;
    var empty := k.(readAt := None);
    if f.None? then ReadResult(None, empty)
    else if resumed && !ReadAccepted(env.g, f.value, k.readAt.value.1) then ReadResult(None, empty)
    else if !resumed && offset > |f.value.data| then ReadResult(None, empty)
    else
      var (bytes, stopped) := ReadFrom(env, root, path, f.value, if resumed then k.readAt.value.1 else CursorAt(env.g, f.value, offset), count);
      if bytes.None? then ReadResult(None, empty)
      else ReadResult(bytes, k.(readAt := Some((offset + |bytes.value|, stopped))))
  }

  /** With exact cursors a chunk is the file's bytes at the offset, and the cursors stay exact. */
  lemma ReadExact(env: Env, root: Vol, path: Path, k: Cache, offset: nat, count: nat)
    requires EnvOk(env) && TreeOk(env, root) && FileAt(root, path).Some? && CacheOk(env.g, FileAt(root, path).value, k)
    requires count > 0 && offset < |FileAt(root, path).value.data|
    ensures var f, r := FileAt(root, path).value, ReadOutcome(env, root, path, k, offset, count);
            && r.bytes.Some? && 0 < |r.bytes.value| && offset + |r.bytes.value| <= |f.data|
            && r.bytes.value == f.data[offset..offset + |r.bytes.value|] && CacheOk(env.g, f, r.cache)
  {
    hide TreeOk, TailOf;
    var f := FileAt(root, path).value;
    FileSoundAt(env, root, path);
    CursorAccepted(env.g, f, offset);
    PositionRoundTrip(env.g, f, offset);
    CursorPlace(env.g, f, offset);
  }

  lemma CursorPlace(g: Geometry, f: FatFile, position: nat)
    requires g.clusterSize > 0
    ensures var c := CursorAt(g, f, position);
            c.position == position && c.cluster == ClusterAt(f.chain, IndexOf(g, position)) && c.offsetInCluster == InCluster(g, position)
  {
  }

  lemma FileSoundAt(env: Env, root: Vol, path: Path)
    requires EnvOk(env) && TreeOk(env, root) && FileAt(root, path).Some?
    ensures Sound(env.g, FileAt(root, path).value)
  {
    LookupOk(env, root, path);
  }

  // ---------------------------------------------------------------------
  // Writing
  // ---------------------------------------------------------------------

  /** What `write_chunk` refuses, in its order. */
  function WriteRefusal(n: Option<Vol>, offset: nat, length: nat): Option<Status> {
    if n.None? then Some(NO_SUCH_FILE)
    else if MetaOf(n.value).readOnly then Some(READ_ONLY)
    else if offset + length > U32_TOP then Some(TOO_LARGE)
    else if offset > SizeOf(n.value) then Some(GAP_FIRST)
    else None
  }

  /** Where `new_at` arrives. */
  function WriterAt(g: Geometry, f: FatFile, offset: nat): Writer
    requires g.clusterSize > 0
  {
    Writer(ClusterAt(f.chain, IndexOf(g, offset)), InCluster(g, offset), offset, |f.data|)
  }

  /** The writer `write_chunk` opens: from the saved tail, from a walk to the end, or inside the file. */
  function OpenedWriter(env: Env, f: FatFile, append: Option<AppendCursor>, offset: nat): Option<Writer>
    requires EnvOk(env)
  {
    if offset != |f.data| then Some(WriterAt(env.g, f, offset))
    else if append.None? then Some(AppendWriter(env.g, f))
    else if AppendAccepted(env.g, f, append.value) then Some(ResumedWriter(append.value))
    else None
  }

  /** The writer's cluster and offset are where its count says, and it keeps the file's tail. */
  predicate Stands(g: Geometry, f: FatFile, w: Writer)
    requires g.clusterSize > 0
  {
    && w.total <= |f.data| && PositionOf(g, f.chain, w.current, w.offsetInCluster) == Some(w.total)
    && (w.preserve == |f.data| || (w.preserve == 0 && w.total == |f.data|))
  }

  datatype WriteResult = WriteResult(err: Option<Status>, root: Vol, cache: Cache)

  /** A write through a writer that is not where it counts to be; the model takes any outcome that is a sound volume. */
  function StrayWrite(env: Env, root: Vol, path: Path, w: Writer, data: seq<Byte>): (r: Stray)
    requires EnvOk(env) && TreeOk(env, root) && root.Dir?
    ensures TreeOk(env, r.root) && r.root.Dir?
  {
    var r := env.strayWrite(root, path, w, data);
    if r.root.Dir? && TreeOk(env, r.root) then r else r.(root := root)
  }

  /** `write`, `append_cursor` and `finish`. */
  function Commit(env: Env, root: Vol, path: Path, f: FatFile, k: Cache, w: Writer, data: seq<Byte>): WriteResult
    requires EnvOk(env) && TreeOk(env, root) && root.Dir? && FileAt(root, path) == Some(f)
  {
    var end := w.total + |data|;
    var grown := if end > |f.data| then end else |f.data|;
    if Stands(env.g, f, w) then
      var after := Written(env.g, f, w.total, data);
      WriteResult(None, PutFile(root, path, after), Cache(grown, if end >= |f.data| then Some(TailOf(env.g, after)) else None, None))
    else
      var stray := StrayWrite(env, root, path, w, data);
      if stray.ok then WriteResult(None, stray.root, Cache(grown, if end >= |f.data| then Some(stray.tail) else None, None))
      else WriteResult(Some(WRITE_FAILED), stray.root, k.(append := None))
  }

  /** `write_chunk`: at an existing offset, keeping the tail, or at the end. */
  function WriteOutcome(env: Env, root: Vol, path: Path, k: Cache, offset: nat, data: seq<Byte>): WriteResult
    requires EnvOk(env) && TreeOk(env, root) && root.Dir?
  {
    var n := Lookup(root, path);
    var refusal := WriteRefusal(n, offset, |data|);
    if refusal.Some? then WriteResult(refusal, root, k)
    else if n.value.Dir? then WriteResult(Some(WRITE_FAILED), root, k.(append := None))
    else
      var f := n.value.file;
      var append := if k.size == |f.data| then k.append else None;
      var w := OpenedWriter(env, f, append, offset);
      if w.None? then WriteResult(Some(WRITE_FAILED), root, k.(append := None))
      else Commit(env, root, path, f, k, w.value, data)
  }

  lemma WriterStands(env: Env, f: FatFile, append: Option<AppendCursor>, offset: nat)
    requires EnvOk(env) && Sound(env.g, f) && offset <= |f.data| && (append.Some? ==> append.value == TailOf(env.g, f))
    ensures var w := OpenedWriter(env, f, append, offset); w.Some? && w.value.total == offset && Stands(env.g, f, w.value)
  {
    PositionRoundTrip(env.g, f, offset);
    TailAccepted(env.g, f);
  }

  /** With exact cursors a chunk is the flat write, refusals included, and the cursors stay exact. */
  lemma WriteExact(env: Env, root: Vol, path: Path, k: Cache, offset: nat, data: seq<Byte>)
    requires EnvOk(env) && TreeOk(env, root) && root.Dir? && FileAt(root, path).Some? && CacheOk(env.g, FileAt(root, path).value, k)
    ensures var f, r := FileAt(root, path).value, WriteOutcome(env, root, path, k, offset, data);
            var refusal := WriteRefusal(Some(File(f)), offset, |data|);
            if refusal.Some? then r == WriteResult(refusal, root, k)
            else
              && offset <= |f.data| && r.err.None? && r.root == PutFile(root, path, Written(env.g, f, offset, data))
              && CacheOk(env.g, Written(env.g, f, offset, data), r.cache)
  {
    hide TreeOk, CursorAt, Written;
    var f := FileAt(root, path).value;
    FileSoundAt(env, root, path);
    if WriteRefusal(Some(File(f)), offset, |data|).None? {
      var append := if k.size == |f.data| then k.append else None;
      WriterStands(env, f, append, offset);
      WrittenSize(env.g, f, offset, data);
    }
  }

  lemma WrittenSize(g: Geometry, f: FatFile, at: nat, bytes: seq<Byte>)
    requires g.clusterSize > 0 && at <= |f.data|
    ensures var end := at + |bytes|;
            |Written(g, f, at, bytes).data| == if end > |f.data| then end else |f.data|
  {
  }

  /** Whatever a write does, the volume stays sound. */
  lemma WriteKeepsTree(env: Env, root: Vol, path: Path, k: Cache, offset: nat, data: seq<Byte>)
    requires EnvOk(env) && TreeOk(env, root) && root.Dir?
    ensures var r := WriteOutcome(env, root, path, k, offset, data); TreeOk(env, r.root) && r.root.Dir?
  {
    var n := Lookup(root, path);
    if WriteRefusal(n, offset, |data|).None? && n.value.File? {
      var f := n.value.file;
      FileSoundAt(env, root, path);
      var w := OpenedWriter(env, f, if k.size == |f.data| then k.append else None, offset);
      if w.Some? && Stands(env.g, f, w.value) {
        OpenedTotal(env, f, if k.size == |f.data| then k.append else None, offset);
        WrittenSound(env.g, f, offset, data);
        PutOk(env, root, path, File(Written(env.g, f, offset, data)));
      }
    }
  }

  lemma OpenedTotal(env: Env, f: FatFile, append: Option<AppendCursor>, offset: nat)
    requires EnvOk(env)
    ensures var w := OpenedWriter(env, f, append, offset); w.Some? ==> w.value.total == offset
  {
  }
}
