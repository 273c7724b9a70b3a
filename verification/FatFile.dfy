/**
 A FAT file: contents, cluster chain and directory-entry metadata; and the
 cursors that stand for positions in the chain (patches 0002, 0003 and 0005 of
 vendor-patches/hadris-fat).
 */
module FatFile {
  import opened Bytes
  import opened FatTree
  import opened FatTime

  const U32_TOP := 0xFFFF_FFFF

  datatype Meta = Meta(readOnly: bool, modified: FatDateTime, accessed: nat)

  /** `id` is the identity a cursor checks; `epoch` tells apart what was allocated before and after a truncation. */
  datatype FatFile = FatFile(id: nat, epoch: nat, data: seq<Byte>, chain: seq<nat>, meta: Meta)

  /** The cluster size, and which cluster the allocator hands out next for a chain. */
  datatype Geometry = Geometry(clusterSize: nat, alloc: (nat, nat, seq<nat>) -> nat)

  /** A cluster already in the chain is never handed out again. */
  ghost predicate GeometryOk(g: Geometry) {
    g.clusterSize > 0 && forall id, epoch, chain :: g.alloc(id, epoch, chain) !in chain
  }

  predicate NoRepeats(chain: seq<nat>) {
    forall i, j :: 0 <= i < j < |chain| ==> chain[i] != chain[j]
  }

  function ClustersFor(g: Geometry, size: nat): nat
    requires g.clusterSize > 0
  {
    if size == 0 then 0 else (size - 1) / g.clusterSize + 1
  }

  /** The chain, extended by freshly allocated clusters to `count` clusters. */
  function Grow(g: Geometry, id: nat, epoch: nat, chain: seq<nat>, count: nat): (r: seq<nat>)
    ensures |r| == if |chain| < count then count else |chain|
    ensures chain <= r
    decreases count - |chain|
  {
    if |chain| < count then Grow(g, id, epoch, chain + [g.alloc(id, epoch, chain)], count) else chain
  }

  lemma {:induction false} GrowNoRepeats(g: Geometry, id: nat, epoch: nat, chain: seq<nat>, count: nat)
    requires GeometryOk(g) && NoRepeats(chain)
    ensures NoRepeats(Grow(g, id, epoch, chain, count))
    decreases count - |chain|
  {
    if |chain| < count {
      var c := g.alloc(id, epoch, chain);
      assert c !in chain;
      GrowNoRepeats(g, id, epoch, chain + [c], count);
    }
  }

  lemma {:induction false} GrowTwice(g: Geometry, id: nat, epoch: nat, chain: seq<nat>, a: nat, b: nat)
    requires a <= b
    ensures Grow(g, id, epoch, Grow(g, id, epoch, chain, a), b) == Grow(g, id, epoch, chain, b)
    decreases a - |chain|
  {
    if |chain| < a {
      GrowTwice(g, id, epoch, chain + [g.alloc(id, epoch, chain)], a, b);
    }
  }

  lemma MoreClusters(g: Geometry, a: nat, b: nat)
    requires g.clusterSize > 0 && a <= b
    ensures ClustersFor(g, a) <= ClustersFor(g, b)
  {
    if a > 0 { Quotients(g.clusterSize, a - 1, b - 1); }
  }

  lemma Quotients(d: nat, a: nat, b: nat)
    requires d > 0 && a <= b
    ensures a / d <= b / d
  {
    var p, q := a / d, b / d;
    assert a == p * d + a % d && b == q * d + b % d;
    if p > q { Products(d, q + 1, p); }
  }

  lemma Products(d: nat, a: nat, b: nat)
    requires a <= b
    ensures a * d <= b * d
  {
  }

  // ---------------------------------------------------------------------
  // Files as byte sequences
  // ---------------------------------------------------------------------

  predicate Sound(g: Geometry, f: FatFile)
    requires g.clusterSize > 0
  {
    |f.chain| == ClustersFor(g, |f.data|) && NoRepeats(f.chain) && |f.data| <= U32_TOP
  }

  /** `bytes` written at `at`, keeping what lies after them. */
  function Written(g: Geometry, f: FatFile, at: nat, bytes: seq<Byte>): FatFile
    requires g.clusterSize > 0 && at <= |f.data|
  {
    var data := Overlay(f.data, at, bytes);
    f.(data := data, chain := Grow(g, f.id, f.epoch, f.chain, ClustersFor(g, |data|)))
  }

  /** The file cut to its first `size` bytes; the clusters after them are free again. */
  function Shrunk(g: Geometry, f: FatFile, size: nat): FatFile
    requires g.clusterSize > 0 && size <= |f.data|
  {
    var count := ClustersFor(g, size);
    f.(data := f.data[..size], chain := if count <= |f.chain| then f.chain[..count] else f.chain, epoch := f.epoch + 1)
  }

  lemma WrittenSound(g: Geometry, f: FatFile, at: nat, bytes: seq<Byte>)
    requires GeometryOk(g) && Sound(g, f) && at <= |f.data| && at + |bytes| <= U32_TOP
    ensures Sound(g, Written(g, f, at, bytes))
  {
    var data := Overlay(f.data, at, bytes);
    MoreClusters(g, |f.data|, |data|);
    GrowNoRepeats(g, f.id, f.epoch, f.chain, ClustersFor(g, |data|));
  }

  lemma ShrunkSound(g: Geometry, f: FatFile, size: nat)
    requires GeometryOk(g) && Sound(g, f) && size <= |f.data|
    ensures Sound(g, Shrunk(g, f, size))
  {
    MoreClusters(g, size, |f.data|);
  }

  lemma OverlayTwice(content: seq<Byte>, at: nat, a: seq<Byte>, b: seq<Byte>)
    requires at <= |content|
    ensures Overlay(Overlay(content, at, a), at + |a|, b) == Overlay(content, at, a + b)
  {
  }

  /** Writing in two pieces is writing at once. */
  lemma WrittenTwice(g: Geometry, f: FatFile, at: nat, a: seq<Byte>, b: seq<Byte>)
    requires g.clusterSize > 0 && at <= |f.data|
    ensures Written(g, Written(g, f, at, a), at + |a|, b) == Written(g, f, at, a + b)
  {
    OverlayTwice(f.data, at, a, b);
    var first, whole := Overlay(f.data, at, a), Overlay(f.data, at, a + b);
    MoreClusters(g, |first|, |whole|);
    GrowTwice(g, f.id, f.epoch, f.chain, ClustersFor(g, |first|), ClustersFor(g, |whole|));
  }

  /** Growth with zeros. */
  function Extended(g: Geometry, f: FatFile, size: nat): FatFile
    requires g.clusterSize > 0
  {
    if size <= |f.data| then f else Written(g, f, |f.data|, Zeros(size - |f.data|))
  }

  lemma ExtendedStep(g: Geometry, f: FatFile, count: nat, size: nat)
    requires g.clusterSize > 0 && 0 < count && |f.data| + count <= size
    ensures Extended(g, Written(g, f, |f.data|, Zeros(count)), size) == Extended(g, f, size)
  {
    var rest := size - |f.data| - count;
    assert Zeros(count) + Zeros(rest) == Zeros(count + rest);
    WrittenTwice(g, f, |f.data|, Zeros(count), Zeros(rest));
    if rest == 0 {
      assert Zeros(count) == Zeros(size - |f.data|);
    }
  }

  lemma ExtendedData(g: Geometry, f: FatFile, size: nat)
    requires g.clusterSize > 0
    ensures Extended(g, f, size).data == ZeroExtend(f.data, size)
    ensures Extended(g, f, size).id == f.id && Extended(g, f, size).meta == f.meta
  {
  }

  // ---------------------------------------------------------------------
  // Positions and cursors
  // ---------------------------------------------------------------------

  /** A position lies at the end of the cluster before it rather than at the start of the next. */
  function IndexOf(g: Geometry, position: nat): nat
    requires g.clusterSize > 0
  {
    if position == 0 then 0 else (position - 1) / g.clusterSize
  }

  function InCluster(g: Geometry, position: nat): nat
    requires g.clusterSize > 0
  {
    if position == 0 then 0 else (position - 1) % g.clusterSize + 1
  }

  lemma IndexRoundTrip(g: Geometry, position: nat)
    requires g.clusterSize > 0
    ensures IndexOf(g, position) * g.clusterSize + InCluster(g, position) == position
    ensures InCluster(g, position) <= g.clusterSize
    ensures position > 0 ==> IndexOf(g, position) < ClustersFor(g, position)
  {
  }

  function ClusterAt(chain: seq<nat>, i: nat): Option<nat> { if i < |chain| then Some(chain[i]) else None }

  /** Where a cluster number stands in a chain; the length of the chain if it is not in it. */
  function Rank(chain: seq<nat>, cluster: nat): (i: nat)
    ensures i <= |chain| && (i < |chain| ==> chain[i] == cluster)
    ensures i == |chain| ==> cluster !in chain
  {
    if chain == [] then 0 else if chain[0] == cluster then 0 else 1 + Rank(chain[1..], cluster)
  }

  lemma {:induction false} RankUnique(chain: seq<nat>, i: nat)
    requires NoRepeats(chain) && i < |chain|
    ensures Rank(chain, chain[i]) == i
  {
    if i > 0 {
      assert chain[1..][i - 1] == chain[i];
      RankUnique(chain[1..], i - 1);
    }
  }

  /** The file position a cluster number and an offset stand for, if the cluster is in the chain at all. */
  function PositionOf(g: Geometry, chain: seq<nat>, cluster: Option<nat>, offset: nat): Option<nat> {
    match cluster
    case None => if chain == [] then Some(0) else None
    case Some(c) => if Rank(chain, c) < |chain| then Some(Rank(chain, c) * g.clusterSize + offset) else None
  }

  lemma PositionRoundTrip(g: Geometry, f: FatFile, position: nat)
    requires GeometryOk(g) && Sound(g, f) && position <= |f.data|
    ensures PositionOf(g, f.chain, ClusterAt(f.chain, IndexOf(g, position)), InCluster(g, position)) == Some(position)
    ensures |f.data| > 0 ==> IndexOf(g, position) < |f.chain|
  {
    IndexRoundTrip(g, position);
    MoreClusters(g, position, |f.data|);
    if |f.data| > 0 {
      assert IndexOf(g, position) < |f.chain|;
      RankUnique(f.chain, IndexOf(g, position));
    }
  }

  datatype AppendCursor = AppendCursor(id: nat, first: Option<nat>, current: Option<nat>, offsetInCluster: nat, total: nat)

  datatype ReadCursor = ReadCursor(id: nat, first: Option<nat>, cluster: Option<nat>, offsetInCluster: nat, position: nat, size: nat)

  /** The file's true tail. */
  function TailOf(g: Geometry, f: FatFile): AppendCursor
    requires g.clusterSize > 0
  {
    AppendCursor(f.id, ClusterAt(f.chain, 0), ClusterAt(f.chain, IndexOf(g, |f.data|)), InCluster(g, |f.data|), |f.data|)
  }

  /** The cursor a reader that walked to `position` has. */
  function CursorAt(g: Geometry, f: FatFile, position: nat): ReadCursor
    requires g.clusterSize > 0
  {
    ReadCursor(f.id, ClusterAt(f.chain, 0), ClusterAt(f.chain, IndexOf(g, position)), InCluster(g, position), position, |f.data|)
  }

  /** The checks of `new_append_from_cursor`. */
  predicate AppendAccepted(g: Geometry, f: FatFile, c: AppendCursor) {
    && c.id == f.id && c.first == ClusterAt(f.chain, 0) && c.total == |f.data|
    && c.offsetInCluster <= g.clusterSize
    && (c.total > 0 ==> c.current.Some?)
    && (c.current.Some? ==> Rank(f.chain, c.current.value) + 1 >= |f.chain|)
  }

  /** The checks of `new_from_cursor`. */
  predicate ReadAccepted(g: Geometry, f: FatFile, c: ReadCursor) {
    && c.id == f.id && c.first == ClusterAt(f.chain, 0) && c.size == |f.data| && c.position <= c.size
    && c.offsetInCluster <= g.clusterSize && (c.size > 0 ==> c.cluster.Some?)
  }

  lemma TailAccepted(g: Geometry, f: FatFile)
    requires GeometryOk(g) && Sound(g, f)
    ensures AppendAccepted(g, f, TailOf(g, f))
  {
    PositionRoundTrip(g, f, |f.data|);
    IndexRoundTrip(g, |f.data|);
    if |f.data| > 0 { RankUnique(f.chain, |f.chain| - 1); }
  }

  lemma CursorAccepted(g: Geometry, f: FatFile, position: nat)
    requires GeometryOk(g) && Sound(g, f) && position <= |f.data|
    ensures ReadAccepted(g, f, CursorAt(g, f, position))
  {
    PositionRoundTrip(g, f, position);
    IndexRoundTrip(g, position);
  }

  // ---------------------------------------------------------------------
  // Writers
  // ---------------------------------------------------------------------

  /** Where a writer stands: its cluster, the offset in it, the position it counts, and the length it must keep. */
  datatype Writer = Writer(current: Option<nat>, offsetInCluster: nat, total: nat, preserve: nat)

  function AppendWriter(g: Geometry, f: FatFile): Writer
    requires g.clusterSize > 0
  {
    var t := TailOf(g, f);
    Writer(t.current, t.offsetInCluster, t.total, 0)
  }

  function ResumedWriter(c: AppendCursor): Writer { Writer(c.current, c.offsetInCluster, c.total, 0) }

  datatype Opened = Opened(writer: Writer) | ChainError

  /** `new_at`: walk the chain to the cluster that holds the byte before `offset`. */
  method NewAt(g: Geometry, f: FatFile, offset: nat) returns (r: Opened)
    requires g.clusterSize > 0
    ensures offset > |f.data| ==> r.ChainError?
    ensures offset <= |f.data| && |f.chain| == ClustersFor(g, |f.data|) ==>
              r == Opened(Writer(ClusterAt(f.chain, IndexOf(g, offset)), InCluster(g, offset), offset, |f.data|))
  {
    if offset > |f.data| { return ChainError; }
    var steps := (if offset == 0 then 0 else offset - 1) / g.clusterSize;
    IndexRoundTrip(g, offset);
    MoreClusters(g, offset, |f.data|);
    ZeroQuotient(g.clusterSize);
    var current := ClusterAt(f.chain, 0);
    ghost var at := 0;
    for i := 0 to steps
      invariant current == ClusterAt(f.chain, i)
    {
      if current.None? { return ChainError; }
      current := ClusterAt(f.chain, i + 1);
      if current.None? { return ChainError; }
    }
    if |f.data| > 0 && current.None? { return ChainError; }
    r := Opened(Writer(current, if offset == 0 then 0 else (offset - 1) % g.clusterSize + 1, offset, |f.data|));
  }

  lemma ZeroQuotient(d: nat)
    requires d > 0
    ensures 0 / d == 0
  {
  }

  /**
   What a writer commits: the bytes go where its cluster position points, and the
   entry's size is what it counts. None if its cluster is not one of the file's.
   */
  function Committed(g: Geometry, f: FatFile, w: Writer, bytes: seq<Byte>): Option<FatFile>
    requires g.clusterSize > 0
  {
    var p := PositionOf(g, f.chain, w.current, w.offsetInCluster);
    if p.None? || p.value > |f.data| then None
    else
      var end := w.total + |bytes|;
      var size := if end < w.preserve then w.preserve else end;
      var placed := Overlay(f.data, p.value, bytes);
      var data := if size <= |placed| then placed[..size] else placed + Zeros(size - |placed|);
      var grown := Grow(g, f.id, f.epoch, f.chain, ClustersFor(g, p.value + |bytes|));
      var used := ClustersFor(g, p.value + |bytes|);
      Some(f.(data := data,
              chain := if end >= w.preserve && used <= |grown| then grown[..used] else grown))
  }

  /** A writer that stands at its own count commits exactly the flat write. */
  lemma CommittedIsWritten(g: Geometry, f: FatFile, w: Writer, bytes: seq<Byte>)
    requires GeometryOk(g) && Sound(g, f) && w.total <= |f.data|
    requires PositionOf(g, f.chain, w.current, w.offsetInCluster) == Some(w.total)
    requires w.preserve == |f.data| || (w.preserve == 0 && w.total == |f.data|)
    ensures Committed(g, f, w, bytes) == Some(Written(g, f, w.total, bytes))
  {
    var end := w.total + |bytes|;
    var placed := Overlay(f.data, w.total, bytes);
    if end >= |f.data| { CommittedAtEnd(g, f, w.total, bytes); } else { CommittedInside(g, f, w.total, bytes); }
    assert placed[..|placed|] == placed;
    hide Grow, Overlay, ClustersFor, PositionOf;
  }

  lemma CommittedAtEnd(g: Geometry, f: FatFile, at: nat, bytes: seq<Byte>)
    requires g.clusterSize > 0 && Sound(g, f) && at <= |f.data| <= at + |bytes|
    ensures var used := ClustersFor(g, at + |bytes|);
            var grown := Grow(g, f.id, f.epoch, f.chain, used);
            |grown| == used && grown[..used] == grown && |Overlay(f.data, at, bytes)| == at + |bytes|
  {
    MoreClusters(g, |f.data|, at + |bytes|);
  }

  lemma CommittedInside(g: Geometry, f: FatFile, at: nat, bytes: seq<Byte>)
    requires g.clusterSize > 0 && Sound(g, f) && at + |bytes| < |f.data|
    ensures Grow(g, f.id, f.epoch, f.chain, ClustersFor(g, at + |bytes|)) == f.chain
    ensures Grow(g, f.id, f.epoch, f.chain, ClustersFor(g, |f.data|)) == f.chain
    ensures |Overlay(f.data, at, bytes)| == |f.data|
  {
    MoreClusters(g, at + |bytes|, |f.data|);
  }
}
