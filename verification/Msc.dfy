/**
 USB mass storage in front of the card (src/msc.rs): a read cache of two LRU
 lines and one stream line, READ(10), WRITE(10) and the session state.
 */
module Msc {
  import opened Bytes
  import opened SdCard
  import opened UsbEndpoints

  const LINE_BLOCKS := 8
  const CACHE_LINES := 2
  const STREAM_LINE := CACHE_LINES

  datatype Sense = Sense(key: nat, asc: nat, ascq: nat)

  const NO_SENSE := Sense(0, 0, 0)
  const NOT_READY := Sense(0x02, 0x3a, 0)
  const UNRECOVERED_READ := Sense(0x03, 0x11, 0)
  const WRITE_ERROR := Sense(0x03, 0x0c, 0)
  const INVALID_COMMAND := Sense(0x05, 0x20, 0)
  const INVALID_FIELD := Sense(0x05, 0x24, 0)

  datatype Status = Passed | Failed | PhaseError

  /** The fields of a decoded command block that the handlers use. */
  datatype Cbw = Cbw(transferLen: nat, directionIn: bool, command: Command)

  datatype Command =
    | TestUnitReady
    | RequestSense
    | StartStop(loadEject: bool, start: bool)
    | ReadCapacity
    | Read10(lba: nat, blocks: nat)
    | Write10(lba: nat, blocks: nat)
    /** INQUIRY, MODE SENSE and REPORT LUNS: a constant answer. */
    | Fixed(response: seq<Byte>)
    /** PREVENT ALLOW REMOVAL, SYNCHRONIZE CACHE and VERIFY without data. */
    | NoData
    | Unsupported

  /** The 32-bit LBA and 16-bit count of READ(10) and WRITE(10). */
  predicate WellFormed(c: Cbw) {
    && c.transferLen < U32_LIMIT
    && (c.command.Read10? ==> c.command.lba < U32_LIMIT && c.command.blocks < 0x1_0000)
    && (c.command.Write10? ==> c.command.lba < U32_LIMIT && c.command.blocks < 0x1_0000)
  }

  /** The block numbers of a chunk. */
  function Lbas(lba: nat, size: nat): (s: set<nat>)
    ensures forall b :: b in s <==> lba <= b < lba + size
  {
    if size == 0 then {} else Lbas(lba, size - 1) + {lba + size - 1}
  }

  lemma LbasJoin(t: set<nat>, lba: nat, a: nat, b: nat)
    ensures t - Lbas(lba, a) - Lbas(lba + a, b) == t - Lbas(lba, a + b)
  {
  }

  function Min(a: int, b: int): int { if a < b then a else b }

  // ---------------------------------------------------------------------
  // Cache lines as values
  // ---------------------------------------------------------------------

  datatype Line = Line(valid: bool, start: nat, len: nat, lastUsed: nat, data: seq<Block>) {
    predicate Contains(lba: nat) { valid && lba >= start && lba - start < len }
  }

  /** A valid line is an aligned run of the card, except for blocks a failed write left unknown. */
  ghost predicate LineGood(l: Line, blocks: seq<Block>, count: nat, tainted: set<nat>) {
    && |l.data| == LINE_BLOCKS
    && (l.valid ==>
          && l.start % LINE_BLOCKS == 0
          && l.start < count <= |blocks|
          && l.len == Min(LINE_BLOCKS, count - l.start)
          && forall lba :: l.start <= lba < l.start + l.len ==> lba in tainted || l.data[lba - l.start] == blocks[lba])
  }

  /** Every line is good and no two valid lines hold the same run. */
  ghost predicate Coherent(lines: seq<Line>, blocks: seq<Block>, count: nat, tainted: set<nat>) {
    && |lines| == CACHE_LINES + 1
    && (forall i :: 0 <= i < |lines| ==> LineGood(lines[i], blocks, count, tainted))
    && (forall i, j :: 0 <= i < j < |lines| && lines[i].valid && lines[j].valid ==> lines[i].start != lines[j].start)
  }

  /** Lines whose buffers have their fixed length but that hold nothing. */
  ghost predicate Empty(lines: seq<Line>) {
    |lines| == CACHE_LINES + 1 && forall i :: 0 <= i < |lines| ==> !lines[i].valid && |lines[i].data| == LINE_BLOCKS
  }

  /** What a line holds, without when it was used. */
  function Held(l: Line): Line { l.(lastUsed := 0) }

  lemma EmptyIsCoherent(lines: seq<Line>, blocks: seq<Block>, count: nat, tainted: set<nat>)
    requires Empty(lines)
    ensures Coherent(lines, blocks, count, tainted)
  {
  }

  /** Valid lines have pairwise disjoint ranges. */
  lemma LinesDisjoint(lines: seq<Line>, blocks: seq<Block>, count: nat, tainted: set<nat>, i: nat, j: nat, lba: nat)
    requires Coherent(lines, blocks, count, tainted) && i < |lines| && j < |lines|
    requires lines[i].Contains(lba) && lines[j].Contains(lba)
    ensures i == j
  {
    SameRun(lines[i].start, lines[j].start, lba);
  }

  lemma SameRun(a: nat, b: nat, lba: nat)
    requires a % LINE_BLOCKS == 0 && b % LINE_BLOCKS == 0
    requires a <= lba < a + LINE_BLOCKS && b <= lba < b + LINE_BLOCKS
    ensures a == b && a == lba - lba % LINE_BLOCKS
  {
  }

  /** Marking a line used, or giving up what it holds, keeps the cache coherent. */
  lemma TouchCoherent(lines: seq<Line>, blocks: seq<Block>, count: nat, tainted: set<nat>, i: nat, l: Line)
    requires Coherent(lines, blocks, count, tainted) && i < |lines|
    requires (l.valid ==> Held(l) == Held(lines[i])) && |l.data| == LINE_BLOCKS
    ensures Coherent(lines[i := l], blocks, count, tainted)
  {
    if l.valid {
      assert l.start == lines[i].start && l.len == lines[i].len && l.data == lines[i].data;
      assert LineGood(lines[i], blocks, count, tainted);
    }
  }

  /** Filling a line after a miss keeps the cache coherent: no other line holds that run. */
  lemma FillCoherent(lines: seq<Line>, blocks: seq<Block>, count: nat, tainted: set<nat>, i: nat, l: Line, lba: nat)
    requires Coherent(lines, blocks, count, tainted) && i < |lines| && lba < count <= |blocks|
    requires forall k :: 0 <= k < |lines| ==> !lines[k].Contains(lba)
    requires l.valid && |l.data| == LINE_BLOCKS && l.start == lba - lba % LINE_BLOCKS && l.len == Min(LINE_BLOCKS, count - l.start)
    requires l.data[..l.len] == blocks[l.start..l.start + l.len]
    ensures Coherent(lines[i := l], blocks, count, tainted) && l.Contains(lba)
  {
    forall k | 0 <= k < |lines| && lines[k].valid ensures lines[k].start != l.start {
      assert LineGood(lines[k], blocks, count, tainted) && !lines[k].Contains(lba);
    }
    forall b | l.start <= b < l.start + l.len ensures l.data[b - l.start] == blocks[b] {
      assert l.data[..l.len][b - l.start] == blocks[l.start..l.start + l.len][b - l.start];
    }
  }

  /** A line after `count` blocks from `lba` on were rewritten with `written`. */
  function Refreshed(l: Line, lba: nat, written: seq<Block>): (r: Line)
    requires |l.data| == LINE_BLOCKS
    ensures |r.data| == LINE_BLOCKS && r.valid == l.valid && r.start == l.start && r.len == l.len
  {
    l.(data := seq(LINE_BLOCKS, k requires 0 <= k < LINE_BLOCKS =>
      if l.Contains(l.start + k) && lba <= l.start + k < lba + |written| then written[l.start + k - lba] else l.data[k]))
  }

  lemma RefreshedNone(l: Line, lba: nat)
    requires |l.data| == LINE_BLOCKS
    ensures Refreshed(l, lba, []) == l
  {
  }

  /** Copying one more written block into a line that holds it. */
  lemma RefreshedStep(l: Line, lba: nat, written: seq<Block>, b: Block)
    requires |l.data| == LINE_BLOCKS && l.len <= LINE_BLOCKS
    ensures var r := Refreshed(l, lba, written);
            var target := lba + |written|;
            Refreshed(l, lba, written + [b]) ==
            if r.Contains(target) then r.(data := r.data[target - r.start := b]) else r
  {
    var r, target := Refreshed(l, lba, written), lba + |written|;
    var stepped := if r.Contains(target) then r.(data := r.data[target - r.start := b]) else r;
    forall k | 0 <= k < LINE_BLOCKS ensures Refreshed(l, lba, written + [b]).data[k] == stepped.data[k] {
      if l.Contains(l.start + k) && lba <= l.start + k < target {
        assert (written + [b])[l.start + k - lba] == written[l.start + k - lba];
      }
    }
  }

  /** After a write that reached the card, refreshed lines are good again, and know the written blocks. */
  lemma RefreshedGood(l: Line, blocks: seq<Block>, count: nat, tainted: set<nat>, lba: nat, written: seq<Block>)
    requires LineGood(l, blocks, count, tainted) && lba + |written| <= |blocks|
    ensures LineGood(Refreshed(l, lba, written), Splice(blocks, lba, written), count,
                     tainted - Lbas(lba, |written|))
  {
    var r, after := Refreshed(l, lba, written), Splice(blocks, lba, written);
    if l.valid {
      forall b | l.start <= b < l.start + l.len
        ensures b in tainted - Lbas(lba, |written|) || r.data[b - l.start] == after[b]
      {
        assert l.Contains(l.start + (b - l.start));
        assert b in tainted || l.data[b - l.start] == blocks[b];
      }
    }
  }

  /** A failed write leaves lines good except for the blocks of its chunk. */
  lemma TaintedGood(l: Line, blocks: seq<Block>, after: seq<Block>, count: nat, tainted: set<nat>, lba: nat, size: nat)
    requires LineGood(l, blocks, count, tainted) && |after| == |blocks|
    requires forall b :: 0 <= b < |blocks| && !(lba <= b < lba + size) ==> after[b] == blocks[b]
    ensures LineGood(l, after, count, tainted + Lbas(lba, size))
  {
  }

  /** Invalid lines and refreshed LRU lines after a write of the staged blocks that reached the card. */
  lemma WrittenCoherent(lines: seq<Line>, now: seq<Line>, blocks: seq<Block>, count: nat, tainted: set<nat>,
                        lba: nat, written: seq<Block>)
    requires Coherent(lines, blocks, count, tainted) && !lines[STREAM_LINE].valid && lba + |written| <= |blocks|
    requires |now| == |lines| && now[STREAM_LINE] == lines[STREAM_LINE]
    requires forall i :: 0 <= i < CACHE_LINES ==> now[i] == Refreshed(lines[i], lba, written)
    ensures Coherent(now, Splice(blocks, lba, written), count, tainted - Lbas(lba, |written|))
  {
    hide Splice, Lbas;
    forall i | 0 <= i < |now| ensures LineGood(now[i], Splice(blocks, lba, written), count, tainted - Lbas(lba, |written|)) {
      if i < CACHE_LINES { RefreshedGood(lines[i], blocks, count, tainted, lba, written); }
    }
  }

  lemma TaintedCoherent(lines: seq<Line>, blocks: seq<Block>, after: seq<Block>, count: nat, tainted: set<nat>, lba: nat, size: nat)
    requires Coherent(lines, blocks, count, tainted) && |after| == |blocks|
    requires forall b :: 0 <= b < |blocks| && !(lba <= b < lba + size) ==> after[b] == blocks[b]
    ensures Coherent(lines, after, count, tainted + Lbas(lba, size))
  {
    forall i | 0 <= i < |lines| ensures LineGood(lines[i], after, count, tainted + Lbas(lba, size)) {
      TaintedGood(lines[i], blocks, after, count, tainted, lba, size);
    }
  }

  /** A line holds block `b`. */
  predicate Cached(lines: seq<Line>, b: nat) { exists i :: 0 <= i < |lines| && lines[i].Contains(b) }

  /** A line holds block `b` as the card does not have it. */
  ghost predicate Outdated(lines: seq<Line>, blocks: seq<Block>, b: nat) {
    exists i :: 0 <= i < |lines| && lines[i].Contains(b) && b < |blocks| && b - lines[i].start < |lines[i].data| &&
                lines[i].data[b - lines[i].start] != blocks[b]
  }

  /** After a write that failed, the lines being as they were, those blocks are outdated that a line holds and the card now has otherwise. */
  lemma FailedWriteOutdates(lines: seq<Line>, before: seq<Block>, after: seq<Block>, count: nat, tainted: set<nat>, b: nat)
    requires Coherent(lines, before, count, tainted) && |after| == |before| && b < |before| && b !in tainted
    ensures Outdated(lines, after, b) <==> Cached(lines, b) && after[b] != before[b]
  {
    if Cached(lines, b) && after[b] != before[b] {
      var i :| 0 <= i < |lines| && lines[i].Contains(b);
      assert LineGood(lines[i], before, count, tainted);
    }
    if Outdated(lines, after, b) {
      var i :| 0 <= i < |lines| && lines[i].Contains(b) && b - lines[i].start < |lines[i].data| && lines[i].data[b - lines[i].start] != after[b];
      assert LineGood(lines[i], before, count, tainted);
    }
  }

  lemma AllOutdated(lines: seq<Line>, before: seq<Block>, after: seq<Block>, count: nat, tainted: set<nat>)
    requires Coherent(lines, before, count, tainted) && |after| == |before|
    ensures forall b :: 0 <= b < |before| && b !in tainted ==> (Outdated(lines, after, b) <==> Cached(lines, b) && after[b] != before[b])
  {
    hide Coherent, Outdated, Cached;
    forall b: nat | b < |before| && b !in tainted ensures Outdated(lines, after, b) <==> Cached(lines, b) && after[b] != before[b] {
      FailedWriteOutdates(lines, before, after, count, tainted, b);
    }
  }

  /** A card of one block, cached, and a write of it that stores it and is reported as failed. */
  lemma OutdatedLine() returns (lines: seq<Line>, before: seq<Block>, after: seq<Block>, sent: Block)
    ensures Coherent(lines, before, 1, {}) && CardAfterWrite(before, after, 0, [sent], 0, 1) && Outdated(lines, after, 0)
  {
    var zero: Block := Zeros(BLOCK_LEN);
    sent := zero[0 := 1];
    assert sent[0] != zero[0];
    var data := seq(LINE_BLOCKS, _ => zero);
    lines, before, after := [Line(true, 0, 1, 0, data), Line(false, 0, 0, 0, data), Line(false, 0, 0, 0, data)], [zero], [sent];
    assert lines[0].Contains(0) && lines[0].data[0] == zero;
  }

  /** Block `k` of what the host sends from byte `at` on. */
  function HostBlock(stream: seq<Byte>, at: nat, k: nat): Block
    requires at + (k + 1) * BLOCK_LEN <= |stream|
  {
    var b: Block := stream[at + k * BLOCK_LEN..at + (k + 1) * BLOCK_LEN]; b
  }

  function HostBlocks(stream: seq<Byte>, at: nat, from: nat, n: nat): (r: seq<Block>)
    requires at + (from + n) * BLOCK_LEN <= |stream|
    ensures |r| == n
  {
    seq<Block>(n, k requires 0 <= k < n => HostBlock(stream, at, from + k))
  }

  /** The card after a WRITE(10) that committed `done` blocks and may have torn the next `torn` ones. */
  ghost predicate CardAfterWrite(before: seq<Block>, after: seq<Block>, lba: nat, sent: seq<Block>, done: nat, torn: nat) {
    && done + torn <= |sent| && lba + |sent| <= |before| == |after|
    && (forall b :: 0 <= b < |after| ==>
          if lba <= b < lba + done then after[b] == sent[b - lba]
          else after[b] == before[b] || (lba + done <= b < lba + done + torn && after[b] == sent[b - lba]))
  }

  lemma HostBlocksSplit(stream: seq<Byte>, at: nat, n: nat, m: nat)
    requires at + (n + m) * BLOCK_LEN <= |stream|
    ensures HostBlocks(stream, at, 0, n) + HostBlocks(stream, at + n * BLOCK_LEN, 0, m) == HostBlocks(stream, at, 0, n + m)
  {
    forall k | n <= k < n + m ensures HostBlock(stream, at + n * BLOCK_LEN, k - n) == HostBlock(stream, at, k) {
    }
  }

  lemma HostBlocksNone(stream: seq<Byte>, at: nat)
    requires at <= |stream|
    ensures HostBlocks(stream, at, 0, 0) == []
  {
  }

  lemma WriteContinues(before: seq<Block>, mid: seq<Block>, after: seq<Block>, lba: nat,
                       first: seq<Block>, second: seq<Block>, done: nat, torn: nat)
    requires CardAfterWrite(before, mid, lba, first, |first|, 0)
    requires CardAfterWrite(mid, after, lba + |first|, second, done, torn)
    ensures CardAfterWrite(before, after, lba, first + second, |first| + done, torn)
  {
  }

  /** One round of a WRITE(10) extends what earlier rounds committed. */
  lemma RoundExtends(before: seq<Block>, mid: seq<Block>, after: seq<Block>, lba: nat, stream: seq<Byte>, at: nat,
                     committed: nat, count: nat, done: nat, blocks: nat)
    requires at + blocks * BLOCK_LEN <= |stream| && committed + count <= blocks && done <= count
    requires lba + blocks <= |before|
    requires CardAfterWrite(before, mid, lba, HostBlocks(stream, at, 0, committed), committed, 0)
    requires CardAfterWrite(mid, after, lba + committed, HostBlocks(stream, at + committed * BLOCK_LEN, 0, count), done, count - done)
    ensures CardAfterWrite(before, after, lba, HostBlocks(stream, at, 0, committed + count), committed + done, count - done)
    ensures CardAfterWrite(before, after, lba, HostBlocks(stream, at, 0, blocks), committed + done, count - done)
  {
    hide CardAfterWrite, HostBlocks, HostBlock;
    HostBlocksSplit(stream, at, committed, count);
    WriteContinues(before, mid, after, lba, HostBlocks(stream, at, 0, committed),
                   HostBlocks(stream, at + committed * BLOCK_LEN, 0, count), done, count - done);
    HostBlocksSplit(stream, at, committed + count, blocks - committed - count);
    WriteSentMore(before, after, lba, HostBlocks(stream, at, 0, committed + count),
                  HostBlocks(stream, at + (committed + count) * BLOCK_LEN, 0, blocks - committed - count),
                  committed + done, count - done);
  }

  lemma WriteNotStarted(blocks: seq<Block>, lba: nat)
    requires lba <= |blocks|
    ensures CardAfterWrite(blocks, blocks, lba, [], 0, 0)
  {
  }

  /** The host blocks after the last one handled do not matter. */
  lemma WriteSentMore(before: seq<Block>, after: seq<Block>, lba: nat, sent: seq<Block>, more: seq<Block>, done: nat, torn: nat)
    requires CardAfterWrite(before, after, lba, sent, done, torn) && lba + |sent + more| <= |before|
    ensures CardAfterWrite(before, after, lba, sent + more, done, torn)
  {
  }

  /** A write that committed every block has replaced exactly the addressed run. */
  lemma WriteComplete(before: seq<Block>, after: seq<Block>, lba: nat, sent: seq<Block>)
    requires CardAfterWrite(before, after, lba, sent, |sent|, 0)
    ensures after == Splice(before, lba, sent)
  {
  }

  /** What a WRITE(10) that committed `done` blocks, and may have torn the next `torn`, did with what the host sent. */
  ghost predicate WriteEffect(before: seq<Block>, after: seq<Block>, lba: nat, stream: seq<Byte>, at: nat, done: nat, torn: nat) {
    && at + (done + torn) * BLOCK_LEN <= |stream|
    && if done + torn == 0 then after == before
       else lba + done + torn <= |before| == |after| && CardAfterWrite(before, after, lba, HostBlocks(stream, at, 0, done + torn), done, torn)
  }

  lemma EffectOf(before: seq<Block>, after: seq<Block>, lba: nat, stream: seq<Byte>, at: nat, done: nat, torn: nat)
    requires at + (done + torn) * BLOCK_LEN <= |stream| && CardAfterWrite(before, after, lba, HostBlocks(stream, at, 0, done + torn), done, torn)
    ensures WriteEffect(before, after, lba, stream, at, done, torn)
  {
  }

  /** What one card command does, told as a write of its blocks. */
  lemma WriteCommand(before: seq<Block>, after: seq<Block>, lba: nat, data: seq<Block>, ok: bool)
    requires lba + |data| <= |before| == |after|
    requires ok ==> after == Splice(before, lba, data)
    requires !ok ==> forall k :: 0 <= k < |before| ==>
               after[k] == before[k] || (lba <= k < lba + |data| && after[k] == data[k - lba])
    ensures CardAfterWrite(before, after, lba, data, if ok then |data| else 0, if ok then 0 else |data|)
  {
  }

  /** All the bytes of a run of blocks. */
  function BlockBytes(blocks: seq<Block>): (s: seq<Byte>)
    ensures |s| == |blocks| * BLOCK_LEN
  {
    if blocks == [] then [] else BlockBytes(blocks[..|blocks| - 1]) + blocks[|blocks| - 1]
  }

  lemma BlockBytesAppend(blocks: seq<Block>, b: Block)
    ensures BlockBytes(blocks + [b]) == BlockBytes(blocks) + b
  {
    assert (blocks + [b])[..|blocks|] == blocks;
  }

  /** `sent` are the card's blocks from `lba` on, up to blocks a failed write left unknown. */
  ghost predicate FromCard(sent: seq<Block>, blocks: seq<Block>, lba: nat, tainted: set<nat>) {
    lba + |sent| <= |blocks| && forall k :: 0 <= k < |sent| ==> lba + k in tainted || sent[k] == blocks[lba + k]
  }

  lemma FromCardConcat(sent: seq<Block>, run: seq<Block>, blocks: seq<Block>, lba: nat, tainted: set<nat>)
    requires FromCard(sent, blocks, lba, tainted) && FromCard(run, blocks, lba + |sent|, tainted)
    ensures FromCard(sent + run, blocks, lba, tainted)
  {
    forall k | |sent| <= k < |sent + run| ensures lba + k in tainted || (sent + run)[k] == blocks[lba + k] {
      assert lba + |sent| + (k - |sent|) in tainted || run[k - |sent|] == blocks[lba + |sent| + (k - |sent|)];
    }
  }

  /** Blocks taken out of a good line are the card's. */
  lemma FromLine(blocks: seq<Block>, tainted: set<nat>, l: Line, count: nat, first: nat, last: nat)
    requires LineGood(l, blocks, count, tainted) && l.valid && first <= last <= l.len
    ensures FromCard(l.data[first..last], blocks, l.start + first, tainted)
  {
    var run := l.data[first..last];
    forall k | 0 <= k < |run| ensures l.start + first + k in tainted || run[k] == blocks[l.start + first + k] {
      assert run[k] == l.data[l.start + first + k - l.start];
    }
  }

  lemma {:induction false} BlockBytesConcat(a: seq<Block>, b: seq<Block>)
    ensures BlockBytes(a + b) == BlockBytes(a) + BlockBytes(b)
  {
    if b == [] {
      assert a + b == a;
    } else {
      var rest := b[..|b| - 1];
      BlockBytesConcat(a, rest);
      assert (a + b)[..|a + b| - 1] == a + rest;
    }
  }

  lemma FromCardNone(blocks: seq<Block>, lba: nat, tainted: set<nat>)
    ensures lba <= |blocks| ==> FromCard([], blocks, lba, tainted)
    ensures BlockBytes([]) == []
  {
  }

  /** `sent` are the bytes of the card's `count` blocks from `lba` on, up to blocks in `doubtful`. */
  ghost predicate ReadsCard(sent: seq<Byte>, blocks: seq<Block>, lba: nat, count: nat, doubtful: set<nat>) {
    count > 0 ==> exists run :: |run| == count && sent == BlockBytes(run) && FromCard(run, blocks, lba, doubtful)
  }

  lemma FromCardExact(sent: seq<Block>, blocks: seq<Block>, lba: nat)
    requires FromCard(sent, blocks, lba, {})
    ensures sent == blocks[lba..lba + |sent|]
  {
  }

  /** How one round of a READ(10) ends. */
  datatype Round = Sent(next: nat, left: nat) | MediumError | EndpointError(left: nat)

  /** How one round of a WRITE(10) ends. */
  datatype WriteRoundEnd = Committed | CardError | HostError

  // ---------------------------------------------------------------------
  // Session state
  // ---------------------------------------------------------------------

  class SharedState {
    var card: Card
    var blocks: nat
    var generation: nat
    var attached: bool
    var configured: bool
    var ejected: bool
    var sense: Sense
    /** Attaches so far; the generation is this number in 32 bits. */
    ghost var attaches: nat

    ghost predicate Valid()
      reads this, card
    {
      generation == attaches % U32_LIMIT && card.Valid() && (attached ==> blocks <= |card.blocks|)
    }

    constructor (card: Card)
      requires card.Valid()
      ensures Valid() && !attached && !ejected && attaches == 0 && this.card == card
    {
      this.card := card;
      blocks, generation, attached, configured, ejected := 0, 0, false, false, false;
      sense, attaches := NO_SENSE, 0;
    }

    method Attach(device: Card)
      requires Valid() && device.Valid()
      modifies this, device`faults
      ensures Valid() && attached && !ejected && sense == NO_SENSE && card == device && attaches == old(attaches) + 1
      ensures blocks == |device.blocks| || (blocks == 0 && device.faults > old(device.faults))
      ensures device.faults >= old(device.faults)
    {
      card := device;
      var ok, count := device.NumBlocks();
      blocks := if ok then count else 0;
      attaches := attaches + 1;
      generation := (generation + 1) % U32_LIMIT;
      attached, ejected, sense := true, false, NO_SENSE;
    }

    method Detach()
      requires Valid()
      modifies this
      ensures Valid() && !attached && !ejected && sense == old(sense) && card == old(card) && attaches == old(attaches)
    {
      blocks, attached, configured, ejected := 0, false, false, false;
    }

    /** Blocks the host may address now. */
    function BlockCount(): nat
      reads this
    {
      if attached && !ejected then blocks else 0
    }
  }

  // ---------------------------------------------------------------------
  // What the host should see: a disk of blocks, with no cache
  // ---------------------------------------------------------------------

  datatype Disk = Disk(blocks: seq<Block>, attached: bool, ejected: bool, sense: Sense) {
    function Count(): nat { if attached && !ejected then |blocks| else 0 }
  }

  datatype Answer = Answer(residue: nat, status: Status, sent: seq<Byte>)

  function SenseResponse(sense: Sense): seq<Byte> {
    [0x70, 0, sense.key % 256, 0, 0, 0, 0, 10, 0, 0, 0, 0, sense.asc % 256, sense.ascq % 256, 0, 0, 0, 0]
  }

  function CapacityResponse(count: nat): seq<Byte>
    requires 0 < count < U32_LIMIT
  {
    Be32(count - 1) + Be32(BLOCK_LEN)
  }

  /** An answer with data: cut to what the host asked for. */
  function DataAnswer(cbw: Cbw, response: seq<Byte>): Answer {
    if !cbw.directionIn && cbw.transferLen != 0 then Answer(cbw.transferLen, PhaseError, [])
    else
      var count := Min(|response|, cbw.transferLen);
      Answer(cbw.transferLen - count, Passed, response[..count])
  }

  function ServeRead(d: Disk, cbw: Cbw, lba: nat, blocks: nat): (Disk, Answer) {
    if !cbw.directionIn || cbw.transferLen != blocks * BLOCK_LEN then (d, Answer(cbw.transferLen, PhaseError, []))
    else if blocks == 0 then (d, Answer(0, Passed, []))
    else if lba + blocks > d.Count() then (d.(sense := INVALID_FIELD), Answer(cbw.transferLen, Failed, []))
    else (d, Answer(0, Passed, BlockBytes(d.blocks[lba..lba + blocks])))
  }

  function ServeWrite(d: Disk, cbw: Cbw, lba: nat, blocks: nat, payload: seq<Byte>): (Disk, Answer)
    requires |payload| >= cbw.transferLen
  {
    if cbw.directionIn || cbw.transferLen != blocks * BLOCK_LEN then (d, Answer(cbw.transferLen, PhaseError, []))
    else if blocks == 0 then (d, Answer(0, Passed, []))
    else if lba + blocks > d.Count() then (d.(sense := INVALID_FIELD), Answer(cbw.transferLen, Failed, []))
    else (d.(blocks := Splice(d.blocks, lba, HostBlocks(payload, 0, 0, blocks))), Answer(0, Passed, []))
  }

  function Serve(d: Disk, cbw: Cbw, payload: seq<Byte>): (Disk, Answer)
    requires |payload| >= cbw.transferLen && |d.blocks| < U32_LIMIT
  {
    match cbw.command
    case TestUnitReady =>
      if cbw.transferLen != 0 then (d, Answer(cbw.transferLen, PhaseError, []))
      else if d.Count() != 0 then (d, Answer(0, Passed, []))
      else (d.(sense := NOT_READY), Answer(0, Failed, []))
    case RequestSense =>
      var a := DataAnswer(cbw, SenseResponse(d.sense));
      (if a.status == Passed then d.(sense := NO_SENSE) else d, a)
    case StartStop(loadEject, start) =>
      if cbw.transferLen != 0 then (d, Answer(cbw.transferLen, PhaseError, []))
      else (if loadEject then d.(ejected := !start) else d, Answer(0, Passed, []))
    case ReadCapacity =>
      if d.Count() == 0 then (d.(sense := NOT_READY), Answer(cbw.transferLen, Failed, []))
      else (d, DataAnswer(cbw, CapacityResponse(d.Count())))
    case Read10(lba, blocks) => ServeRead(d, cbw, lba, blocks)
    case Write10(lba, blocks) => ServeWrite(d, cbw, lba, blocks, payload)
    case Fixed(response) => (d, DataAnswer(cbw, response))
    case NoData =>
      if cbw.transferLen == 0 then (d, Answer(0, Passed, []))
      else (d.(sense := INVALID_FIELD), Answer(cbw.transferLen, PhaseError, []))
    case Unsupported => (d.(sense := INVALID_COMMAND), Answer(cbw.transferLen, Failed, []))
  }

  /** What happens to the interface: the firmware owns the card only while it is not attached. */
  datatype Event = Attach | Detach | Rewrite(blocks: seq<Block>) | Command(cbw: Cbw, payload: seq<Byte>)

  /** A host sends as much data as its command block announces. */
  predicate HostObeys(e: Event) {
    match e
    case Command(cbw, payload) => WellFormed(cbw) && |payload| >= cbw.transferLen
    case Rewrite(blocks) => |blocks| < U32_LIMIT
    case _ => true
  }

  predicate AllObey(events: seq<Event>) { forall i :: 0 <= i < |events| ==> HostObeys(events[i]) }

  lemma ObeyPrefix(events: seq<Event>, i: nat)
    requires AllObey(events) && i <= |events|
    ensures AllObey(events[..i]) && (i < |events| ==> HostObeys(events[i]))
  {
  }

  function Play(d: Disk, e: Event): (r: (Disk, seq<Answer>))
    requires HostObeys(e) && |d.blocks| < U32_LIMIT
    ensures |r.0.blocks| < U32_LIMIT
  {
    match e
    case Attach => (Disk(d.blocks, true, false, NO_SENSE), [])
    case Detach => (d.(attached := false, ejected := false), [])
    case Rewrite(blocks) => (if d.attached then d else d.(blocks := blocks), [])
    case Command(cbw, payload) => var (next, answer) := Serve(d, cbw, payload); (next, [answer])
  }

  function PlayAll(d: Disk, events: seq<Event>): (r: (Disk, seq<Answer>))
    requires |d.blocks| < U32_LIMIT && AllObey(events)
    ensures |r.0.blocks| < U32_LIMIT
  {
    if events == [] then (d, [])
    else
      var (d1, answers) := PlayAll(d, events[..|events| - 1]);
      var (d2, last) := Play(d1, events[|events| - 1]);
      (d2, answers + last)
  }

  // ---------------------------------------------------------------------
  // What happens with hardware failures
  // ---------------------------------------------------------------------

  /** The card before and after an event, the answers, and what a write committed and may have torn. */
  datatype Happened = Happened(before: seq<Block>, after: seq<Block>, answers: seq<Answer>, committed: nat, torn: nat)

  /** Blocks of failed writes, not written since; an attach starts anew. */
  function DoubtfulAfter(e: Event, h: Happened, doubtful: set<nat>): set<nat> {
    match e
    case Attach => {}
    case Command(cbw, _) =>
      if cbw.command.Write10?
      then doubtful - Lbas(cbw.command.lba, h.committed) + Lbas(cbw.command.lba + h.committed, h.torn) else doubtful
    case _ => doubtful
  }

  function Doubtful(events: seq<Event>, history: seq<Happened>): set<nat>
    requires |history| == |events|
  {
    if events == [] then {}
    else
      var n := |events| - 1;
      DoubtfulAfter(events[n], history[n], Doubtful(events[..n], history[..n]))
  }

  lemma DoubtfulStep(events: seq<Event>, history: seq<Happened>, e: Event, h: Happened)
    requires |history| == |events|
    ensures Doubtful(events + [e], history + [h]) == DoubtfulAfter(e, h, Doubtful(events, history))
  {
    assert (events + [e])[..|events|] == events && (history + [h])[..|events|] == history;
  }

  /** A read that passes returns the card's blocks but for doubtful ones; only writes, and rewrites in between, change the card. */
  ghost predicate HappenedOk(e: Event, h: Happened, doubtful: set<nat>) {
    match e
    case Rewrite(blocks) => h.answers == [] && (h.after == h.before || h.after == blocks)
    case Command(cbw, payload) =>
      && |h.answers| == 1
      && (match cbw.command
          case Read10(lba, blocks) =>
            h.after == h.before && (h.answers[0].status == Passed ==> ReadsCard(h.answers[0].sent, h.before, lba, blocks, doubtful))
          case Write10(lba, blocks) =>
            && h.committed + h.torn <= blocks && h.torn <= LINE_BLOCKS && (h.answers[0].status == Passed ==> h.committed == blocks && h.torn == 0)
            && WriteEffect(h.before, h.after, lba, payload, 0, h.committed, h.torn)
          case _ => h.after == h.before)
    case _ => h.answers == [] && h.after == h.before
  }

  /** So it was at every event, with the blocks doubtful then. */
  ghost predicate AllHappenedOk(events: seq<Event>, history: seq<Happened>) {
    |history| == |events| && forall i :: 0 <= i < |events| ==> HappenedOk(events[i], history[i], Doubtful(events[..i], history[..i]))
  }

  /** All that is said of the events so far. */
  ghost predicate Told(first: seq<Block>, events: seq<Event>, history: seq<Happened>, last: seq<Block>, doubtful: set<nat>) {
    |history| == |events| && Chained(first, history, last) && AllHappenedOk(events, history) && doubtful == Doubtful(events, history)
  }

  lemma ToldStep(first: seq<Block>, events: seq<Event>, history: seq<Happened>, e: Event, h: Happened, doubtful: set<nat>)
    requires Told(first, events, history, h.before, doubtful) && HappenedOk(e, h, doubtful)
    ensures Told(first, events + [e], history + [h], h.after, DoubtfulAfter(e, h, doubtful))
  {
    hide HappenedOk, Chained, Doubtful, AllHappenedOk;
    DoubtfulStep(events, history, e, h);
    ChainStep(first, history, h);
    HistoryStep(events, history, e, h);
  }

  lemma NothingYet(d: Disk)
    requires |d.blocks| < U32_LIMIT
    ensures Told(d.blocks, [], [], d.blocks, {}) && Shown(d, [], d, [])
  {
  }

  /** The host has been shown the disk without a cache. */
  predicate Shown(first: Disk, events: seq<Event>, d: Disk, answers: seq<Answer>) {
    |first.blocks| < U32_LIMIT && AllObey(events) && PlayAll(first, events) == (d, answers)
  }

  lemma ShownStep(first: Disk, events: seq<Event>, d: Disk, answers: seq<Answer>, e: Event)
    requires Shown(first, events, d, answers) && HostObeys(e)
    ensures |d.blocks| < U32_LIMIT && var (d2, last) := Play(d, e); Shown(first, events + [e], d2, answers + last)
  {
    hide Play;
    assert (events + [e])[..|events|] == events;
  }

  lemma HistoryStep(events: seq<Event>, history: seq<Happened>, e: Event, h: Happened)
    requires AllHappenedOk(events, history) && HappenedOk(e, h, Doubtful(events, history))
    ensures AllHappenedOk(events + [e], history + [h])
  {
    hide HappenedOk, Doubtful;
    var more, now := events + [e], history + [h];
    forall i | 0 <= i < |more| ensures HappenedOk(more[i], now[i], Doubtful(more[..i], now[..i])) {
      if i < |events| {
        assert more[i] == events[i] && now[i] == history[i] && more[..i] == events[..i] && now[..i] == history[..i];
      } else {
        assert more[..i] == events && now[..i] == history;
      }
    }
  }

  /** What one event leaves on the card the next one finds. */
  predicate Chained(first: seq<Block>, history: seq<Happened>, last: seq<Block>) {
    if history == [] then last == first
    else history[|history| - 1].after == last && Chained(first, history[..|history| - 1], history[|history| - 1].before)
  }

  lemma ChainStep(first: seq<Block>, history: seq<Happened>, h: Happened)
    requires Chained(first, history, h.before)
    ensures Chained(first, history + [h], h.after)
  {
    assert (history + [h])[..|history|] == history;
  }

  // ---------------------------------------------------------------------
  // The class: cache and command handlers
  // ---------------------------------------------------------------------

  ghost predicate Sized(lines: seq<Line>) {
    |lines| == CACHE_LINES + 1 && forall i :: 0 <= i < |lines| ==> |lines[i].data| == LINE_BLOCKS && lines[i].len <= LINE_BLOCKS
  }

  class MscClass {
    const lines: array<Line>
    var clock: nat
    var cacheGeneration: nat
    const shared: SharedState
    const output: EndpointIn
    const input: EndpointOut
    /** The number of attaches when the cache was last emptied. */
    ghost var cacheAttach: nat
    /** The 32-bit generation came round to an old value between two commands. */
    ghost var wrapped: bool
    /** Blocks of failed writes in this session, not written since. */
    ghost var tainted: set<nat>

    ghost predicate Trusted()
      reads this, shared
    {
      !wrapped && shared.attached && cacheAttach == shared.attaches
    }

    ghost predicate Valid()
      reads this, lines, shared, shared.card, input
    {
      && lines.Length == CACHE_LINES + 1 && Sized(lines[..])
      && shared.Valid() && input.received <= |input.stream|
      && cacheGeneration == cacheAttach % U32_LIMIT && cacheAttach <= shared.attaches
      && (Trusted() ==> Coherent(lines[..], shared.card.blocks, shared.blocks, tainted))
    }

    /** What the two LRU lines hold. */
    ghost function LruHeld(): (Line, Line)
      requires lines.Length == CACHE_LINES + 1
      reads this, lines
    {
      (Held(lines[0]), Held(lines[1]))
    }

    constructor (shared: SharedState, output: EndpointIn, input: EndpointOut)
      requires shared.Valid() && shared.attaches == 0 && input.received <= |input.stream|
      ensures Valid() && fresh(lines) && !wrapped
      ensures this.shared == shared && this.output == output && this.input == input
    {
      this.shared, this.output, this.input := shared, output, input;
      clock, cacheGeneration, cacheAttach, wrapped, tainted := 0, 0, 0, false, {};
      var zero: Block := Zeros(BLOCK_LEN);
      var empty := Line(false, 0, 0, 0, seq(LINE_BLOCKS, _ => zero));
      lines := new Line[CACHE_LINES + 1](_ => empty);
      new;
      EmptyIsCoherent(lines[..], shared.card.blocks, shared.blocks, tainted);
    }

    /** The line that holds `lba`, marked used; the number of lines if none does. */
    method Find(lba: nat) returns (index: nat)
      requires Valid()
      modifies lines, this`clock
      ensures Valid() && index <= lines.Length
      ensures index < lines.Length ==> lines[index].Contains(lba)
      ensures index == lines.Length ==> forall k :: 0 <= k < lines.Length ==> !lines[k].Contains(lba)
      ensures index < lines.Length ==> clock == (old(clock) + 1) % U32_LIMIT && lines[..] == old(lines[..])[index := old(lines[..])[index].(lastUsed := clock)]
      ensures index == lines.Length ==> clock == old(clock) && lines[..] == old(lines[..])
      ensures LruHeld() == old(LruHeld())
    {
      index := 0;
      while index < lines.Length && !lines[index].Contains(lba)
        invariant index <= lines.Length && lines[..] == old(lines[..])
        invariant forall k :: 0 <= k < index ==> !lines[k].Contains(lba)
      {
        index := index + 1;
      }
      if index < lines.Length {
        clock := (clock + 1) % U32_LIMIT;
        var touched := lines[index].(lastUsed := clock);
        if Trusted() { TouchCoherent(lines[..], shared.card.blocks, shared.blocks, tainted, index, touched); }
        ghost var before := lines[..];
        lines[index] := touched;
        assert lines[..] == before[index := touched];
      }
    }

    /** The stream line for large transfers, else an empty or the least recently used LRU line. */
    method Victim(streaming: bool) returns (index: nat)
      requires Valid()
      ensures index < lines.Length && (streaming <==> index == STREAM_LINE)
      ensures !streaming && lines[index].valid ==>
                forall k :: 0 <= k < CACHE_LINES ==> lines[k].valid && lines[k].lastUsed >= lines[index].lastUsed
    {
      if streaming { return STREAM_LINE; }
      index := 0;
      var candidate := 0;
      while candidate < CACHE_LINES
        invariant candidate <= CACHE_LINES && index < CACHE_LINES
        invariant forall k :: 0 <= k < candidate ==> lines[k].valid && lines[k].lastUsed >= lines[index].lastUsed
      {
        if !lines[candidate].valid { return candidate; }
        if lines[candidate].lastUsed < lines[index].lastUsed { index := candidate; }
        candidate := candidate + 1;
      }
    }

    method SetLine(index: nat, l: Line)
      requires Valid() && index < lines.Length && |l.data| == LINE_BLOCKS && l.len <= LINE_BLOCKS
      requires Trusted() ==> Coherent(lines[..][index := l], shared.card.blocks, shared.blocks, tainted)
      modifies lines
      ensures Valid() && lines[..] == old(lines[..])[index := l]
    {
      ghost var before := lines[..];
      lines[index] := l;
      assert lines[..] == before[index := l];
    }

    /** Read the aligned run around `lba` from the card into a victim line. */
    method Fill(lba: nat, streaming: bool) returns (ok: bool, index: nat)
      requires Valid() && lba < shared.BlockCount()
      requires forall k :: 0 <= k < lines.Length ==> !lines[k].Contains(lba)
      modifies lines, this`clock, shared.card`faults
      ensures Valid()
      ensures ok ==> index < lines.Length && lines[index].Contains(lba) && shared.card.faults == old(shared.card.faults)
      ensures ok ==> clock == (old(clock) + 1) % U32_LIMIT && lines[index].lastUsed == clock
      ensures !ok ==> shared.card.faults > old(shared.card.faults)
      ensures streaming ==> LruHeld() == old(LruHeld())
    {
      index := Victim(streaming);
      var start := lba - lba % LINE_BLOCKS;
      var len := Min(LINE_BLOCKS, shared.BlockCount() - start);
      var line := lines[index].(valid := false);
      if Trusted() { TouchCoherent(lines[..], shared.card.blocks, shared.blocks, tainted, index, line); }
      SetLine(index, line);
      var data;
      ok, data := shared.card.Read(start, len);
      if !ok { return; }
      clock := (clock + 1) % U32_LIMIT;
      var filled := Line(true, start, len, clock, data + line.data[len..]);
      assert filled.data[..len] == data;
      if Trusted() { FillCoherent(lines[..], shared.card.blocks, shared.blocks, tainted, index, filled, lba); }
      SetLine(index, filled);
    }

    /** Send blocks `first..last` of a line to the host. */
    method SendRun(index: nat, first: nat, last: nat, residue: nat) returns (ok: bool, left: nat)
      requires Valid() && index < lines.Length && first <= last <= lines[index].len
      requires (last - first) * BLOCK_LEN <= residue
      modifies output
      ensures ok ==> left == residue - (last - first) * BLOCK_LEN && output.faults == old(output.faults)
      ensures ok ==> Payload(output.packets) == Payload(old(output.packets)) + BlockBytes(lines[index].data[first..last])
      ensures !ok ==> output.faults > old(output.faults) && left <= residue
    {
      hide Payload, BlockBytes, Coherent, LineGood, SharedState.Valid, PacketRun;
      left := residue;
      var k := first;
      ghost var before := Payload(output.packets);
      var data := lines[index].data;
      while k < last
        invariant first <= k <= last && left == residue - (k - first) * BLOCK_LEN && output.faults == old(output.faults)
        invariant Payload(output.packets) == before + BlockBytes(data[first..k])
      {
        assert data[first..k + 1] == data[first..k] + [data[k]];
        BlockBytesAppend(data[first..k], data[k]);
        ghost var packets := output.packets;
        ok := output.WritePackets(data[k]);
        if !ok { return; }
        PacketRunPayload(packets, output.packets, data[k]);
        left := left - BLOCK_LEN;
        k := k + 1;
      }
      ok := true;
    }

    lemma AddressedIsOnCard()
      requires Valid()
      ensures shared.BlockCount() <= |shared.card.blocks|
    {
    }

    method SetSense(sense: Sense)
      requires Valid()
      modifies shared`sense
      ensures Valid() && shared.sense == sense
    {
      shared.sense := sense;
    }

    /** One round of READ(10): the cached run that holds `current`, loaded first if need be. */
    method ReadRound(current: nat, end: nat, streaming: bool, residue: nat)
      returns (round: Round, ghost run: seq<Block>)
      requires Valid() && current < end <= shared.BlockCount() && residue == (end - current) * BLOCK_LEN
      modifies lines, this`clock, shared.card`faults, output
      ensures shared.card.faults >= old(shared.card.faults) && output.faults >= old(output.faults)
      ensures Valid()
      ensures round.Sent? ==>
                && current < round.next <= end && round.left == (end - round.next) * BLOCK_LEN
                && |run| == round.next - current
                && Payload(output.packets) == Payload(old(output.packets)) + BlockBytes(run)
                && (Trusted() ==> FromCard(run, shared.card.blocks, current, tainted))
                && output.faults == old(output.faults) && shared.card.faults == old(shared.card.faults)
      ensures round.MediumError? ==> output.packets == old(output.packets) && shared.card.faults > old(shared.card.faults)
      ensures round.EndpointError? ==> output.faults > old(output.faults) && shared.card.faults == old(shared.card.faults)
      ensures streaming ==> LruHeld() == old(LruHeld())
    {
      hide Payload, BlockBytes, LineGood, FromCard;
      run := [];
      var index := Find(current);
      if index == lines.Length {
        var ok;
        ok, index := Fill(current, streaming);
        if !ok { return MediumError, run; }
      }
      var line := lines[index];
      var first := current - line.start;
      var last := Min(end - line.start, line.len);
      run := line.data[first..last];
      if Trusted() { FromLine(shared.card.blocks, tainted, line, shared.blocks, first, last); }
      var ok, left := SendRun(index, first, last, residue);
      round := if ok then Sent(line.start + last, left) else EndpointError(left);
    }

    /** READ(10): through the LRU lines if small, through the stream line if large. */
    method ReadBlocks(cbw: Cbw) returns (residue: nat, status: Status, ghost sent: seq<Block>)
      requires Valid() && WellFormed(cbw) && cbw.command.Read10?
      modifies lines, this`clock, shared`sense, shared.card`faults, output
      ensures shared.card.faults >= old(shared.card.faults) && output.faults >= old(output.faults)
      ensures status == Passed ==> shared.sense == old(shared.sense)
      ensures status == PhaseError && output.faults == old(output.faults) ==> shared.sense == old(shared.sense)
      ensures status == Failed ==> cbw.command.blocks > 0
      ensures Valid()
      ensures !cbw.directionIn || cbw.transferLen != cbw.command.blocks * BLOCK_LEN ==>
                status == PhaseError && residue == cbw.transferLen && output.packets == old(output.packets)
      ensures status == PhaseError && cbw.directionIn && cbw.transferLen == cbw.command.blocks * BLOCK_LEN ==>
                output.faults > old(output.faults)
      ensures status == Passed ==> |sent| == cbw.command.blocks
      ensures status != PhaseError ==>
                Payload(output.packets) == Payload(old(output.packets)) + BlockBytes(sent) &&
                |sent| * BLOCK_LEN + residue == cbw.transferLen
      ensures status == Failed && shared.card.faults == old(shared.card.faults) ==>
                cbw.command.lba + cbw.command.blocks > shared.BlockCount() && sent == [] && shared.sense == INVALID_FIELD
      ensures status == Passed && sent != [] ==> cbw.command.lba + cbw.command.blocks <= shared.BlockCount()
      ensures Trusted() && sent != [] ==> FromCard(sent, shared.card.blocks, cbw.command.lba, tainted)
      ensures cbw.command.blocks > LINE_BLOCKS ==> LruHeld() == old(LruHeld())
    {
      var lba, blocks := cbw.command.lba, cbw.command.blocks;
      sent := [];
      if !cbw.directionIn || cbw.transferLen != blocks * BLOCK_LEN { return cbw.transferLen, PhaseError, sent; }
      if blocks == 0 { return 0, Passed, sent; }
      if lba + blocks > shared.BlockCount() {
        SetSense(INVALID_FIELD);
        return cbw.transferLen, Failed, sent;
      }
      residue, status, sent := ReadRounds(lba, blocks);
    }

    /** The loop of READ(10) on a range the card holds. */
    method ReadRounds(lba: nat, blocks: nat) returns (residue: nat, status: Status, ghost sent: seq<Block>)
      requires Valid() && 0 < blocks && lba + blocks <= shared.BlockCount()
      modifies lines, this`clock, shared`sense, shared.card`faults, output
      ensures shared.card.faults >= old(shared.card.faults) && output.faults >= old(output.faults)
      ensures status == Passed ==> shared.sense == old(shared.sense)
      ensures Valid()
      ensures status == PhaseError ==> output.faults > old(output.faults)
      ensures status == Failed ==> shared.card.faults > old(shared.card.faults)
      ensures status == Passed ==> |sent| == blocks
      ensures status != PhaseError ==>
                Payload(output.packets) == Payload(old(output.packets)) + BlockBytes(sent) &&
                |sent| * BLOCK_LEN + residue == blocks * BLOCK_LEN
      ensures Trusted() ==> FromCard(sent, shared.card.blocks, lba, tainted)
      ensures blocks > LINE_BLOCKS ==> LruHeld() == old(LruHeld())
    {
      hide Payload, BlockBytes, Coherent, FromCard, LineGood, Sized, Held, SharedState.Valid, LruHeld;
      sent := [];
      AddressedIsOnCard();
      FromCardNone(shared.card.blocks, lba, tainted);
      var end := lba + blocks;
      var current := lba;
      residue := blocks * BLOCK_LEN;
      while current < end
        invariant lba <= current <= end && residue == (end - current) * BLOCK_LEN && |sent| == current - lba
        invariant Valid() && end <= shared.BlockCount() && shared.sense == old(shared.sense)
        invariant output.faults == old(output.faults) && shared.card.faults == old(shared.card.faults)
        invariant Payload(output.packets) == Payload(old(output.packets)) + BlockBytes(sent)
        invariant Trusted() ==> FromCard(sent, shared.card.blocks, lba, tainted)
        invariant blocks > LINE_BLOCKS ==> LruHeld() == old(LruHeld())
      {
        var round, run := ReadRound(current, end, blocks > LINE_BLOCKS, residue);
        if round.MediumError? {
          SetSense(UNRECOVERED_READ);
          return residue, Failed, sent;
        }
        if round.EndpointError? { return round.left, PhaseError, sent; }
        BlockBytesConcat(sent, run);
        if Trusted() { FromCardConcat(sent, run, shared.card.blocks, lba, tainted); }
        residue := round.left;
        sent := sent + run;
        current := round.next;
      }
      return residue, Passed, sent;
    }

    /** Collect `count` blocks from the host in the stream line, which holds nothing meanwhile. */
    method Stage(count: nat) returns (ok: bool)
      requires Valid() && count <= LINE_BLOCKS
      modifies lines, input`received, input`faults
      ensures Valid() && !lines[STREAM_LINE].valid && LruHeld() == old(LruHeld())
      ensures ok ==>
                && input.received == old(input.received) + count * BLOCK_LEN && input.faults == old(input.faults)
                && lines[STREAM_LINE].data[..count] == HostBlocks(input.stream, old(input.received), 0, count)
      ensures !ok && old(input.received) + count * BLOCK_LEN <= |input.stream| ==> input.faults > old(input.faults)
      ensures input.faults >= old(input.faults)
    {
      var empty := lines[STREAM_LINE].(valid := false);
      if Trusted() { TouchCoherent(lines[..], shared.card.blocks, shared.blocks, tainted, STREAM_LINE, empty); }
      SetLine(STREAM_LINE, empty);
      var k := 0;
      while k < count
        invariant k <= count && Valid() && !lines[STREAM_LINE].valid && LruHeld() == old(LruHeld())
        invariant input.received == old(input.received) + k * BLOCK_LEN && input.faults == old(input.faults)
        invariant forall i :: 0 <= i < k ==> lines[STREAM_LINE].data[i] == HostBlock(input.stream, old(input.received), i)
      {
        var data;
        ok, data := input.ReadPackets(BLOCK_LEN);
        if !ok { return; }
        var block: Block := data;
        var line := lines[STREAM_LINE];
        line := line.(data := line.data[k := block]);
        if Trusted() { TouchCoherent(lines[..], shared.card.blocks, shared.blocks, tainted, STREAM_LINE, line); }
        SetLine(STREAM_LINE, line);
        k := k + 1;
      }
      ok := true;
    }

    /** `update_from_stream` for one line: copy each written block the line holds. */
    method RefreshLine(index: nat, lba: nat, written: seq<Block>)
      requires lines.Length == CACHE_LINES + 1 && index < CACHE_LINES && Sized(lines[..])
      modifies lines
      ensures lines[..] == old(lines[..])[index := Refreshed(old(lines[index]), lba, written)]
    {
      ghost var l := lines[index];
      RefreshedNone(l, lba);
      var offset := 0;
      while offset < |written|
        invariant offset <= |written|
        invariant lines[..] == old(lines[..])[index := Refreshed(l, lba, written[..offset])]
      {
        assert written[..offset + 1] == written[..offset] + [written[offset]];
        RefreshedStep(l, lba, written[..offset], written[offset]);
        var target := lba + offset;
        var line := lines[index];
        if line.Contains(target) {
          lines[index] := line.(data := line.data[target - line.start := written[offset]]);
        }
        offset := offset + 1;
      }
      assert written[..offset] == written;
    }

    /** One round of WRITE(10): stage up to a line from the host, then one card command. */
    method WriteRound(current: nat, end: nat) returns (round: WriteRoundEnd, count: nat)
      requires Valid() && current < end <= shared.BlockCount()
      modifies lines, this`tainted, shared.card, input`received, input`faults
      ensures shared.card.faults >= old(shared.card.faults) && input.faults >= old(input.faults)
      ensures Valid() && count == Min(end - current, LINE_BLOCKS)
      ensures |shared.card.blocks| == |old(shared.card.blocks)|
      ensures round != HostError ==>
                && input.received == old(input.received) + count * BLOCK_LEN && input.faults == old(input.faults)
                && CardAfterWrite(old(shared.card.blocks), shared.card.blocks, current,
                                  HostBlocks(input.stream, old(input.received), 0, count),
                                  if round.Committed? then count else 0, if round.Committed? then 0 else count)
      ensures round.Committed? ==>
                shared.card.faults == old(shared.card.faults) && tainted == old(tainted) - Lbas(current, count)
      ensures round.CardError? ==>
                shared.card.faults > old(shared.card.faults) && tainted == old(tainted) + Lbas(current, count)
      ensures round.CardError? && Trusted() ==>
                forall b :: 0 <= b < |shared.card.blocks| && b !in old(tainted) ==>
                  (Outdated(lines[..], shared.card.blocks, b) <==> Cached(lines[..], b) && shared.card.blocks[b] != old(shared.card.blocks)[b])
      ensures round.CardError? ==> !lines[STREAM_LINE].valid && LruHeld() == old(LruHeld())
      ensures round.HostError? ==>
                && shared.card.blocks == old(shared.card.blocks) && shared.card.faults == old(shared.card.faults)
                && tainted == old(tainted)
                && (old(input.received) + count * BLOCK_LEN <= |input.stream| ==> input.faults > old(input.faults))
    {
      hide Coherent, LineGood, HostBlocks, HostBlock, CardAfterWrite, Refreshed, Splice, Outdated, Cached;
      AddressedIsOnCard();
      count := Min(end - current, LINE_BLOCKS);
      var ok := Stage(count);
      if !ok { return HostError, count; }
      var written := lines[STREAM_LINE].data[..count];
      ghost var before, staged := shared.card.blocks, lines[..];
      ok := shared.card.Write(current, written);
      WriteCommand(before, shared.card.blocks, current, written, ok);
      if !ok {
        if Trusted() {
          AllOutdated(lines[..], before, shared.card.blocks, shared.blocks, tainted);
          TaintedCoherent(lines[..], before, shared.card.blocks, shared.blocks, tainted, current, count);
        }
        tainted := tainted + Lbas(current, count);
        return CardError, count;
      }
      RefreshLine(0, current, written);
      RefreshLine(1, current, written);
      if Trusted() { WrittenCoherent(staged, lines[..], before, shared.blocks, tainted, current, written); }
      tainted := tainted - Lbas(current, count);
      round := Committed;
    }

    /** WRITE(10): every chunk is on the card before the next one is taken. `committed` blocks are known to be. */
    method WriteBlocks(cbw: Cbw) returns (residue: nat, status: Status, ghost committed: nat, ghost torn: nat)
      requires Valid() && WellFormed(cbw) && cbw.command.Write10?
      modifies lines, this`tainted, shared`sense, shared.card, input`received, input`faults
      ensures input.faults >= old(input.faults)
      ensures status == Passed ==> shared.sense == old(shared.sense)
      ensures cbw.directionIn || cbw.transferLen != cbw.command.blocks * BLOCK_LEN ==> shared.sense == old(shared.sense)
      ensures status == Failed ==> cbw.command.blocks > 0
      ensures Valid() && |shared.card.blocks| == |old(shared.card.blocks)| && shared.card.faults >= old(shared.card.faults)
      ensures cbw.directionIn || cbw.transferLen != cbw.command.blocks * BLOCK_LEN ==>
                status == PhaseError && residue == cbw.transferLen && shared.card.blocks == old(shared.card.blocks) &&
                input.received == old(input.received) && tainted == old(tainted)
      ensures status == PhaseError && !cbw.directionIn && cbw.transferLen == cbw.command.blocks * BLOCK_LEN ==>
                input.faults > old(input.faults) || old(input.received) + cbw.transferLen > |input.stream|
      ensures status != PhaseError ==>
                input.received == old(input.received) + cbw.transferLen && input.faults == old(input.faults) &&
                committed * BLOCK_LEN + residue == cbw.transferLen
      ensures status == Passed ==> committed == cbw.command.blocks && torn == 0
      ensures status != PhaseError && cbw.command.lba + cbw.command.blocks <= shared.BlockCount() ==>
                CardAfterWrite(old(shared.card.blocks), shared.card.blocks, cbw.command.lba,
                               HostBlocks(input.stream, old(input.received), 0, cbw.command.blocks), committed, torn) &&
                torn <= LINE_BLOCKS &&
                tainted == old(tainted) - Lbas(cbw.command.lba, committed) + Lbas(cbw.command.lba + committed, torn)
      ensures status != PhaseError && cbw.command.blocks > 0 && cbw.command.lba + cbw.command.blocks > shared.BlockCount() ==>
                status == Failed && shared.sense == INVALID_FIELD && committed == 0 &&
                shared.card.blocks == old(shared.card.blocks) && tainted == old(tainted)
      ensures status == Failed && shared.card.faults == old(shared.card.faults) ==>
                cbw.command.lba + cbw.command.blocks > shared.BlockCount()
      ensures status == Passed && cbw.command.blocks == 0 ==>
                shared.card.blocks == old(shared.card.blocks) && tainted == old(tainted)
      ensures committed + torn <= cbw.command.blocks && torn <= LINE_BLOCKS
      ensures WriteEffect(old(shared.card.blocks), shared.card.blocks, cbw.command.lba, input.stream, old(input.received), committed, torn)
      ensures tainted == old(tainted) - Lbas(cbw.command.lba, committed) + Lbas(cbw.command.lba + committed, torn)
    {
      var lba, blocks := cbw.command.lba, cbw.command.blocks;
      assert Lbas(lba, 0) == {};
      committed, torn := 0, 0;
      if cbw.directionIn || cbw.transferLen != blocks * BLOCK_LEN { return cbw.transferLen, PhaseError, 0, 0; }
      ghost var before, at := shared.card.blocks, input.received;
      if blocks == 0 {
        if lba <= shared.BlockCount() { WriteNotStarted(before, lba); }
        return 0, Passed, 0, 0;
      }
      if lba + blocks > shared.BlockCount() {
        SetSense(INVALID_FIELD);
        var drained := input.Discard(cbw.transferLen);
        return cbw.transferLen, if drained then Failed else PhaseError, 0, 0;
      }
      hide CardAfterWrite, Coherent, LineGood, HostBlocks, HostBlock, Sized, Held, SharedState.Valid, LruHeld;
      residue, status, committed, torn := WriteRounds(lba, blocks);
    }

    /** What is left of a WRITE(10) after a chunk the card did not take. */
    method DropRest(length: nat) returns (status: Status)
      requires Valid()
      modifies shared`sense, input`received, input`faults
      ensures Valid() && input.faults >= old(input.faults)
      ensures status == Failed || status == PhaseError
      ensures status == Failed ==> input.received == old(input.received) + length && input.faults == old(input.faults)
      ensures status == PhaseError ==> input.faults > old(input.faults) || old(input.received) + length > |input.stream|
    {
      hide Coherent, Sized, SharedState.Valid;
      SetSense(WRITE_ERROR);
      var drained := input.Discard(length);
      status := if drained then Failed else PhaseError;
    }

    /** The loop of WRITE(10) on a range the card holds. */
    method WriteRounds(lba: nat, blocks: nat) returns (residue: nat, status: Status, ghost committed: nat, ghost torn: nat)
      requires Valid() && 0 < blocks && lba + blocks <= shared.BlockCount()
      modifies lines, this`tainted, shared`sense, shared.card, input`received, input`faults
      ensures input.faults >= old(input.faults)
      ensures status == Passed ==> shared.sense == old(shared.sense)
      ensures Valid() && |shared.card.blocks| == |old(shared.card.blocks)| && shared.card.faults >= old(shared.card.faults)
      ensures status == PhaseError ==>
                input.faults > old(input.faults) || old(input.received) + blocks * BLOCK_LEN > |input.stream|
      ensures status != PhaseError ==>
                && input.received == old(input.received) + blocks * BLOCK_LEN && input.faults == old(input.faults)
                && (committed + torn <= blocks && torn <= LINE_BLOCKS && committed * BLOCK_LEN + residue == blocks * BLOCK_LEN)
                && CardAfterWrite(old(shared.card.blocks), shared.card.blocks, lba,
                                  HostBlocks(input.stream, old(input.received), 0, blocks), committed, torn)
                && tainted == old(tainted) - Lbas(lba, committed) + Lbas(lba + committed, torn)
      ensures status == Passed ==> committed == blocks && torn == 0
      ensures status == Failed ==> shared.card.faults > old(shared.card.faults)
      ensures committed + torn <= blocks && torn <= LINE_BLOCKS
      ensures WriteEffect(old(shared.card.blocks), shared.card.blocks, lba, input.stream, old(input.received), committed, torn)
      ensures tainted == old(tainted) - Lbas(lba, committed) + Lbas(lba + committed, torn)
    {
      hide WriteEffect, CardAfterWrite, Coherent, LineGood, HostBlocks, HostBlock, Sized, Held, SharedState.Valid, LruHeld, Lbas;
      ghost var before, at := shared.card.blocks, input.received;
      committed, torn := 0, 0;
      AddressedIsOnCard();
      WriteNotStarted(before, lba);
      HostBlocksNone(input.stream, at);
      var end := lba + blocks;
      var current := lba;
      residue := blocks * BLOCK_LEN;
      while current < end
        invariant lba <= current <= end && residue == (end - current) * BLOCK_LEN && committed == current - lba
        invariant Valid() && end <= shared.BlockCount() && |shared.card.blocks| == |before|
        invariant input.received == at + committed * BLOCK_LEN && input.faults == old(input.faults)
        invariant shared.card.faults == old(shared.card.faults) && shared.sense == old(shared.sense)
        invariant CardAfterWrite(before, shared.card.blocks, lba, HostBlocks(input.stream, at, 0, committed), committed, 0)
        invariant tainted == old(tainted) - Lbas(lba, committed)
      {
        ghost var mid := shared.card.blocks;
        var round, count := WriteRound(current, end);
        if round.HostError? {
          EffectOf(before, shared.card.blocks, lba, input.stream, at, committed, 0);
          return residue, PhaseError, committed, 0;
        }
        if round.CardError? {
          RoundExtends(before, mid, shared.card.blocks, lba, input.stream, at, committed, count, 0, committed + count);
          EffectOf(before, shared.card.blocks, lba, input.stream, at, committed, count);
          status := DropRest(residue - count * BLOCK_LEN);
          if status == Failed {
            RoundExtends(before, mid, shared.card.blocks, lba, input.stream, at, committed, count, 0, blocks);
          }
          return residue, status, committed, count;
        }
        RoundExtends(before, mid, shared.card.blocks, lba, input.stream, at, committed, count, count, committed + count);
        LbasJoin(old(tainted), lba, committed, count);
        residue := residue - count * BLOCK_LEN;
        current := current + count;
        committed := committed + count;
      }
      EffectOf(before, shared.card.blocks, lba, input.stream, at, committed, 0);
      return residue, Passed, committed, 0;
    }

    /** Send an answer, ended by a short or empty packet if it is less than the host asked for. */
    method SendData(cbw: Cbw, data: seq<Byte>) returns (residue: nat, status: Status)
      modifies output
      ensures status == Passed || output.faults == old(output.faults) ==>
                var a := DataAnswer(cbw, data);
                residue == a.residue && status == a.status && Payload(output.packets) == Payload(old(output.packets)) + a.sent
      ensures output.faults >= old(output.faults)
      ensures status == Passed && residue > 0 ==>
                |output.packets| > |old(output.packets)| && |output.packets[|output.packets| - 1]| < BULK_PACKET_SIZE
    {
      hide Payload;
      if !cbw.directionIn && cbw.transferLen != 0 { return cbw.transferLen, PhaseError; }
      var count := Min(|data|, cbw.transferLen);
      var ok := output.WritePackets(data[..count]);
      if !ok { return cbw.transferLen, PhaseError; }
      if count < cbw.transferLen && count % BULK_PACKET_SIZE == 0 {
        PayloadAppend(output.packets, []);
        ok := output.Write([]);
        if !ok { return cbw.transferLen - count, PhaseError; }
      }
      return cbw.transferLen - count, Passed;
    }

    /** Forget what an earlier session cached. */
    method Invalidate()
      requires lines.Length == CACHE_LINES + 1 && Sized(lines[..])
      modifies lines
      ensures Empty(lines[..]) && Sized(lines[..])
    {
      var i := 0;
      while i < lines.Length
        invariant i <= lines.Length && Sized(lines[..])
        invariant forall k :: 0 <= k < i ==> !lines[k].valid
      {
        lines[i] := lines[i].(valid := false);
        i := i + 1;
      }
    }

    /** Blocks of failed writes since the last attach, not written since. */
    ghost function Doubted(): set<nat>
      reads this, shared
    {
      if cacheAttach == shared.attaches then tainted else {}
    }

    /**
     The start of `execute`: a new attach empties the cache. It is missed exactly
     when the 32-bit generation came round between two commands.
     */
    method BeginCommand()
      requires Valid()
      modifies this, lines
      ensures Valid() && cacheGeneration == shared.generation
      ensures wrapped <==> if (shared.attaches - old(cacheAttach)) % U32_LIMIT == 0
                           then old(wrapped) || shared.attaches != old(cacheAttach) else false
      ensures !wrapped ==> cacheAttach == shared.attaches && tainted == old(Doubted())
      ensures tainted == old(tainted) || tainted == {}
    {
      SameGeneration(shared.attaches, cacheAttach);
      if shared.generation != cacheGeneration {
        Invalidate();
        cacheGeneration := shared.generation;
        cacheAttach, wrapped, tainted := shared.attaches, false, {};
        EmptyIsCoherent(lines[..], shared.card.blocks, shared.blocks, tainted);
      } else if shared.attaches != cacheAttach {
        wrapped := true;
      }
    }

    ghost function DiskView(): Disk
      reads shared, shared.card
    {
      Disk(shared.card.blocks, shared.attached, shared.ejected, shared.sense)
    }

    /** Hardware failures so far. */
    ghost function Faults(): nat
      reads shared, shared.card, output, input
    {
      shared.card.faults + output.faults + input.faults
    }

    /** No failed write and no failed size query in this session. */
    ghost predicate Clean()
      reads this, shared, shared.card
    {
      tainted == {} && (shared.attached ==> shared.blocks == |shared.card.blocks|)
    }

    /** READ(10) without hardware failures answers with the card's current blocks. */
    method ExecuteRead(cbw: Cbw) returns (residue: nat, status: Status, ghost sent: seq<Byte>)
      requires Valid() && WellFormed(cbw) && cbw.command.Read10?
      modifies lines, this`clock, shared`sense, shared.card`faults, output
      ensures Valid() && (old(Clean()) ==> Clean()) && Faults() >= old(Faults())
      ensures old(Clean()) && Faults() == old(Faults()) && (shared.attached ==> Trusted()) ==>
                && Payload(output.packets) == Payload(old(output.packets)) + sent
                && (DiskView(), Answer(residue, status, sent)) ==
                   ServeRead(old(DiskView()), cbw, cbw.command.lba, cbw.command.blocks)
      ensures status == Passed && (shared.attached ==> Trusted()) ==>
                && Payload(output.packets) == Payload(old(output.packets)) + sent
                && ReadsCard(sent, shared.card.blocks, cbw.command.lba, cbw.command.blocks, tainted)
    {
      ghost var blocks;
      residue, status, blocks := ReadBlocks(cbw);
      sent := if status == PhaseError then [] else BlockBytes(blocks);
      if blocks != [] && Trusted() && Clean() { FromCardExact(blocks, shared.card.blocks, cbw.command.lba); }
    }

    /** What a WRITE(10) did, however it ended. */
    twostate predicate WriteKept(lba: nat, blocks: nat, status: Status, new committed: nat, new torn: nat)
      reads this, shared, shared.card, input
    {
      && committed + torn <= blocks && torn <= LINE_BLOCKS && (status == Passed ==> committed == blocks && torn == 0)
      && WriteEffect(old(shared.card.blocks), shared.card.blocks, lba, input.stream, old(input.received), committed, torn)
      && tainted == old(tainted) - Lbas(lba, committed) + Lbas(lba + committed, torn)
    }

    /** WRITE(10) without hardware failures stores exactly the host's blocks. */
    method ExecuteWrite(cbw: Cbw) returns (residue: nat, status: Status, ghost committed: nat, ghost torn: nat)
      requires Valid() && WellFormed(cbw) && cbw.command.Write10?
      requires |input.stream| - input.received >= cbw.transferLen
      modifies lines, this`tainted, shared`sense, shared.card, input`received, input`faults
      ensures Valid() && Faults() >= old(Faults())
      ensures old(Clean()) && Faults() == old(Faults()) ==>
                && Clean()
                && (DiskView(), Answer(residue, status, [])) ==
                   ServeWrite(old(DiskView()), cbw, cbw.command.lba, cbw.command.blocks, old(input.stream[input.received..]))
      ensures WriteKept(cbw.command.lba, cbw.command.blocks, status, committed, torn)
    {
      residue, status, committed, torn := WriteBlocks(cbw);
      ghost var lba, n := cbw.command.lba, cbw.command.blocks;
      if Faults() == old(Faults()) && status == Passed && n > 0 {
        assert Lbas(lba + n, 0) == {};
        WriteComplete(old(shared.card.blocks), shared.card.blocks, lba, HostBlocks(input.stream, old(input.received), 0, n));
        HostBlocksShift(input.stream, old(input.received), n);
      }
    }

    /** The commands that answer with data but read no block. */
    method ExecuteData(cbw: Cbw) returns (residue: nat, status: Status, ghost sent: seq<Byte>)
      requires Valid() && (cbw.command.RequestSense? || cbw.command.ReadCapacity? || cbw.command.Fixed?)
      modifies shared`sense, output
      ensures Valid() && output.faults >= old(output.faults)
      ensures old(Clean()) && output.faults == old(output.faults) ==>
                && Payload(output.packets) == Payload(old(output.packets)) + sent
                && (DiskView(), Answer(residue, status, sent)) == Serve(old(DiskView()), cbw, Zeros(cbw.transferLen))
    {
      hide Coherent, Sized, Payload, Zeros;
      sent := [];
      var response := [];
      if cbw.command.RequestSense? {
        response := SenseResponse(shared.sense);
      } else if cbw.command.Fixed? {
        response := cbw.command.response;
      } else {
        if shared.BlockCount() == 0 {
          SetSense(NOT_READY);
          return cbw.transferLen, Failed, [];
        }
        response := CapacityResponse(shared.BlockCount());
      }
      sent := DataAnswer(cbw, response).sent;
      hide SenseResponse, CapacityResponse;
      residue, status := SendData(cbw, response);
      if cbw.command.RequestSense? && status == Passed { SetSense(NO_SENSE); }
    }

    /** The commands without data. */
    method ExecuteControl(cbw: Cbw) returns (residue: nat, status: Status)
      requires Valid() && (cbw.command.TestUnitReady? || cbw.command.StartStop? || cbw.command.NoData? || cbw.command.Unsupported?)
      modifies shared`sense, shared`ejected
      ensures Valid()
      ensures old(Clean()) ==>
                (DiskView(), Answer(residue, status, [])) == Serve(old(DiskView()), cbw, Zeros(cbw.transferLen))
    {
      hide Coherent, Sized, Zeros;
      match cbw.command {
        case TestUnitReady =>
          if cbw.transferLen != 0 { return cbw.transferLen, PhaseError; }
          if shared.BlockCount() != 0 { return 0, Passed; }
          SetSense(NOT_READY);
          return 0, Failed;
        case StartStop(loadEject, start) =>
          if cbw.transferLen != 0 { return cbw.transferLen, PhaseError; }
          if loadEject { shared.ejected := !start; }
          return 0, Passed;
        case NoData =>
          if cbw.transferLen == 0 { return 0, Passed; }
          SetSense(INVALID_FIELD);
          return cbw.transferLen, PhaseError;
        case Unsupported =>
          SetSense(INVALID_COMMAND);
          return cbw.transferLen, Failed;
      }
    }

    /**
     One command. Without hardware failures the host sees exactly the disk without a
     cache. With them, a READ(10) that passes still returns the card's blocks, except in
     the chunks of failed writes, and a WRITE(10) changes what it committed and may have
     torn one chunk.
     */
    method Execute(cbw: Cbw) returns (residue: nat, status: Status, ghost sent: seq<Byte>, ghost committed: nat, ghost torn: nat)
      requires Valid() && WellFormed(cbw)
      requires |input.stream| - input.received >= cbw.transferLen
      modifies this, lines, shared`sense, shared`ejected, shared.card, output, input`received, input`faults
      ensures Valid() && Faults() >= old(Faults())
      ensures shared.attaches - old(cacheAttach) < U32_LIMIT && !old(wrapped) ==> !wrapped && cacheAttach == shared.attaches
      ensures old(Clean()) && Faults() == old(Faults()) && !wrapped ==>
                && Clean()
                && Payload(output.packets) == Payload(old(output.packets)) + sent
                && (DiskView(), Answer(residue, status, sent)) ==
                   Serve(old(DiskView()), cbw, old(input.stream[input.received..]))
      ensures cbw.command.Read10? && status == Passed && !wrapped ==>
                && Payload(output.packets) == Payload(old(output.packets)) + sent
                && ReadsCard(sent, shared.card.blocks, cbw.command.lba, cbw.command.blocks, old(Doubted()))
      ensures cbw.command.Write10? ==>
                && committed + torn <= cbw.command.blocks && torn <= LINE_BLOCKS
                && (status == Passed ==> committed == cbw.command.blocks && torn == 0)
                && WriteEffect(old(shared.card.blocks), shared.card.blocks, cbw.command.lba, input.stream, old(input.received), committed, torn)
      ensures !cbw.command.Write10? ==> shared.card.blocks == old(shared.card.blocks)
      ensures !wrapped ==>
                tainted == if cbw.command.Write10? then old(Doubted()) - Lbas(cbw.command.lba, committed) + Lbas(cbw.command.lba + committed, torn)
                           else old(Doubted())
    {
      hide Coherent, Sized, Payload, ServeRead, ServeWrite, WriteEffect, ReadsCard;
      committed, torn := 0, 0;
      BeginCommand();
      if cbw.command.Read10? {
        residue, status, sent := ExecuteRead(cbw);
      } else if cbw.command.Write10? {
        residue, status, committed, torn := ExecuteWrite(cbw);
        sent := [];
      } else if cbw.command.RequestSense? || cbw.command.ReadCapacity? || cbw.command.Fixed? {
        residue, status, sent := ExecuteData(cbw);
      } else {
        residue, status := ExecuteControl(cbw);
        sent := [];
      }
    }

    /**
     Any sequence of attaches, detaches, rewrites of the card between sessions and
     commands, as long as the generation counter does not come round: every READ(10)
     that passes returns the card's blocks of that moment, except in the chunks of writes
     that failed since the last attach, and without hardware failures the host sees the
     disk without a cache.
     */
    method Session(events: seq<Event>) returns (ghost answers: seq<Answer>, ghost history: seq<Happened>)
      requires Valid() && Doubted() == {} && !wrapped && shared.attaches + |events| < U32_LIMIT
      requires AllObey(events)
      modifies this, lines, shared, shared.card, output, input
      ensures Valid() && |history| == |events|
      ensures Chained(old(shared.card.blocks), history, shared.card.blocks)
      ensures AllHappenedOk(events, history)
      ensures old(Clean()) && Faults() == old(Faults()) ==> (DiskView(), answers) == PlayAll(old(DiskView()), events)
    {
      answers, history := [], [];
      ghost var first, clean, faults, attaches := DiskView(), Clean(), Faults(), shared.attaches;
      NothingYet(first);
      hide Coherent, Sized, Serve, Payload, PlayAll, HappenedOk, Told, Chained, AllHappenedOk, SharedState.Valid, AllObey, Shown;
      assert events[..0] == [];
      assert SoFar(events, 0, first, clean, faults, attaches, answers, history);
      hide SoFar, Clean, Faults, DiskView, Valid, Doubted;
      for i := 0 to |events|
        invariant shared.card == old(shared.card) && SoFar(events, i, first, clean, faults, attaches, answers, history)
      {
        answers, history := PlayOne(events, i, first, clean, faults, attaches, answers, history);
      }
      Finally(events, first, clean, faults, attaches, answers, history);
    }

    /** What has been said of the first `i` events, with or without hardware failures. */
    ghost predicate SoFar(events: seq<Event>, i: nat, first: Disk, clean: bool, faults: nat, attaches: nat,
                          answers: seq<Answer>, history: seq<Happened>)
      reads this, lines, shared, shared.card, input, output
    {
      && i <= |events| && Valid() && Faults() >= faults && !wrapped && shared.attaches <= attaches + i
      && Told(first.blocks, events[..i], history, shared.card.blocks, Doubted())
      && (clean && Faults() == faults ==> Clean() && Shown(first, events[..i], DiskView(), answers))
    }

    lemma Finally(events: seq<Event>, first: Disk, clean: bool, faults: nat, attaches: nat, answers: seq<Answer>, history: seq<Happened>)
      requires SoFar(events, |events|, first, clean, faults, attaches, answers, history)
      ensures Valid() && |history| == |events| && Chained(first.blocks, history, shared.card.blocks) && AllHappenedOk(events, history)
      ensures clean && Faults() == faults ==>
                |first.blocks| < U32_LIMIT && AllObey(events) && (DiskView(), answers) == PlayAll(first, events)
    {
      hide Coherent, Sized, PlayAll, Chained, AllHappenedOk, Doubtful, SharedState.Valid, AllObey;
      assert events[..|events|] == events;
    }

    method PlayOne(events: seq<Event>, i: nat, ghost first: Disk, ghost clean: bool, ghost faults: nat, ghost attaches: nat,
                   ghost answers: seq<Answer>, ghost history: seq<Happened>)
      returns (ghost more: seq<Answer>, ghost longer: seq<Happened>)
      requires SoFar(events, i, first, clean, faults, attaches, answers, history)
      requires i < |events| && AllObey(events) && attaches + |events| < U32_LIMIT
      modifies this, lines, shared, shared.card, output, input
      ensures shared.card == old(shared.card) && SoFar(events, i + 1, first, clean, faults, attaches, more, longer)
    {
      hide Coherent, Sized, Serve, Payload, PlayAll, HappenedOk, Told, Chained, AllHappenedOk, SharedState.Valid, HostObeys, AllObey, Play, DoubtfulAfter, Shown;
      ObeyPrefix(events, i);
      ghost var doubtful, d := Doubted(), DiskView();
      ghost var answer, h := PlayEvent(events[i]);
      ToldStep(first.blocks, events[..i], history, events[i], h, doubtful);
      if clean && Faults() == faults { ShownStep(first, events[..i], d, answers, events[i]); }
      assert events[..i] + [events[i]] == events[..i + 1];
      return answers + answer, history + [h];
    }

    method PlayEvent(e: Event) returns (ghost answers: seq<Answer>, ghost h: Happened)
      requires Valid() && HostObeys(e) && !wrapped && shared.attaches + 1 < U32_LIMIT
      modifies this, lines, shared, shared.card, output, input
      ensures Valid() && shared.card == old(shared.card) && Faults() >= old(Faults())
      ensures !wrapped && shared.attaches <= old(shared.attaches) + 1
      ensures h.before == old(shared.card.blocks) && h.after == shared.card.blocks && h.answers == answers
      ensures HappenedOk(e, h, old(Doubted())) && Doubted() == DoubtfulAfter(e, h, old(Doubted()))
      ensures old(Clean()) && Faults() == old(Faults()) ==> Clean() && (DiskView(), answers) == Play(old(DiskView()), e)
    {
      hide Coherent, Sized, Serve, Payload, WriteEffect, ReadsCard;
      answers := [];
      ghost var before, committed, torn := shared.card.blocks, 0, 0;
      match e {
        case Attach =>
          shared.Attach(shared.card);
        case Detach =>
          shared.Detach();
        case Rewrite(blocks) =>
          if !shared.attached { shared.card.blocks := blocks; }
        case Command(cbw, payload) =>
          input.stream, input.received := payload, 0;
          var residue, status;
          ghost var sent;
          residue, status, sent, committed, torn := Execute(cbw);
          assert payload[0..] == payload;
          answers := [Answer(residue, status, sent)];
      }
      h := Happened(before, shared.card.blocks, answers, committed, torn);
    }
  }

  lemma HostBlocksShift(stream: seq<Byte>, at: nat, n: nat)
    requires at + n * BLOCK_LEN <= |stream|
    ensures HostBlocks(stream, at, 0, n) == HostBlocks(stream[at..], 0, 0, n)
  {
    forall k | 0 <= k < n ensures HostBlock(stream, at, k) == HostBlock(stream[at..], 0, k) {
    }
  }

  lemma SameGeneration(a: nat, b: nat)
    requires b <= a
    ensures a % U32_LIMIT == b % U32_LIMIT <==> (a - b) % U32_LIMIT == 0
  {
    assert a == a / U32_LIMIT * U32_LIMIT + a % U32_LIMIT;
    assert b == b / U32_LIMIT * U32_LIMIT + b % U32_LIMIT;
  }
}
