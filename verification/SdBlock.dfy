/** A card's partition as an array of bytes that are read and written at any position (src/sdblock.rs). */
module SdBlock {
  import opened Bytes
  import opened SdCard

  const MBR_PARTITION_TABLE := 0x1BE
  const MBR_SIGNATURE := 0x1FE
  const MAX_IO_BLOCKS := 16

  datatype SdBlockError = Device | NoPartition | OutOfRange | InvalidPosition

  datatype Result<+T> = Ok(value: T) | Err(error: SdBlockError)

  datatype SeekFrom = Start(offset: nat) | End(delta: int) | Current(delta: int)

  // ---------------------------------------------------------------------
  // Blocks as one byte image
  // ---------------------------------------------------------------------

  function ByteAt(blocks: seq<Block>, i: nat): Byte
    requires i < |blocks| * BLOCK_LEN
  {
    blocks[i / BLOCK_LEN][i % BLOCK_LEN]
  }

  function Image(blocks: seq<Block>): (s: seq<Byte>)
    ensures |s| == |blocks| * BLOCK_LEN
    ensures forall i :: 0 <= i < |s| ==> s[i] == ByteAt(blocks, i)
  {
    seq(|blocks| * BLOCK_LEN, i requires 0 <= i < |blocks| * BLOCK_LEN => ByteAt(blocks, i))
  }

  lemma BlockOf(i: nat, index: nat, count: nat)
    ensures index * BLOCK_LEN <= i < (index + count) * BLOCK_LEN <==> index <= i / BLOCK_LEN < index + count
  {
  }

  /** Replacing whole blocks replaces exactly their bytes. */
  lemma SpliceBytes(blocks: seq<Block>, index: nat, data: seq<Block>, i: nat)
    requires index + |data| <= |blocks| && i < |blocks| * BLOCK_LEN
    ensures ByteAt(Splice(blocks, index, data), i) ==
            if index * BLOCK_LEN <= i < (index + |data|) * BLOCK_LEN
            then data[i / BLOCK_LEN - index][i % BLOCK_LEN] else ByteAt(blocks, i)
  {
    BlockOf(i, index, |data|);
  }

  /** A run of bytes that stays inside one block. */
  lemma WithinBlock(i: nat, k: nat)
    requires i % BLOCK_LEN + k < BLOCK_LEN
    ensures (i + k) / BLOCK_LEN == i / BLOCK_LEN && (i + k) % BLOCK_LEN == i % BLOCK_LEN + k
  {
  }

  /** The image bytes of a run inside one block are that block's bytes. */
  lemma BytesOfBlock(blocks: seq<Block>, absolute: nat, take: nat)
    requires absolute % BLOCK_LEN + take <= BLOCK_LEN && absolute + take <= |blocks| * BLOCK_LEN && take > 0
    ensures absolute / BLOCK_LEN < |blocks|
    ensures forall i :: absolute <= i < absolute + take ==>
              ByteAt(blocks, i) == blocks[absolute / BLOCK_LEN][absolute % BLOCK_LEN + i - absolute]
  {
    forall i | absolute <= i < absolute + take
      ensures ByteAt(blocks, i) == blocks[absolute / BLOCK_LEN][absolute % BLOCK_LEN + i - absolute]
    {
      WithinBlock(absolute, i - absolute);
    }
  }

  /** `now` is `before` with `data` in place of the bytes from `start` on. */
  ghost predicate Replaced(before: seq<Block>, now: seq<Block>, start: nat, data: seq<Byte>) {
    && |now| == |before|
    && start + |data| <= |now| * BLOCK_LEN
    && forall i :: 0 <= i < |now| * BLOCK_LEN ==>
         ByteAt(now, i) == if start <= i < start + |data| then data[i - start] else ByteAt(before, i)
  }

  /** Every byte is old or new, and only bytes of the requested range may be new. */
  ghost predicate PartlyReplaced(before: seq<Block>, now: seq<Block>, start: nat, data: seq<Byte>) {
    && |now| == |before|
    && forall i :: 0 <= i < |now| * BLOCK_LEN ==>
         ByteAt(now, i) == ByteAt(before, i) ||
         (start <= i < start + |data| && ByteAt(now, i) == data[i - start])
  }

  /** Blocks `data` hold the bytes `payload`, in order. */
  ghost predicate Holds(data: seq<Block>, payload: seq<Byte>) {
    |payload| == |data| * BLOCK_LEN && forall i :: 0 <= i < |payload| ==> payload[i] == ByteAt(data, i)
  }

  lemma ShiftBlock(i: nat, index: nat)
    requires index * BLOCK_LEN <= i
    ensures (i - index * BLOCK_LEN) / BLOCK_LEN == i / BLOCK_LEN - index
    ensures (i - index * BLOCK_LEN) % BLOCK_LEN == i % BLOCK_LEN
  {
  }

  lemma OwnBlock(i: nat, index: nat)
    requires index * BLOCK_LEN <= i < (index + 1) * BLOCK_LEN
    ensures i / BLOCK_LEN == index && i % BLOCK_LEN == i - index * BLOCK_LEN
  {
  }

  lemma ReplacedIsPartial(before: seq<Block>, now: seq<Block>, start: nat, data: seq<Byte>)
    requires Replaced(before, now, start, data)
    ensures PartlyReplaced(before, now, start, data)
  {
  }

  /** Outside the range every byte of the card is as before. */
  lemma OutsideUnchanged(before: seq<Block>, now: seq<Block>, start: nat, data: seq<Byte>, base: nat, size: nat)
    requires PartlyReplaced(before, now, start, data)
    requires base <= start && start + |data| <= base + size <= |now| * BLOCK_LEN
    ensures Image(now)[..base] == Image(before)[..base] && Image(now)[base + size..] == Image(before)[base + size..]
  {
  }

  lemma InsideOverlaid(before: seq<Block>, now: seq<Block>, pos: nat, data: seq<Byte>, base: nat, size: nat)
    requires Replaced(before, now, base + pos, data)
    requires pos + |data| <= size && base + size <= |now| * BLOCK_LEN
    ensures Image(now)[base..base + size] == Overlay(Image(before)[base..base + size], pos, data)
  {
  }

  lemma InsideTorn(before: seq<Block>, now: seq<Block>, pos: nat, data: seq<Byte>, base: nat, size: nat)
    requires PartlyReplaced(before, now, base + pos, data) && base + size <= |now| * BLOCK_LEN
    ensures Torn(Image(before)[base..base + size], Image(now)[base..base + size], pos, data)
  {
    var was, after := Image(before)[base..base + size], Image(now)[base..base + size];
    forall i | 0 <= i < size ensures after[i] == was[i] || (pos <= i < pos + |data| && after[i] == data[i - pos]) {
      assert after[i] == ByteAt(now, base + i) && was[i] == ByteAt(before, base + i);
    }
  }

  /** Writing whole blocks extends the replaced run by their bytes. */
  lemma ExtendByBlocks(before: seq<Block>, now: seq<Block>, start: nat, buf: seq<Byte>, done: nat,
                       index: nat, data: seq<Block>)
    requires done + |data| * BLOCK_LEN <= |buf| && Replaced(before, now, start, buf[..done])
    requires start + done == index * BLOCK_LEN && index + |data| <= |now|
    requires Holds(data, buf[done..done + |data| * BLOCK_LEN])
    ensures Replaced(before, Splice(now, index, data), start, buf[..done + |data| * BLOCK_LEN])
  {
    var next := Splice(now, index, data);
    forall i | 0 <= i < |now| * BLOCK_LEN
      ensures ByteAt(next, i) == if start <= i < start + done + |data| * BLOCK_LEN then buf[i - start] else ByteAt(before, i)
    {
      SpliceBytes(now, index, data, i);
      if start + done <= i < start + done + |data| * BLOCK_LEN {
        ShiftBlock(i, index);
        assert buf[done..done + |data| * BLOCK_LEN][i - start - done] == ByteAt(data, i - start - done);
      }
    }
  }

  /** Writing one patched block extends the replaced run by the patch. */
  lemma ExtendByPatch(before: seq<Block>, now: seq<Block>, start: nat, buf: seq<Byte>, done: nat, take: nat, patched: Block)
    requires done + take <= |buf| && take > 0 && Replaced(before, now, start, buf[..done])
    requires start + done + take <= |now| * BLOCK_LEN
    requires (start + done) % BLOCK_LEN + take <= BLOCK_LEN && (start + done) / BLOCK_LEN < |now|
    requires patched == Overlay(now[(start + done) / BLOCK_LEN], (start + done) % BLOCK_LEN, buf[done..done + take])
    ensures Replaced(before, Splice(now, (start + done) / BLOCK_LEN, [patched]), start, buf[..done + take])
  {
    hide Splice;
    var index, offset := (start + done) / BLOCK_LEN, (start + done) % BLOCK_LEN;
    var next := Splice(now, index, [patched]);
    forall i | 0 <= i < |now| * BLOCK_LEN
      ensures ByteAt(next, i) == if start <= i < start + done + take then buf[i - start] else ByteAt(before, i)
    {
      SpliceBytes(now, index, [patched], i);
      if index * BLOCK_LEN <= i < (index + 1) * BLOCK_LEN {
        ShiftBlock(i, index);
        assert start + done == index * BLOCK_LEN + offset;
        OwnBlock(i, index);
        assert ByteAt(next, i) == patched[i - index * BLOCK_LEN];
        assert ByteAt(now, i) == now[index][i - index * BLOCK_LEN];
      }
    }
  }

  /** A failed block write stored each block wholly or not at all. */
  lemma FailedWrite(before: seq<Block>, now: seq<Block>, after: seq<Block>, start: nat, buf: seq<Byte>, done: nat,
                    intended: seq<Block>, extent: nat)
    requires done <= extent <= |buf|
    requires Replaced(before, now, start, buf[..done]) && Replaced(before, intended, start, buf[..extent])
    requires |after| == |now| && forall k :: 0 <= k < |after| ==> after[k] == now[k] || after[k] == intended[k]
    ensures PartlyReplaced(before, after, start, buf)
  {
    forall i | 0 <= i < |after| * BLOCK_LEN
      ensures ByteAt(after, i) == ByteAt(before, i) ||
              (start <= i < start + |buf| && ByteAt(after, i) == buf[i - start])
    {
      assert after[i / BLOCK_LEN] == now[i / BLOCK_LEN] || after[i / BLOCK_LEN] == intended[i / BLOCK_LEN];
      assert ByteAt(after, i) == ByteAt(now, i) || ByteAt(after, i) == ByteAt(intended, i);
    }
  }

  // ---------------------------------------------------------------------
  // Partition table
  // ---------------------------------------------------------------------

  function EntryStart(mbr: Block, i: nat): nat
    requires i < 4
  {
    FromLe32(mbr[MBR_PARTITION_TABLE + i * 16 + 8..MBR_PARTITION_TABLE + i * 16 + 12])
  }

  function EntryLength(mbr: Block, i: nat): nat
    requires i < 4
  {
    FromLe32(mbr[MBR_PARTITION_TABLE + i * 16 + 12..MBR_PARTITION_TABLE + i * 16 + 16])
  }

  predicate EntryUsable(mbr: Block, i: nat)
    requires i < 4
  {
    mbr[MBR_PARTITION_TABLE + i * 16 + 4] != 0 && EntryLength(mbr, i) != 0
  }

  predicate Signed(mbr: Block) { mbr[MBR_SIGNATURE] == 0x55 && mbr[MBR_SIGNATURE + 1] == 0xAA }

  /** Entry `i` is the first usable one. */
  predicate FirstUsable(mbr: Block, i: nat)
    requires i < 4
  {
    EntryUsable(mbr, i) && forall j :: 0 <= j < i ==> !EntryUsable(mbr, j)
  }

  /** An entry as partitioning tools write it: status, first sector, type, last sector, start and length in sectors. */
  function PartitionEntry(status: Byte, first: seq<Byte>, kind: Byte, last: seq<Byte>, start: nat, length: nat): (e: seq<Byte>)
    requires |first| == 3 && |last| == 3
    ensures |e| == 16
  {
    [status] + first + [kind] + last + Le32(start) + Le32(length)
  }

  /** What has been written as entry `i` of the table at byte 446 is what is read. */
  lemma EntryReads(mbr: Block, i: nat, status: Byte, first: seq<Byte>, kind: Byte, last: seq<Byte>, start: nat, length: nat)
    requires i < 4 && |first| == 3 && |last| == 3 && start < U32_LIMIT && length < U32_LIMIT
    requires mbr[446 + 16 * i..446 + 16 * (i + 1)] == PartitionEntry(status, first, kind, last, start, length)
    ensures EntryStart(mbr, i) == start && EntryLength(mbr, i) == length
    ensures EntryUsable(mbr, i) <==> kind != 0 && length != 0
  {
    hide Le32, FromLe32;
    var at := 446 + 16 * i;
    var e := mbr[at..at + 16];
    Le32RoundTrip(start);
    Le32RoundTrip(length);
    assert mbr[at + 4] == e[4];
    EntryFields(status, first, kind, last, start, length);
    PartOfPart(mbr, at, at + 16, 8, 12);
    PartOfPart(mbr, at, at + 16, 12, 16);
  }

  lemma PartOfPart(x: seq<Byte>, a: nat, b: nat, i: nat, j: nat)
    requires i <= j && a + j <= b <= |x|
    ensures x[a..b][i..j] == x[a + i..a + j]
  {
    var part := x[a..b];
    assert forall k :: 0 <= k < |part| ==> part[k] == x[a + k];
  }

  lemma EntryFields(status: Byte, first: seq<Byte>, kind: Byte, last: seq<Byte>, start: nat, length: nat)
    requires |first| == 3 && |last| == 3
    ensures var e := PartitionEntry(status, first, kind, last, start, length); e[4] == kind && e[8..12] == Le32(start) && e[12..16] == Le32(length)
  {
    hide Le32;
    var e := PartitionEntry(status, first, kind, last, start, length);
    var head := [status] + first + [kind] + last;
    assert e == head + Le32(start) + Le32(length) && |head| == 8;
    assert e[4] == head[4] == kind;
    assert e[8..12] == Le32(start);
    assert e[12..16] == Le32(length);
  }

  /** A table is looked for behind these two bytes at the end of the first block. */
  lemma SignatureRead(mbr: Block)
    ensures Signed(mbr) <==> mbr[510..] == [0x55, 0xAA]
  {
    assert |mbr[510..]| == 2 && mbr[510..][0] == mbr[510] && mbr[510..][1] == mbr[511];
  }

  // ---------------------------------------------------------------------
  // The flat view the device refines: bytes of the partition and a position
  // ---------------------------------------------------------------------

  datatype Flat = Flat(bytes: seq<Byte>, pos: nat)

  datatype Op = OpSeek(to: SeekFrom) | OpRead(length: nat) | OpWrite(data: seq<Byte>)

  datatype Answer = Moved(pos: nat) | Bytes(data: seq<Byte>) | Stored(length: nat) | Refused(error: SdBlockError)

  function Target(to: SeekFrom, pos: nat, size: nat): int {
    match to
    case Start(offset) => offset
    case End(delta) => size + delta
    case Current(delta) => pos + delta
  }

  function Apply(v: Flat, op: Op): (r: (Flat, Answer))
    requires v.pos <= |v.bytes|
    ensures r.0.pos <= |r.0.bytes| == |v.bytes|
  {
    match op
    case OpSeek(to) =>
      var target := Target(to, v.pos, |v.bytes|);
      if 0 <= target <= |v.bytes| then (v.(pos := target), Moved(target)) else (v, Refused(InvalidPosition))
    case OpRead(length) =>
      if v.pos + length <= |v.bytes|
      then (v.(pos := v.pos + length), Bytes(v.bytes[v.pos..v.pos + length]))
      else (v, Refused(OutOfRange))
    case OpWrite(data) =>
      if v.pos + |data| <= |v.bytes|
      then (Flat(Overlay(v.bytes, v.pos, data), v.pos + |data|), Stored(|data|))
      else (v, Refused(OutOfRange))
  }

  function ApplyAll(v: Flat, script: seq<Op>): (r: (Flat, seq<Answer>))
    requires v.pos <= |v.bytes|
    ensures r.0.pos <= |r.0.bytes| == |v.bytes| && |r.1| == |script|
  {
    if script == [] then (v, [])
    else
      var (v1, answers) := ApplyAll(v, script[..|script| - 1]);
      var (v2, last) := Apply(v1, script[|script| - 1]);
      (v2, answers + [last])
  }

  /** However byte `k` is named, reading on from there gives the bytes from `k` on. */
  lemma SeekReads(v: Flat, to: SeekFrom, k: nat, length: nat)
    requires v.pos <= |v.bytes| && k + length <= |v.bytes|
    requires to == Start(k) || to == End(k - |v.bytes|) || to == Current(k - v.pos)
    ensures var w := Apply(v, OpSeek(to)); w == (v.(pos := k), Moved(k)) && Apply(w.0, OpRead(length)).1 == Bytes(v.bytes[k..k + length])
  {
  }

  /** Only bytes of the range may have changed, and those to what was to be written. */
  predicate Torn(was: seq<Byte>, now: seq<Byte>, at: nat, data: seq<Byte>) {
    |now| == |was| && forall i :: 0 <= i < |now| ==> now[i] == was[i] || (at <= i < at + |data| && now[i] == data[i - at])
  }

  /** An operation on a card that may fail. */
  predicate Does(v: Flat, op: Op, w: Flat, answer: Answer)
    requires v.pos <= |v.bytes|
  {
    (w, answer) == Apply(v, op) ||
    (answer == Refused(Device) && w.pos == v.pos &&
     match op
     case OpSeek(_) => false
     case OpRead(length) => v.pos + length <= |v.bytes| && w == v
     case OpWrite(data) => v.pos + |data| <= |v.bytes| && Torn(v.bytes, w.bytes, v.pos, data))
  }

  predicate Trace(views: seq<Flat>, script: seq<Op>, answers: seq<Answer>) {
    && |views| == |script| + 1 && |answers| == |script|
    && (forall i :: 0 <= i < |views| ==> views[i].pos <= |views[i].bytes|)
    && forall i :: 0 <= i < |script| ==> Does(views[i], script[i], views[i + 1], answers[i])
  }

  lemma TraceStep(views: seq<Flat>, script: seq<Op>, answers: seq<Answer>, op: Op, w: Flat, answer: Answer)
    requires Trace(views, script, answers) && w.pos <= |w.bytes|
    requires views[|script|].pos <= |views[|script|].bytes| && Does(views[|script|], op, w, answer)
    ensures Trace(views + [w], script + [op], answers + [answer])
  {
    hide Does;
    var v, s, a := views + [w], script + [op], answers + [answer];
    forall i | 0 <= i < |s| ensures Does(v[i], s[i], v[i + 1], a[i]) {
      if i < |script| { assert Does(views[i], script[i], views[i + 1], answers[i]); }
    }
  }

  // ---------------------------------------------------------------------
  // The device
  // ---------------------------------------------------------------------

  class SdBlockDevice {
    const card: Card
    const base: nat
    const size: nat
    var pos: nat

    ghost predicate Valid()
      reads this, card
    {
      && card.Valid()
      && base % BLOCK_LEN == 0
      && base + size <= |card.blocks| * BLOCK_LEN
      && pos <= size
    }

    ghost function View(): (v: Flat)
      requires Valid()
      reads this, card
      ensures v.pos <= |v.bytes| == size
    {
      Flat(Image(card.blocks)[base..base + size], pos)
    }

    /** The card's bytes before and after the partition. */
    ghost function Surroundings(): (seq<Byte>, seq<Byte>)
      requires Valid()
      reads this, card
    {
      (Image(card.blocks)[..base], Image(card.blocks)[base + size..])
    }

    constructor (card: Card, base: nat, size: nat)
      requires card.Valid() && base % BLOCK_LEN == 0 && base + size <= |card.blocks| * BLOCK_LEN
      ensures Valid() && this.card == card && this.base == base && this.size == size && pos == 0
    {
      this.card, this.base, this.size, this.pos := card, base, size, 0;
    }

    static method Mount(card: Card) returns (r: Result<SdBlockDevice>)
      requires card.Valid()
      modifies card`faults
      ensures r.Ok? ==>
                && fresh(r.value) && r.value.Valid() && r.value.card == card && r.value.pos == 0
                && |card.blocks| > 0 && Signed(card.blocks[0])
                && exists i :: 0 <= i < 4 && FirstUsable(card.blocks[0], i) &&
                     r.value.base == EntryStart(card.blocks[0], i) * BLOCK_LEN &&
                     r.value.size == EntryLength(card.blocks[0], i) * BLOCK_LEN
      ensures r == Err(NoPartition) ==>
                |card.blocks| > 0 &&
                (!Signed(card.blocks[0]) || forall i :: 0 <= i < 4 ==> !EntryUsable(card.blocks[0], i))
      ensures r == Err(OutOfRange) ==>
                |card.blocks| > 0 &&
                exists i :: 0 <= i < 4 && FirstUsable(card.blocks[0], i) &&
                  EntryStart(card.blocks[0], i) + EntryLength(card.blocks[0], i) > |card.blocks|
      ensures r == Err(Device) ==> card.faults > old(card.faults) || card.blocks == []
      ensures r != Err(InvalidPosition)
    {
      var ok, data := card.Read(0, 1);
      if !ok { return Err(Device); }
      var mbr := data[0];
      if mbr[MBR_SIGNATURE] != 0x55 || mbr[MBR_SIGNATURE + 1] != 0xAA { return Err(NoPartition); }
      var index := 0;
      while index < 4 && !EntryUsable(mbr, index)
        invariant index <= 4 && forall j :: 0 <= j < index ==> !EntryUsable(mbr, j)
      {
        index := index + 1;
      }
      if index == 4 { return Err(NoPartition); }
      var base := EntryStart(mbr, index) * BLOCK_LEN;
      var size := EntryLength(mbr, index) * BLOCK_LEN;
      var counted, count := card.NumBlocks();
      if !counted { return Err(Device); }
      if base + size > count * BLOCK_LEN { return Err(OutOfRange); }
      var device := new SdBlockDevice(card, base, size);
      return Ok(device);
    }

    method CopyOut(buf: array<Byte>, at: nat, block: Block, offset: nat, take: nat)
      requires at + take <= buf.Length && offset + take <= BLOCK_LEN
      modifies buf
      ensures forall i :: 0 <= i < buf.Length ==>
                buf[i] == if at <= i < at + take then block[offset + i - at] else old(buf[i])
    {
      forall k | 0 <= k < take { buf[at + k] := block[offset + k]; }
    }

    /** At the start of a block: the next whole blocks, sixteen at most, are in the buffer, or it is as far as it was. */
    method ReadAligned(buf: array<Byte>, start: nat, done: nat) returns (ok: bool, count: nat)
      requires Valid() && done + BLOCK_LEN <= buf.Length && start + buf.Length <= base + size
      requires (start + done) % BLOCK_LEN == 0
      requires forall i :: 0 <= i < done ==> buf[i] == ByteAt(card.blocks, start + i)
      modifies card`faults, buf
      ensures ok ==> 0 < count && done + count <= buf.Length && card.faults == old(card.faults)
      ensures ok ==> forall i :: 0 <= i < done + count ==> buf[i] == ByteAt(card.blocks, start + i)
      ensures !ok ==> card.faults > old(card.faults)
    {
      hide Image;
      count := 0;
      var absolute := start + done;
      var cardBlock := absolute / BLOCK_LEN % U32_LIMIT;
      assert cardBlock == absolute / BLOCK_LEN;
      var remaining := buf.Length - done;
      var blocks := if remaining / BLOCK_LEN < MAX_IO_BLOCKS then remaining / BLOCK_LEN else MAX_IO_BLOCKS;
      var scratch;
      ok, scratch := card.Read(cardBlock, blocks);
      if !ok { return; }
      var index := 0;
      while index < blocks
        invariant index <= blocks && card.faults == old(card.faults)
        invariant forall i :: 0 <= i < done + index * BLOCK_LEN ==> buf[i] == ByteAt(card.blocks, start + i)
      {
        BytesOfBlock(card.blocks, absolute + index * BLOCK_LEN, BLOCK_LEN);
        OwnBlock(absolute + index * BLOCK_LEN, cardBlock + index);
        assert scratch[index] == card.blocks[cardBlock + index];
        CopyOut(buf, done + index * BLOCK_LEN, scratch[index], 0, BLOCK_LEN);
        index := index + 1;
      }
      count := blocks * BLOCK_LEN;
    }

    /** Inside a block, or with less than a block to go: the bytes up to the end of either are in the buffer. */
    method ReadPartial(buf: array<Byte>, start: nat, done: nat) returns (ok: bool, take: nat)
      requires Valid() && done < buf.Length && start + buf.Length <= base + size
      requires forall i :: 0 <= i < done ==> buf[i] == ByteAt(card.blocks, start + i)
      modifies card`faults, buf
      ensures ok ==> 0 < take && done + take <= buf.Length && card.faults == old(card.faults)
      ensures ok ==> forall i :: 0 <= i < done + take ==> buf[i] == ByteAt(card.blocks, start + i)
      ensures !ok ==> card.faults > old(card.faults)
    {
      hide Image;
      take := 0;
      var absolute := start + done;
      var cardBlock := absolute / BLOCK_LEN % U32_LIMIT;
      assert cardBlock == absolute / BLOCK_LEN;
      var blockOffset := absolute % BLOCK_LEN;
      var remaining := buf.Length - done;
      var block;
      ok, block := card.Read(cardBlock, 1);
      if !ok { return; }
      take := if remaining < BLOCK_LEN - blockOffset then remaining else BLOCK_LEN - blockOffset;
      BytesOfBlock(card.blocks, absolute, take);
      CopyOut(buf, done, block[0], blockOffset, take);
    }

    method Read(buf: array<Byte>) returns (r: Result<nat>)
      requires Valid()
      modifies this`pos, card`faults, buf
      ensures Valid()
      ensures r.Ok? ==>
                (View(), Bytes(buf[..])) == Apply(old(View()), OpRead(buf.Length)) && r.value == buf.Length
      ensures r.Err? ==> pos == old(pos)
      ensures r == Err(OutOfRange) <==> old(pos) + buf.Length > size
      ensures r.Ok? || r == Err(OutOfRange) ==> card.faults == old(card.faults)
      ensures r.Err? && r != Err(OutOfRange) ==> r == Err(Device) && card.faults > old(card.faults)
    {
      if buf.Length == 0 {
        assert buf[..] == View().bytes[pos..pos];
        return Ok(0);
      }
      if pos + buf.Length > size { return Err(OutOfRange); }
      var start := base + pos;
      var done := 0;
      while done < buf.Length
        invariant done <= buf.Length && pos == old(pos) && card.faults == old(card.faults)
        invariant forall i :: 0 <= i < done ==> buf[i] == ByteAt(card.blocks, start + i)
      {
        var ok, count;
        if (start + done) % BLOCK_LEN == 0 && buf.Length - done >= BLOCK_LEN {
          ok, count := ReadAligned(buf, start, done);
        } else {
          ok, count := ReadPartial(buf, start, done);
        }
        if !ok { return Err(Device); }
        done := done + count;
      }
      assert buf[..] == View().bytes[pos..pos + buf.Length];
      pos := pos + done;
      return Ok(done);
    }

    /** The blocks whose bytes are `payload`. */
    static function Cut(payload: seq<Byte>): (data: seq<Block>)
      requires |payload| % BLOCK_LEN == 0
      ensures |data| == |payload| / BLOCK_LEN && Holds(data, payload)
    {
      seq(|payload| / BLOCK_LEN, k requires 0 <= k < |payload| / BLOCK_LEN =>
        var b: Block := payload[k * BLOCK_LEN..(k + 1) * BLOCK_LEN]; b)
    }

    /** At the start of a block: the next whole blocks, sixteen at most, are on the card, and nothing else has changed. */
    method WriteAligned(buf: seq<Byte>, start: nat, done: nat, ghost before: seq<Block>) returns (ok: bool, count: nat)
      requires Valid() && done + BLOCK_LEN <= |buf| && start + |buf| <= base + size
      requires (start + done) % BLOCK_LEN == 0 && Replaced(before, card.blocks, start, buf[..done])
      modifies card
      ensures Valid()
      ensures ok ==> 0 < count && done + count <= |buf| && card.faults == old(card.faults)
      ensures ok ==> Replaced(before, card.blocks, start, buf[..done + count])
      ensures !ok ==> card.faults > old(card.faults) && PartlyReplaced(before, card.blocks, start, buf)
    {
      hide Image, ByteAt, PartlyReplaced, Holds;
      count := 0;
      var cardBlock := (start + done) / BLOCK_LEN % U32_LIMIT;
      assert cardBlock == (start + done) / BLOCK_LEN;
      var remaining := |buf| - done;
      var blocks := if remaining / BLOCK_LEN < MAX_IO_BLOCKS then remaining / BLOCK_LEN else MAX_IO_BLOCKS;
      var scratch := Cut(buf[done..done + blocks * BLOCK_LEN]);
      assert |scratch| == blocks && start + done == cardBlock * BLOCK_LEN;
      ExtendByBlocks(before, card.blocks, start, buf, done, cardBlock, scratch);
      ghost var now := card.blocks;
      ok := card.Write(cardBlock, scratch);
      if ok {
        count := blocks * BLOCK_LEN;
      } else {
        FailedWrite(before, now, card.blocks, start, buf, done, Splice(now, cardBlock, scratch), done + blocks * BLOCK_LEN);
      }
    }

    /** Inside a block, or with less than a block to go: the bytes up to the end of either are on the card, and no others have changed. */
    method WritePartial(buf: seq<Byte>, start: nat, done: nat, ghost before: seq<Block>) returns (ok: bool, take: nat)
      requires Valid() && done < |buf| && start + |buf| <= base + size
      requires Replaced(before, card.blocks, start, buf[..done])
      modifies card
      ensures Valid()
      ensures ok ==> 0 < take && done + take <= |buf| && card.faults == old(card.faults)
      ensures ok ==> Replaced(before, card.blocks, start, buf[..done + take])
      ensures !ok ==> card.faults > old(card.faults) && PartlyReplaced(before, card.blocks, start, buf)
    {
      hide Image, ByteAt, PartlyReplaced, Replaced, Splice, Overlay;
      take := 0;
      var absolute := start + done;
      var cardBlock := absolute / BLOCK_LEN % U32_LIMIT;
      assert cardBlock == absolute / BLOCK_LEN;
      var blockOffset := absolute % BLOCK_LEN;
      var remaining := |buf| - done;
      var block;
      ok, block := card.Read(cardBlock, 1);
      if !ok {
        FailedWrite(before, card.blocks, card.blocks, start, buf, done, card.blocks, done);
        return;
      }
      take := if remaining < BLOCK_LEN - blockOffset then remaining else BLOCK_LEN - blockOffset;
      var patched: Block := Overlay(block[0], blockOffset, buf[done..done + take]);
      ExtendByPatch(before, card.blocks, start, buf, done, take, patched);
      ghost var now := card.blocks;
      ok := card.Write(cardBlock, [patched]);
      if !ok {
        FailedWrite(before, now, card.blocks, start, buf, done, Splice(now, cardBlock, [patched]), done + take);
      }
    }

    method Write(buf: seq<Byte>) returns (r: Result<nat>)
      requires Valid()
      modifies this`pos, card
      ensures Valid()
      ensures r.Ok? ==> (View(), Stored(r.value)) == Apply(old(View()), OpWrite(buf))
      ensures Surroundings() == old(Surroundings())
      ensures r == Err(OutOfRange) <==> old(pos) + |buf| > size
      ensures r == Err(OutOfRange) ==> card.blocks == old(card.blocks)
      ensures r.Err? ==> pos == old(pos)
      ensures r.Ok? || r == Err(OutOfRange) ==> card.faults == old(card.faults)
      ensures r.Err? && r != Err(OutOfRange) ==>
                r == Err(Device) && card.faults > old(card.faults) &&
                PartlyReplaced(old(card.blocks), card.blocks, base + pos, buf)
    {
      hide ByteAt, Overlay, PartlyReplaced;
      if |buf| == 0 {
        assert Overlay(View().bytes, pos, buf) == View().bytes;
        return Ok(0);
      }
      if pos + |buf| > size { return Err(OutOfRange); }
      ghost var before := card.blocks;
      var ok := WriteAll(buf, base + pos);
      OutsideUnchanged(before, card.blocks, base + pos, buf, base, size);
      if !ok { return Err(Device); }
      InsideOverlaid(before, card.blocks, pos, buf, base, size);
      pos := pos + |buf|;
      return Ok(|buf|);
    }

    /** The loop of `write`, from card byte `start` on. */
    method WriteAll(buf: seq<Byte>, start: nat) returns (ok: bool)
      requires Valid() && base <= start && start + |buf| <= base + size
      modifies card
      ensures Valid()
      ensures ok ==> Replaced(old(card.blocks), card.blocks, start, buf) && card.faults == old(card.faults)
      ensures !ok ==> card.faults > old(card.faults)
      ensures PartlyReplaced(old(card.blocks), card.blocks, start, buf)
    {
      hide ByteAt, PartlyReplaced;
      var done := 0;
      ghost var before := card.blocks;
      while done < |buf|
        invariant done <= |buf| && card.Valid()
        invariant Replaced(before, card.blocks, start, buf[..done])
        invariant card.faults == old(card.faults)
      {
        var count;
        if (start + done) % BLOCK_LEN == 0 && |buf| - done >= BLOCK_LEN {
          ok, count := WriteAligned(buf, start, done, before);
        } else {
          ok, count := WritePartial(buf, start, done, before);
        }
        if !ok { return; }
        done := done + count;
      }
      assert buf[..done] == buf;
      ReplacedIsPartial(before, card.blocks, start, buf);
      ok := true;
    }

    method Seek(to: SeekFrom) returns (r: Result<nat>)
      requires Valid()
      modifies this`pos
      ensures Valid()
      ensures (View(), if r.Ok? then Moved(r.value) else Refused(r.error)) == Apply(old(View()), OpSeek(to))
    {
      var target := Target(to, pos, size);
      if !(0 <= target <= size) { return Err(InvalidPosition); }
      pos := target;
      return Ok(pos);
    }

    /** One operation: what it does to the flat bytes, or what a failing card makes of it. */
    method Do(op: Op) returns (answer: Answer)
      requires Valid()
      modifies this, card
      ensures Valid() && Does(old(View()), op, View(), answer)
      ensures card.faults >= old(card.faults) && (card.faults == old(card.faults) <==> answer != Refused(Device))
      ensures card.faults == old(card.faults) ==> (View(), answer) == Apply(old(View()), op)
      ensures Surroundings() == old(Surroundings())
    {
      hide Image, Overlay, PartlyReplaced, ByteAt;
      ghost var before := card.blocks;
      match op {
        case OpSeek(to) =>
          var r := Seek(to);
          return if r.Ok? then Moved(r.value) else Refused(r.error);
        case OpRead(length) =>
          var buf := new Byte[length];
          var r := Read(buf);
          return if r.Ok? then Bytes(buf[..]) else Refused(r.error);
        case OpWrite(data) =>
          var r := Write(data);
          if r == Err(Device) { InsideTorn(before, card.blocks, pos, data, base, size); }
          return if r.Ok? then Stored(r.value) else Refused(r.error);
      }
    }

    /**
     Any sequence of seeks, reads and writes. Every operation acts on the flat bytes, or is
     refused by the card, leaves the position and reads nothing or writes part of its data;
     the operations after it go on from there. Without such a refusal the whole sequence is
     the sequence on the flat bytes.
     */
    method Replay(script: seq<Op>) returns (answers: seq<Answer>, ghost views: seq<Flat>)
      requires Valid()
      modifies this, card
      ensures Valid() && Trace(views, script, answers) && views[0] == old(View()) && views[|script|] == View()
      ensures Refused(Device) !in answers ==> (View(), answers) == ApplyAll(old(View()), script)
      ensures Surroundings() == old(Surroundings())
    {
      answers := [];
      ghost var first := View();
      views := [first];
      assert script[..0] == [];
      for i := 0 to |script|
        invariant Valid() && Trace(views, script[..i], answers) && views[0] == first && views[i] == View()
        invariant Refused(Device) !in answers ==> (View(), answers) == ApplyAll(first, script[..i])
        invariant Surroundings() == old(Surroundings())
      {
        hide ApplyAll, Trace, Does, Apply;
        ApplyStep(first, script[..i], script[i]);
        ghost var was := View();
        var answer := Do(script[i]);
        TraceStep(views, script[..i], answers, script[i], View(), answer);
        assert script[..i + 1] == script[..i] + [script[i]];
        assert Refused(Device) !in answers + [answer] ==> Refused(Device) !in answers && answer != Refused(Device);
        answers, views := answers + [answer], views + [View()];
      }
      assert script[..|script|] == script;
    }
  }

  lemma ApplyStep(v: Flat, script: seq<Op>, op: Op)
    requires v.pos <= |v.bytes|
    ensures var (v1, answers) := ApplyAll(v, script);
            var (v2, last) := Apply(v1, op);
            ApplyAll(v, script + [op]) == (v2, answers + [last])
  {
    assert (script + [op])[..|script|] == script;
  }

  /** What was written is read back, and bytes outside the range are as before. */
  lemma WriteThenRead(v: Flat, data: seq<Byte>)
    requires v.pos + |data| <= |v.bytes|
    ensures var v2 := Apply(v, OpWrite(data)).0;
            Apply(v2.(pos := v.pos), OpRead(|data|)).1 == Bytes(data) &&
            v2.bytes[..v.pos] == v.bytes[..v.pos] && v2.bytes[v.pos + |data|..] == v.bytes[v.pos + |data|..]
  {
    hide Overlay;
    var written := Overlay(v.bytes, v.pos, data);
    assert written[v.pos..v.pos + |data|] == data;
  }
}
