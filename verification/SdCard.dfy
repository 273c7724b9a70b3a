/** The SD card as both block-level modules see it: numbered 512-byte blocks and transfers that may fail. */
module SdCard {
  import opened Bytes

  const BLOCK_LEN := 512

  type Block = s: seq<Byte> | |s| == 512 witness seq(512, i => 0)

  function Splice(blocks: seq<Block>, index: nat, data: seq<Block>): (r: seq<Block>)
    requires index + |data| <= |blocks|
    ensures |r| == |blocks|
    ensures forall k :: 0 <= k < |r| ==> r[k] == if index <= k < index + |data| then data[k - index] else blocks[k]
  {
    blocks[..index] + data + blocks[index + |data|..]
  }

  // ---------------------------------------------------------------------
  // The card: transfers may fail; a failed write may have stored some blocks
  // ---------------------------------------------------------------------

  class Card {
    var blocks: seq<Block>
    /** Hardware failures so far. */
    var faults: nat

    ghost predicate Valid()
      reads this
    {
      |blocks| < U32_LIMIT
    }

    method NumBlocks() returns (ok: bool, count: nat)
      requires Valid()
      modifies this`faults
      ensures ok ==> count == |blocks| && faults == old(faults)
      ensures !ok ==> faults > old(faults)
    {
      ok, count := *, |blocks|;
      if !ok { faults := faults + 1; }
    }

    method Read(index: nat, count: nat) returns (ok: bool, data: seq<Block>)
      modifies this`faults
      ensures ok ==> index + count <= |blocks| && data == blocks[index..index + count] && faults == old(faults)
      ensures !ok && index + count <= |blocks| ==> faults > old(faults)
      ensures faults >= old(faults)
    {
      ok, data := *, [];
      if index + count > |blocks| {
        ok := false;
      } else if ok {
        data := blocks[index..index + count];
      } else {
        faults := faults + 1;
      }
    }

    method Write(index: nat, data: seq<Block>) returns (ok: bool)
      modifies this
      ensures |blocks| == |old(blocks)| && faults >= old(faults)
      ensures ok ==> index + |data| <= |blocks| && blocks == Splice(old(blocks), index, data) && faults == old(faults)
      ensures !ok && index + |data| <= |blocks| ==> faults > old(faults)
      ensures !ok ==> forall k :: 0 <= k < |blocks| ==>
                blocks[k] == old(blocks)[k] || (index <= k < index + |data| && blocks[k] == data[k - index])
    {
      ok := *;
      if index + |data| > |blocks| {
        ok := false;
      } else {
        var stored := if ok then |data| else 0;
        if !ok {
          faults := faults + 1;
          stored :| 0 <= stored <= |data|;
        }
        blocks := Splice(blocks, index, data[..stored]);
        assert ok ==> data[..stored] == data;
      }
    }
  }
}
