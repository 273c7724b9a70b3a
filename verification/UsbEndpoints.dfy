/** The two bulk endpoints of the mass-storage interface: 64-byte packets that may fail to move. */
module UsbEndpoints {
  import opened Bytes

  const BULK_PACKET_SIZE := 64

  type Packet = seq<Byte>

  /** All bytes of a run of packets, in order. */
  function Payload(packets: seq<Packet>): seq<Byte> {
    if packets == [] then [] else Payload(packets[..|packets| - 1]) + packets[|packets| - 1]
  }

  lemma PayloadAppend(packets: seq<Packet>, p: Packet)
    ensures Payload(packets + [p]) == Payload(packets) + p
  {
    assert (packets + [p])[..|packets|] == packets;
  }

  /** A run of full packets with at most one shorter one, which is not empty, at the end. */
  ghost predicate PacketRun(before: seq<Packet>, after: seq<Packet>, data: seq<Byte>) {
    && before <= after
    && Payload(after) == Payload(before) + data
    && (forall k :: |before| <= k < |after| - 1 ==> |after[k]| == BULK_PACKET_SIZE)
    && (data != [] ==> |after| > |before| && |after[|after| - 1]| == (|data| - 1) % BULK_PACKET_SIZE + 1)
    && (data == [] ==> after == before)
  }

  lemma PacketRunStarts(packets: seq<Packet>)
    ensures PacketRun(packets, packets, [])
  {
  }

  /** A run whose data so far fills whole packets takes one more packet. */
  lemma PacketRunStep(before: seq<Packet>, now: seq<Packet>, data: seq<Byte>, p: Packet)
    requires PacketRun(before, now, data) && |data| % BULK_PACKET_SIZE == 0 && 0 < |p| <= BULK_PACKET_SIZE
    ensures PacketRun(before, now + [p], data + p)
  {
    PayloadAppend(now, p);
    LastPacket(|data|, |p|);
    hide Payload;
    forall k | |before| <= k < |now| ensures |now[k]| == BULK_PACKET_SIZE {
      if k == |now| - 1 { FullPackets(|data|); }
    }
  }

  lemma FullPackets(whole: nat)
    requires whole % BULK_PACKET_SIZE == 0 && 0 < whole
    ensures (whole - 1) % BULK_PACKET_SIZE + 1 == BULK_PACKET_SIZE
  {
  }

  lemma PacketRunPayload(before: seq<Packet>, after: seq<Packet>, data: seq<Byte>)
    requires PacketRun(before, after, data)
    ensures Payload(after) == Payload(before) + data
  {
  }

  lemma LastPacket(whole: nat, last: nat)
    requires whole % BULK_PACKET_SIZE == 0 && 0 < last <= BULK_PACKET_SIZE
    ensures (whole + last - 1) % BULK_PACKET_SIZE == last - 1
  {
  }

  class EndpointIn {
    var packets: seq<Packet>
    var faults: nat

    method Write(packet: Packet) returns (ok: bool)
      modifies this
      ensures ok ==> packets == old(packets) + [packet] && faults == old(faults)
      ensures !ok ==> packets == old(packets) && faults > old(faults)
    {
      ok := *;
      if ok { packets := packets + [packet]; } else { faults := faults + 1; }
    }

    /** `write_packets`: the data cut into bulk packets. */
    method WritePackets(data: seq<Byte>) returns (ok: bool)
      modifies this
      ensures ok ==> PacketRun(old(packets), packets, data) && faults == old(faults)
      ensures !ok ==> faults > old(faults) && exists k :: 0 <= k < |data| && Payload(packets) == Payload(old(packets)) + data[..k]
    {
      hide PacketRun, Payload;
      var at := 0;
      PacketRunStarts(packets);
      while at < |data|
        invariant at <= |data| && (at % BULK_PACKET_SIZE == 0 || at == |data|)
        invariant PacketRun(old(packets), packets, data[..at]) && faults == old(faults)
      {
        var end := if at + BULK_PACKET_SIZE < |data| then at + BULK_PACKET_SIZE else |data|;
        PacketRunStep(old(packets), packets, data[..at], data[at..end]);
        assert data[..end] == data[..at] + data[at..end];
        PacketRunPayload(old(packets), packets, data[..at]);
        ok := Write(data[at..end]);
        if !ok { return; }
        at := end;
      }
      assert data[..at] == data;
      ok := true;
    }
  }

  class EndpointOut {
    /** What the host sends, and how much of it has been taken. */
    var stream: seq<Byte>
    var received: nat
    var faults: nat

    /** One packet of exactly `count` bytes, or an error. */
    method Read(count: nat) returns (ok: bool, data: seq<Byte>)
      modifies this`received, this`faults
      ensures ok ==> received == old(received) + count <= |stream| && data == stream[old(received)..received]
      ensures ok ==> faults == old(faults)
      ensures !ok && old(received) + count <= |stream| ==> faults > old(faults)
      ensures !ok ==> received == old(received) && faults >= old(faults)
    {
      ok, data := *, [];
      if received + count > |stream| {
        ok := false;
      } else if ok {
        data := stream[received..received + count];
        received := received + count;
      } else {
        faults := faults + 1;
      }
    }

    /** `read_packets`: fill a buffer of `count` bytes from bulk packets. */
    method ReadPackets(count: nat) returns (ok: bool, data: seq<Byte>)
      requires received <= |stream|
      modifies this`received, this`faults
      ensures ok ==> received == old(received) + count <= |stream| && data == stream[old(received)..received]
      ensures ok ==> faults == old(faults)
      ensures !ok && old(received) + count <= |stream| ==> faults > old(faults)
      ensures received <= |stream|
      ensures faults >= old(faults)
    {
      data := [];
      while |data| < count
        invariant |data| <= count && received == old(received) + |data| && faults == old(faults)
        invariant received <= |stream| && data == stream[old(received)..received]
        decreases count - |data|
      {
        var wanted := if count - |data| < BULK_PACKET_SIZE then count - |data| else BULK_PACKET_SIZE;
        var packet;
        ok, packet := Read(wanted);
        if !ok { return; }
        data := data + packet;
      }
      ok := true;
    }

    /** `discard_out`: take and drop exactly `length` bytes. */
    method Discard(length: nat) returns (ok: bool)
      requires received <= |stream|
      modifies this`received, this`faults
      ensures ok ==> received == old(received) + length && faults == old(faults)
      ensures !ok && old(received) + length <= |stream| ==> faults > old(faults)
      ensures received <= |stream|
      ensures faults >= old(faults)
    {
      var left: nat := length;
      while left != 0
        invariant left <= length && received == old(received) + length - left <= |stream| && faults == old(faults)
      {
        var wanted := if left < BULK_PACKET_SIZE then left else BULK_PACKET_SIZE;
        var packet;
        ok, packet := Read(wanted);
        if !ok { return; }
        left := left - wanted;
      }
      ok := true;
    }
  }
}
