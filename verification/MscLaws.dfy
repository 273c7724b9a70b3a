/** What a host can rely on about the disk without a cache, over whole sequences of events. */
module MscLaws {
  import opened Bytes
  import opened SdCard
  import opened UsbEndpoints
  import opened Msc

  // ---------------------------------------------------------------------
  // Whether there is a medium
  // ---------------------------------------------------------------------

  /** The host's "eject": START STOP UNIT with LOEJ set and START clear, and no data. */
  predicate Ejects(e: Event) { e.Command? && e.cbw.command == StartStop(true, false) && e.cbw.transferLen == 0 }

  /** The host's "load": both set. */
  predicate Loads(e: Event) { e.Command? && e.cbw.command == StartStop(true, true) && e.cbw.transferLen == 0 }

  /** No event after the first `i` attaches, detaches, ejects or loads. */
  predicate QuietFrom(events: seq<Event>, i: nat) {
    forall k :: i <= k < |events| ==> !events[k].Attach? && !events[k].Detach? && !Ejects(events[k]) && !Loads(events[k])
  }

  lemma OtherEvent(d: Disk, e: Event)
    requires HostObeys(e) && |d.blocks| < U32_LIMIT && !e.Attach? && !e.Detach?
    ensures var n := Play(d, e).0; n.attached == d.attached && (!Ejects(e) && !Loads(e) ==> n.ejected == d.ejected)
    ensures d.attached && !e.Command? ==> Play(d, e).0.blocks == d.blocks
  {
    hide DataAnswer, Splice, HostBlocks, BlockBytes, SenseResponse, CapacityResponse;
  }

  lemma LastEvent(d: Disk, events: seq<Event>)
    requires |d.blocks| < U32_LIMIT && AllObey(events) && events != []
    ensures var n := |events| - 1;
            && AllObey(events[..n]) && HostObeys(events[n])
            && var (before, answers) := PlayAll(d, events[..n]);
               var (after, last) := Play(before, events[n]);
               PlayAll(d, events) == (after, answers + last)
  {
    hide Play;
    ObeyPrefix(events, |events| - 1);
  }

  /** With an eject as the last of these events the host finds no medium. */
  lemma {:induction false} AfterEject(d: Disk, events: seq<Event>, i: nat)
    requires |d.blocks| < U32_LIMIT && AllObey(events) && i < |events| && Ejects(events[i]) && QuietFrom(events, i + 1)
    ensures PlayAll(d, events).0.Count() == 0
    decreases |events|
  {
    hide PlayAll, DataAnswer;
    LastEvent(d, events);
    var n := |events| - 1;
    if i < n {
      AfterEject(d, events[..n], i);
      EjectedStays(d, events, i);
    }
  }

  /** After an eject nothing but an attach, a detach or a load changes that the medium is out. */
  lemma {:induction false} EjectedStays(d: Disk, events: seq<Event>, i: nat)
    requires |d.blocks| < U32_LIMIT && AllObey(events) && i < |events| && Ejects(events[i]) && QuietFrom(events, i + 1)
    ensures PlayAll(d, events).0.ejected
    decreases |events|
  {
    hide PlayAll, Play;
    LastEvent(d, events);
    var n := |events| - 1;
    var before := PlayAll(d, events[..n]).0;
    if i < n {
      EjectedStays(d, events[..n], i);
      OtherEvent(before, events[n]);
    } else {
      EjectOut(before, events[n]);
    }
  }

  lemma EjectOut(d: Disk, e: Event)
    requires HostObeys(e) && |d.blocks| < U32_LIMIT && (Ejects(e) || Loads(e))
    ensures Play(d, e) == (d.(ejected := Ejects(e)), [Answer(0, Passed, [])])
  {
  }

  /** From an attach on, without a detach, the card stays attached. */
  lemma {:induction false} StaysAttached(d: Disk, events: seq<Event>, k: nat)
    requires |d.blocks| < U32_LIMIT && AllObey(events) && k < |events| && events[k].Attach?
    requires forall j :: k < j < |events| ==> !events[j].Detach?
    ensures PlayAll(d, events).0.attached
    decreases |events|
  {
    hide PlayAll, Play;
    LastEvent(d, events);
    var n := |events| - 1;
    var before := PlayAll(d, events[..n]).0;
    if k < n {
      StaysAttached(d, events[..n], k);
      if events[n].Attach? { AttachIn(before); } else { OtherEvent(before, events[n]); }
    } else {
      AttachIn(before);
    }
  }

  lemma AttachIn(d: Disk)
    requires |d.blocks| < U32_LIMIT
    ensures Play(d, Attach) == (Disk(d.blocks, true, false, NO_SENSE), [])
  {
  }

  /** With an attach, or a load while the card is attached, as the last of these events the host finds the card. */
  lemma AfterLoad(d: Disk, events: seq<Event>, k: nat, i: nat)
    requires |d.blocks| < U32_LIMIT && AllObey(events) && k <= i < |events| && events[k].Attach? && QuietFrom(events, i + 1)
    requires forall j :: k < j < |events| ==> !events[j].Detach?
    requires events[i].Attach? || Loads(events[i])
    ensures var after := PlayAll(d, events).0; after.attached && !after.ejected && after.Count() == |after.blocks|
  {
    hide PlayAll;
    StaysAttached(d, events, k);
    StaysIn(d, events, i);
  }

  lemma {:induction false} StaysIn(d: Disk, events: seq<Event>, i: nat)
    requires |d.blocks| < U32_LIMIT && AllObey(events) && i < |events| && QuietFrom(events, i + 1)
    requires events[i].Attach? || Loads(events[i])
    ensures !PlayAll(d, events).0.ejected
    decreases |events|
  {
    hide PlayAll, Play;
    LastEvent(d, events);
    var n := |events| - 1;
    var before := PlayAll(d, events[..n]).0;
    if i < n {
      StaysIn(d, events[..n], i);
      OtherEvent(before, events[n]);
    } else if events[n].Attach? {
      AttachIn(before);
    } else {
      EjectOut(before, events[n]);
    }
  }

  /** From a detach on, without an attach, there is no medium, loads or not. */
  lemma {:induction false} AfterDetach(d: Disk, events: seq<Event>, i: nat)
    requires |d.blocks| < U32_LIMIT && AllObey(events) && i < |events| && events[i].Detach?
    requires forall j :: i < j < |events| ==> !events[j].Attach?
    ensures var after := PlayAll(d, events).0; !after.attached && after.Count() == 0
    decreases |events|
  {
    hide PlayAll, Play;
    LastEvent(d, events);
    var n := |events| - 1;
    var before := PlayAll(d, events[..n]).0;
    if i < n { AfterDetach(d, events[..n], i); }
    if events[n].Detach? { DetachOut(before); } else { OtherEvent(before, events[n]); }
  }

  lemma DetachOut(d: Disk)
    requires |d.blocks| < U32_LIMIT
    ensures !Play(d, Detach).0.attached
  {
  }

  // ---------------------------------------------------------------------
  // What the host is told
  // ---------------------------------------------------------------------

  /** The answer to a command after some events. */
  function Told(d: Disk, events: seq<Event>, cbw: Cbw, payload: seq<Byte>): Answer
    requires |d.blocks| < U32_LIMIT && AllObey(events) && HostObeys(Command(cbw, payload))
  {
    Serve(PlayAll(d, events).0, cbw, payload).1
  }

  lemma ToldIsLast(d: Disk, events: seq<Event>, cbw: Cbw, payload: seq<Byte>)
    requires |d.blocks| < U32_LIMIT && AllObey(events) && HostObeys(Command(cbw, payload))
    ensures var all := events + [Command(cbw, payload)];
            AllObey(all) && PlayAll(d, all).1 == PlayAll(d, events).1 + [Told(d, events, cbw, payload)]
  {
    hide Serve;
    var all := events + [Command(cbw, payload)];
    assert all[..|events|] == events;
    LastEvent(d, all);
  }

  /** The medium is out: the unit is not ready, and nothing is read or written. */
  predicate NoMedium(cbw: Cbw, a: Answer) {
    && (cbw.command.TestUnitReady? || cbw.command.ReadCapacity? ==> a.status != Passed && a.sent == [])
    && (cbw.command.Read10? && cbw.command.blocks > 0 ==> a.status != Passed && a.sent == [])
    && (cbw.command.Write10? && cbw.command.blocks > 0 ==> a.status != Passed)
  }

  /** After an eject, or without a card. */
  lemma EjectedAnswers(d: Disk, events: seq<Event>, i: nat, cbw: Cbw, payload: seq<Byte>)
    requires |d.blocks| < U32_LIMIT && AllObey(events) && i < |events| && HostObeys(Command(cbw, payload))
    requires (Ejects(events[i]) && QuietFrom(events, i + 1)) || (events[i].Detach? && forall j :: i < j < |events| ==> !events[j].Attach?)
    ensures NoMedium(cbw, Told(d, events, cbw, payload))
  {
    hide PlayAll, DataAnswer, SenseResponse;
    if Ejects(events[i]) { AfterEject(d, events, i); } else { AfterDetach(d, events, i); }
  }

  /** A transfer of whole blocks that are all on a card of `count`. */
  predicate InRange(cbw: Cbw, lba: nat, blocks: nat, count: nat) {
    cbw.transferLen == blocks * BLOCK_LEN && lba + blocks <= count
  }

  /** The medium is there: the unit is ready and tells its size, and what is in range is read and written. */
  predicate HasMedium(cbw: Cbw, a: Answer, blocks: seq<Block>) {
    match cbw.command
    case TestUnitReady => cbw.transferLen == 0 && blocks != [] ==> a == Answer(0, Passed, [])
    case Read10(lba, n) =>
      n > 0 && cbw.directionIn && InRange(cbw, lba, n, |blocks|) ==> a == Answer(0, Passed, BlockBytes(blocks[lba..lba + n]))
    case Write10(lba, n) => !cbw.directionIn && InRange(cbw, lba, n, |blocks|) ==> a == Answer(0, Passed, [])
    case ReadCapacity =>
      cbw.directionIn && cbw.transferLen == 8 && blocks != [] ==>
        a.status == Passed && |a.sent| == 8 && FromBe32(a.sent[..4]) + 1 == |blocks| && FromBe32(a.sent[4..]) == 512
    case _ => true
  }

  /** After an attach or a load: the unit is ready, and what is in range is read from the card. */
  lemma LoadedAnswers(d: Disk, events: seq<Event>, k: nat, i: nat, cbw: Cbw, payload: seq<Byte>)
    requires |d.blocks| < U32_LIMIT && AllObey(events) && k <= i < |events| && events[k].Attach? && QuietFrom(events, i + 1)
    requires forall j :: k < j < |events| ==> !events[j].Detach?
    requires events[i].Attach? || Loads(events[i])
    requires HostObeys(Command(cbw, payload))
    ensures HasMedium(cbw, Told(d, events, cbw, payload), PlayAll(d, events).0.blocks)
  {
    hide PlayAll, SenseResponse, BlockBytes, Be32, FromBe32, Splice, HostBlocks;
    AfterLoad(d, events, k, i);
    var blocks := PlayAll(d, events).0.blocks;
    if cbw.command.ReadCapacity? && blocks != [] {
      Be32RoundTrip(|blocks| - 1);
      Be32RoundTrip(512);
      var response := CapacityResponse(|blocks|);
      assert response[..8] == response && response[..4] == Be32(|blocks| - 1) && response[4..] == Be32(512);
    }
  }

  /** What a WRITE(10) that passes has taken, the next READ(10) of the same range gives back. */
  lemma WriteReadBack(d: Disk, write: Cbw, payload: seq<Byte>, read: Cbw)
    requires |d.blocks| < U32_LIMIT && WellFormed(write) && WellFormed(read) && |payload| >= write.transferLen
    requires write.command.Write10? && read.command == Read10(write.command.lba, write.command.blocks)
    requires read.directionIn && read.transferLen == write.transferLen && Serve(d, write, payload).1.status == Passed
    ensures var after := Serve(d, write, payload).0;
            |after.blocks| == |d.blocks| && Serve(after, read, payload).1 == Answer(0, Passed, payload[..write.transferLen])
  {
    hide Splice, BlockBytes, HostBlocks;
    var lba, n := write.command.lba, write.command.blocks;
    if n > 0 {
      var sent := HostBlocks(payload, 0, 0, n);
      var after := Splice(d.blocks, lba, sent);
      assert after[lba..lba + n] == sent;
      HostBytes(payload, n);
    }
  }

  lemma {:induction false} HostBytes(payload: seq<Byte>, n: nat)
    requires n * BLOCK_LEN <= |payload|
    ensures BlockBytes(HostBlocks(payload, 0, 0, n)) == payload[..n * BLOCK_LEN]
    decreases n
  {
    if n > 0 {
      HostBytes(payload, n - 1);
      var all := HostBlocks(payload, 0, 0, n);
      assert all == HostBlocks(payload, 0, 0, n - 1) + [HostBlock(payload, 0, n - 1)];
      BlockBytesAppend(HostBlocks(payload, 0, 0, n - 1), HostBlock(payload, 0, n - 1));
      assert payload[..(n - 1) * BLOCK_LEN] + payload[(n - 1) * BLOCK_LEN..n * BLOCK_LEN] == payload[..n * BLOCK_LEN];
    }
  }

  /** REQUEST SENSE tells why the last command failed, once: fixed format, key at byte 2, code and qualifier at 12 and 13. */
  lemma SenseLaw(d: Disk, cbw: Cbw, payload: seq<Byte>)
    requires |d.blocks| < U32_LIMIT && |payload| >= cbw.transferLen
    requires cbw.command.RequestSense? && cbw.directionIn && cbw.transferLen == 18
    ensures var (after, a) := Serve(d, cbw, payload);
            && after == d.(sense := NO_SENSE) && a.status == Passed && a.residue == 0 && |a.sent| == 18 && a.sent[0] == 0x70 && a.sent[7] == 10
            && a.sent[2] == d.sense.key % 256 && a.sent[12] == d.sense.asc % 256 && a.sent[13] == d.sense.ascq % 256
  {
    assert SenseResponse(d.sense)[..18] == SenseResponse(d.sense);
  }

  /** A unit without a medium is not ready (2/3A/0); a range beyond the card is an invalid field (5/24/0). */
  lemma FailuresSensed(d: Disk, cbw: Cbw, payload: seq<Byte>)
    requires |d.blocks| < U32_LIMIT && |payload| >= cbw.transferLen
    ensures var (after, a) := Serve(d, cbw, payload);
            && (d.Count() == 0 && (cbw.command.TestUnitReady? || cbw.command.ReadCapacity?) && a.status == Failed ==> after.sense == Sense(2, 0x3a, 0))
            && ((cbw.command.Read10? || cbw.command.Write10?) && a.status == Failed ==> after.sense == Sense(5, 0x24, 0))
            && (cbw.command.Unsupported? ==> a.status == Failed && after.sense == Sense(5, 0x20, 0))
  {
    hide DataAnswer, Splice, HostBlocks, BlockBytes;
  }
}
