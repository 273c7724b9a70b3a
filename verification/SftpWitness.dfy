/** One session in which an append that is refused leaves part of itself behind. */
module SftpWitness {
  import opened Bytes
  import opened FatTree
  import opened FatFile
  import opened Wire
  import opened SftpVolume
  import opened SftpModel
  import opened SftpStream
  import opened SftpRequests
  import opened SftpLaws
  import Clock
  import FatTime

  /** A cluster number above all in the chain. */
  function Unused(chain: seq<nat>): (n: nat)
    ensures forall k :: k in chain ==> k < n
  {
    if chain == [] then 2
    else
      var n := Unused(chain[1..]);
      assert chain == [chain[0]] + chain[1..];
      if n > chain[0] then n else chain[0] + 1
  }

  const META := Meta(false, FatTime.FatDateTime(0, 0), 0)

  /** Clusters of 32 KiB. */
  function CardGeometry(): (g: Geometry)
    ensures GeometryOk(g)
  {
    Geometry(32768, (id, epoch, chain) => Unused(chain))
  }

  /** A card where every entry gets a new slot and every read gives all that is asked for. */
  function Card(): (env: Env)
    ensures EnvOk(env)
  {
    Env(CardGeometry(), Clock.ClockConfig(0, Clock.NoDst), name => PlainName(name), e => [], META, root => None, 0, 0,
        (root, path, stamp) => stamp, (f, at, most) => most, (root, path, cursor, count) => (None, cursor),
        (root, path, w, bytes) => Stray(false, root, AppendCursor(0, None, None, 0, 0)))
  }

  /** A file of `size` zeros. */
  function FileOf(size: nat): FatFile { FatFile(0, 0, Zeros(size), Grow(CardGeometry(), 0, 0, [], ClustersFor(CardGeometry(), size)), META) }

  lemma FileOfSound(size: nat)
    requires size <= U32_TOP
    ensures Sound(CardGeometry(), FileOf(size)) && FileOf(size).data == Zeros(size)
  {
    GrowNoRepeats(CardGeometry(), 0, 0, [], ClustersFor(CardGeometry(), size));
  }

  const LEAF: Name := [97]

  /** A file ten thousand bytes short of the largest. */
  function LongFile(): FatFile { FileOf(U32_TOP - 10000) }

  function Before(): Core {
    Core(Dir(META, [Entry(LEAF, File(LongFile()))]), 1, [FileSlot([], LEAF, false, true, true)] + seq(MAX_HANDLES - 1, _ => Free),
         seq(MAX_HANDLES, _ => 0), 0, Idle, {})
  }

  function Append(): (m: Message) {
    Be32(12025) + [FXP_WRITE] + Be32(7) + Be32(4) + Be32(0) + Be64(0) + Be32(12000) + Zeros(12000)
  }

  lemma BeforeWf()
    ensures Wf(Card(), Before())
    ensures FileAt(Before().root, [LEAF]) == Some(LongFile())
  {
    hide EnvOk, FileOf;
    FileOfSound(U32_TOP - 10000);
    assert Lookup(Before().root, [LEAF]) == Some(File(LongFile()));
  }

  lemma AppendProper()
    ensures Proper(Append()) && Kind(Append()) == FXP_WRITE && |WriteData(Append())| == 12000
    ensures IdIn(Append()) == 7 && WriteOffset(Append()) == 0 && WriteToken(Append()) == Be32(0)
  {
    hide Be32, FromBe32, Zeros;
    var m := Append();
    Be32RoundTrip(12025);
    Be32RoundTrip(7);
    Be32RoundTrip(4);
    Be32RoundTrip(0);
    Be32RoundTrip(12000);
    assert m[..4] == Be32(12025) && m[5..9] == Be32(7) && m[9..13] == Be32(4) && m[13..17] == Be32(0);
    assert m[17..21] == Be32(0) && m[21..25] == Be32(0) && m[25..29] == Be32(12000) by { ZeroOffset(); }
  }

  lemma ZeroOffset()
    ensures Be64(0) == Be32(0) + Be32(0)
  {
  }

  lemma AppendPasses()
    requires Proper(Append()) && Kind(Append()) == FXP_WRITE && WriteToken(Append()) == Be32(0) && WriteOffset(Append()) == 0
    requires |WriteData(Append())| == 12000
    ensures Before().mode.Idle?
    ensures var c, m := Before(), Append();
            CheckWrite(c, WriteToken(m), WriteOffset(m), 12000).Pass? && AppendsTo(c, m) && WriteTarget(c, m) == [LEAF]
    ensures |LongFile().data| == U32_TOP - 10000 && !LongFile().meta.readOnly
  {
    hide Append, Proper, WriteToken, WriteOffset, WriteData, Be32, FromBe32;
    Be32RoundTrip(0);
    assert SlotOf(Before(), Be32(0)) == Some(0);
    assert [] + [LEAF] == [LEAF];
  }

  /** A WRITE that is refused as too large, after which the file is 8192 bytes longer. */
  lemma RefusedYetLonger() returns (env: Env, c: Core, m: Message)
    ensures EnvOk(env) && Wf(env, c) && c.mode.Idle? && Proper(m) && FileAt(c.root, [LEAF]).Some?
    ensures var s := ServeMessage(env, c, m);
            && s.out == StatusReply(7, TOO_LARGE) && FileAt(s.core.root, [LEAF]).Some?
            && |FileAt(s.core.root, [LEAF]).value.data| == |FileAt(c.root, [LEAF]).value.data| + 8192
  {
    hide *;
    BeforeWf();
    AppendProper();
    AppendPasses();
    LateRefusal(Card(), Before(), Append());
    return Card(), Before(), Append();
  }
}
