/**
 How far a recursive copy has come, as a value: the positions of the stacked
 directories determine the part of the tree that is already copied.
 */
module CopyTree {
  import opened Bytes
  import opened FatTree

  type Contents = seq<Byte>
  type Tree = Node<Contents, ()>
  type Item = Entry<Contents, ()>

  // ---------------------------------------------------------------------
  // Source trees
  // ---------------------------------------------------------------------

  /** What a FAT directory guarantees: each name once, whatever its case, and no dot entries among the children. */
  ghost predicate NamesOk(n: Tree) {
    n.Dir? ==> EntriesOk(n.entries)
  }

  ghost predicate EntriesOk(entries: seq<Item>) {
    && Unambiguous(entries)
    && (forall i :: 0 <= i < |entries| ==> entries[i].name != DOT && entries[i].name != DOT_DOT)
    && (forall i :: 0 <= i < |entries| ==> NamesOk(entries[i].node))
  }

  /** Levels of directories, counting the tree itself. */
  function Depth(n: Tree): nat {
    if n.File? then 0 else 1 + MaxDepth(n.entries)
  }

  function MaxDepth(entries: seq<Item>): nat {
    if entries == [] then 0
    else
      var rest, last := MaxDepth(entries[..|entries| - 1]), Depth(entries[|entries| - 1].node);
      if rest < last then last else rest
  }

  /** What counting a tree adds up: directories entered and left, files started and finished, bytes. */
  datatype Weight = Weight(enter: nat, leave: nat, start: nat, finish: nat, perByte: bool)

  const STEPS := Weight(1, 1, 1, 1, true)
  const BYTES := Weight(0, 0, 0, 0, true)
  const FILES := Weight(0, 0, 0, 1, false)

  function ByteWeight(count: nat, w: Weight): nat { if w.perByte then count else 0 }

  function Weigh(n: Tree, w: Weight): nat {
    match n
    case File(data) => w.start + w.finish + ByteWeight(|data|, w)
    case Dir(_, entries) => w.enter + w.leave + WeighAll(entries, w)
  }

  function WeighAll(entries: seq<Item>, w: Weight): nat {
    if entries == [] then 0 else Weigh(entries[0].node, w) + WeighAll(entries[1..], w)
  }

  /** The contents of all files of a tree, in order. */
  function FilesIn(n: Tree): seq<Contents> {
    match n
    case File(data) => [data]
    case Dir(_, entries) => FilesInAll(entries)
  }

  function FilesInAll(entries: seq<Item>): seq<Contents> {
    if entries == [] then [] else FilesIn(entries[0].node) + FilesInAll(entries[1..])
  }

  function TotalLength(files: seq<Contents>): nat { if files == [] then 0 else |files[0]| + TotalLength(files[1..]) }

  lemma {:induction false} TotalLengthOfBoth(a: seq<Contents>, b: seq<Contents>)
    ensures TotalLength(a + b) == TotalLength(a) + TotalLength(b)
    decreases |a|
  {
    if a == [] {
      assert a + b == b;
    } else {
      assert (a + b)[1..] == a[1..] + b;
      TotalLengthOfBoth(a[1..], b);
    }
  }

  /** The totals of a copy are the number of files of the tree and of the bytes in them. */
  lemma {:induction false} TotalsCounted(n: Tree)
    ensures Weigh(n, FILES) == |FilesIn(n)| && Weigh(n, BYTES) == TotalLength(FilesIn(n))
    decreases n, 0
  {
    if n.Dir? { TotalsOfAll(n.entries); }
  }

  lemma {:induction false} TotalsOfAll(entries: seq<Item>)
    ensures WeighAll(entries, FILES) == |FilesInAll(entries)| && WeighAll(entries, BYTES) == TotalLength(FilesInAll(entries))
    decreases entries, 1
  {
    if entries != [] {
      TotalsCounted(entries[0].node);
      TotalsOfAll(entries[1..]);
      TotalLengthOfBoth(FilesIn(entries[0].node), FilesInAll(entries[1..]));
    }
  }

  /** No directory lies deeper in a tree than its depth says, and one lies that deep. */
  lemma {:induction false} DepthBounds(n: Tree, p: Path)
    requires IsDir(n, p)
    ensures |p| + 1 <= Depth(n)
    decreases p
  {
    if p != [] {
      var child := n.entries[FindIn(n.entries, p[0])].node;
      assert IsDir(child, p[1..]);
      DepthBounds(child, p[1..]);
      MaxDepthIs(n.entries);
    }
  }

  lemma {:induction false} DepthReached(n: Tree) returns (p: Path)
    requires NamesOk(n) && n.Dir?
    ensures IsDir(n, p) && |p| + 1 == Depth(n)
    decreases n
  {
    MaxDepthIs(n.entries);
    if MaxDepth(n.entries) == 0 {
      p := [];
    } else {
      var i :| 0 <= i < |n.entries| && Depth(n.entries[i].node) == MaxDepth(n.entries);
      var e := n.entries[i];
      var q := DepthReached(e.node);
      FindUnique(n.entries, e.name, i);
      p := [e.name] + q;
      assert p[1..] == q;
    }
  }

  lemma {:induction false} MaxDepthIs(entries: seq<Item>)
    ensures forall i :: 0 <= i < |entries| ==> Depth(entries[i].node) <= MaxDepth(entries)
    ensures MaxDepth(entries) > 0 ==> exists i :: 0 <= i < |entries| && Depth(entries[i].node) == MaxDepth(entries)
    decreases |entries|
  {
    if entries != [] {
      var last := |entries| - 1;
      MaxDepthIs(entries[..last]);
      forall i | 0 <= i < last
        ensures Depth(entries[i].node) <= MaxDepth(entries)
      {
        assert entries[..last][i] == entries[i];
      }
    }
  }

  // ---------------------------------------------------------------------
  // Positions: `ns[i]` is the next entry of the i-th stacked directory
  // ---------------------------------------------------------------------

  ghost predicate PosOk(s: Tree, ns: seq<nat>)
    decreases ns
  {
    && s.Dir? && ns != [] && ns[0] <= |s.entries|
    && (|ns| > 1 ==> ns[0] > 0 && PosOk(s.entries[ns[0] - 1].node, ns[1..]))
  }

  /** The source directory on top of the stack. */
  ghost function TopOf(s: Tree, ns: seq<nat>): (top: Tree)
    requires PosOk(s, ns)
    ensures top.Dir? && ns[|ns| - 1] <= |top.entries|
    decreases ns
  {
    if |ns| == 1 then s else TopOf(s.entries[ns[0] - 1].node, ns[1..])
  }

  /** Names leading from the copied directory to the top one. */
  ghost function Trail(s: Tree, ns: seq<nat>): (p: Path)
    requires PosOk(s, ns)
    ensures |p| == |ns| - 1
    decreases ns
  {
    if |ns| == 1 then [] else [s.entries[ns[0] - 1].name] + Trail(s.entries[ns[0] - 1].node, ns[1..])
  }

  /** The copy so far, when the top directory's copy is `leaf`. */
  ghost function Partial(s: Tree, ns: seq<nat>, leaf: Tree): Tree
    requires PosOk(s, ns)
    decreases ns
  {
    if |ns| == 1 then leaf
    else
      var current := s.entries[ns[0] - 1];
      Dir((), s.entries[..ns[0] - 1] + [Entry(current.name, Partial(current.node, ns[1..], leaf))])
  }

  /** What is still to be counted. */
  ghost function Left(s: Tree, ns: seq<nat>, w: Weight): nat
    requires PosOk(s, ns)
    decreases ns
  {
    WeighAll(s.entries[ns[0]..], w) + w.leave + (if |ns| > 1 then Left(s.entries[ns[0] - 1].node, ns[1..], w) else 0)
  }

  /** Everything copied so far fits `budget` levels of directories. */
  ghost predicate DepthFits(s: Tree, ns: seq<nat>, budget: nat)
    requires PosOk(s, ns)
    decreases ns
  {
    && budget > 0
    && MaxDepth(s.entries[..if |ns| > 1 then ns[0] - 1 else ns[0]]) < budget
    && (|ns| > 1 ==> DepthFits(s.entries[ns[0] - 1].node, ns[1..], budget - 1))
  }

  function Bumped(ns: seq<nat>): seq<nat>
    requires ns != []
  {
    ns[|ns| - 1 := ns[|ns| - 1] + 1]
  }

  function Popped(ns: seq<nat>): seq<nat>
    requires ns != []
  {
    ns[..|ns| - 1]
  }

  // ---------------------------------------------------------------------
  // The trail leads to the top directory, in the source and in the copy
  // ---------------------------------------------------------------------

  lemma {:induction false} TrailLookup(s: Tree, ns: seq<nat>)
    requires NamesOk(s) && PosOk(s, ns)
    ensures Lookup(s, Trail(s, ns)) == Some(TopOf(s, ns)) && NamesOk(TopOf(s, ns))
    decreases ns
  {
    if |ns| > 1 {
      var current := s.entries[ns[0] - 1];
      TrailLookup(current.node, ns[1..]);
      FindUnique(s.entries, current.name, ns[0] - 1);
    }
  }

  /** In a partial copy the directory in progress is the last entry and the only one of its name. */
  lemma FindInProgress(s: Tree, k: nat, node: Tree)
    requires NamesOk(s) && s.Dir? && k < |s.entries|
    ensures FindIn(s.entries[..k] + [Entry(s.entries[k].name, node)], s.entries[k].name) == k
  {
    FindUnique(s.entries[..k] + [Entry(s.entries[k].name, node)], s.entries[k].name, k);
  }

  lemma {:induction false} PartialLookup(s: Tree, ns: seq<nat>, leaf: Tree)
    requires NamesOk(s) && PosOk(s, ns)
    ensures Lookup(Partial(s, ns, leaf), Trail(s, ns)) == Some(leaf)
    decreases ns
  {
    if |ns| > 1 {
      var current := s.entries[ns[0] - 1];
      PartialLookup(current.node, ns[1..], leaf);
      FindInProgress(s, ns[0] - 1, Partial(current.node, ns[1..], leaf));
    }
  }

  lemma {:induction false} PartialPut(s: Tree, ns: seq<nat>, leaf: Tree, next: Tree)
    requires NamesOk(s) && PosOk(s, ns)
    ensures Lookup(Partial(s, ns, leaf), Trail(s, ns)).Some?
    ensures Put(Partial(s, ns, leaf), Trail(s, ns), next) == Partial(s, ns, next)
    decreases ns
  {
    PartialLookup(s, ns, leaf);
    if |ns| > 1 {
      var k := ns[0] - 1;
      var current := s.entries[k];
      PartialPut(current.node, ns[1..], leaf, next);
      FindInProgress(s, k, Partial(current.node, ns[1..], leaf));
      var before := s.entries[..k] + [Entry(current.name, Partial(current.node, ns[1..], leaf))];
      var after := s.entries[..k] + [Entry(current.name, Partial(current.node, ns[1..], next))];
      assert before[k := Entry(current.name, Partial(current.node, ns[1..], next))] == after;
    }
  }

  // ---------------------------------------------------------------------
  // The three moves of a copy
  // ---------------------------------------------------------------------

  /** Advancing over entry `n` of the top directory. */
  lemma {:induction false} Bump(s: Tree, ns: seq<nat>, leaf: Tree, w: Weight)
    requires PosOk(s, ns) && ns[|ns| - 1] < |TopOf(s, ns).entries|
    ensures var after := Bumped(ns);
            && PosOk(s, after) && TopOf(s, after) == TopOf(s, ns) && Trail(s, after) == Trail(s, ns)
            && Partial(s, after, leaf) == Partial(s, ns, leaf)
            && Left(s, after, w) + Weigh(TopOf(s, ns).entries[ns[|ns| - 1]].node, w) == Left(s, ns, w)
    decreases ns
  {
    if |ns| > 1 {
      Bump(s.entries[ns[0] - 1].node, ns[1..], leaf, w);
      assert Bumped(ns)[1..] == Bumped(ns[1..]);
    } else {
      assert s.entries[ns[0]..][1..] == s.entries[ns[0] + 1..];
    }
  }

  /** Entering the directory at entry `n` of the top directory. */
  lemma {:induction false} Push(s: Tree, ns: seq<nat>, leaf: Tree)
    requires PosOk(s, ns) && ns[|ns| - 1] < |TopOf(s, ns).entries|
    requires TopOf(s, ns).entries[ns[|ns| - 1]].node.Dir?
    ensures var after := Bumped(ns) + [0];
            var top, n := TopOf(s, ns), ns[|ns| - 1];
            && PosOk(s, after) && TopOf(s, after) == top.entries[n].node
            && Trail(s, after) == Trail(s, ns) + [top.entries[n].name]
            && Partial(s, after, leaf) == Partial(s, ns, Dir((), top.entries[..n] + [Entry(top.entries[n].name, leaf)]))
    decreases ns
  {
    var after := Bumped(ns) + [0];
    if |ns| > 1 {
      Push(s.entries[ns[0] - 1].node, ns[1..], leaf);
      assert after[1..] == Bumped(ns[1..]) + [0];
    } else {
      assert after[1..] == [0];
    }
  }

  lemma {:induction false} PushLeft(s: Tree, ns: seq<nat>, w: Weight)
    requires PosOk(s, ns) && ns[|ns| - 1] < |TopOf(s, ns).entries| && PosOk(s, Bumped(ns) + [0])
    requires TopOf(s, ns).entries[ns[|ns| - 1]].node.Dir?
    ensures Left(s, Bumped(ns) + [0], w) + w.enter == Left(s, ns, w)
    decreases ns
  {
    var after := Bumped(ns) + [0];
    if |ns| > 1 {
      assert after[1..] == Bumped(ns[1..]) + [0];
      PushLeft(s.entries[ns[0] - 1].node, ns[1..], w);
    } else {
      assert after[1..] == [0];
      var n := ns[0];
      var child := s.entries[n].node;
      assert s.entries[n..][1..] == s.entries[n + 1..];
      Started(child, w);
      assert WeighAll(s.entries[n..], w) == Weigh(child, w) + WeighAll(s.entries[n + 1..], w);
    }
  }

  /** Leaving a directory whose entries are all copied. */
  lemma {:induction false} Pop(s: Tree, ns: seq<nat>, w: Weight)
    requires PosOk(s, ns) && |ns| > 1 && ns[|ns| - 1] == |TopOf(s, ns).entries|
    ensures var after := Popped(ns);
            && PosOk(s, after) && TopOf(s, after).entries != [] && after[|after| - 1] > 0
            && Trail(s, after) == Trail(s, ns)[..|ns| - 2]
            && Partial(s, ns, TopOf(s, ns)) == Partial(s, after, Dir((), TopOf(s, after).entries[..after[|after| - 1]]))
            && Left(s, after, w) + w.leave == Left(s, ns, w)
    decreases ns
  {
    var after := Popped(ns);
    var current := s.entries[ns[0] - 1];
    if |ns| > 2 {
      Pop(current.node, ns[1..], w);
      assert after[1..] == Popped(ns[1..]);
    } else {
      assert ns[1..] == [ns[1]];
      assert current.node.entries[|current.node.entries|..] == [];
      assert s.entries[..ns[0] - 1] + [current] == s.entries[..ns[0]];
    }
  }

  lemma Finished(s: Tree, ns: seq<nat>, w: Weight)
    requires PosOk(s, ns) && |ns| == 1 && ns[0] == |s.entries|
    ensures Left(s, ns, w) == w.leave
    ensures Partial(s, ns, Dir((), s.entries[..ns[0]])) == s
  {
    assert s.entries[..ns[0]] == s.entries && s.entries[ns[0]..] == [];
    assert s.info == ();
  }

  lemma Started(s: Tree, w: Weight)
    requires s.Dir?
    ensures PosOk(s, [0]) && Left(s, [0], w) + w.enter == Weigh(s, w) && Trail(s, [0]) == []
  {
    assert s.entries[0..] == s.entries;
  }

  // ---------------------------------------------------------------------
  // Depth
  // ---------------------------------------------------------------------

  lemma MaxDepthNext(entries: seq<Item>, n: nat)
    requires n < |entries|
    ensures MaxDepth(entries[..n + 1]) ==
            var last := Depth(entries[n].node);
            if MaxDepth(entries[..n]) < last then last else MaxDepth(entries[..n])
  {
    assert entries[..n + 1][..n] == entries[..n];
  }

  lemma {:induction false} MaxDepthAt(entries: seq<Item>, n: nat)
    requires n < |entries|
    ensures Depth(entries[n].node) <= MaxDepth(entries)
  {
    if n < |entries| - 1 {
      MaxDepthAt(entries[..|entries| - 1], n);
    }
  }

  lemma {:induction false} BumpFits(s: Tree, ns: seq<nat>, budget: nat)
    requires PosOk(s, ns) && DepthFits(s, ns, budget) && ns[|ns| - 1] < |TopOf(s, ns).entries|
    requires TopOf(s, ns).entries[ns[|ns| - 1]].node.File? && PosOk(s, Bumped(ns))
    ensures DepthFits(s, Bumped(ns), budget)
    decreases ns
  {
    if |ns| > 1 {
      assert Bumped(ns)[1..] == Bumped(ns[1..]);
      BumpFits(s.entries[ns[0] - 1].node, ns[1..], budget - 1);
    } else {
      MaxDepthNext(s.entries, ns[0]);
    }
  }

  lemma {:induction false} PushFits(s: Tree, ns: seq<nat>, budget: nat)
    requires PosOk(s, ns) && DepthFits(s, ns, budget) && ns[|ns| - 1] < |TopOf(s, ns).entries|
    requires PosOk(s, Bumped(ns) + [0]) && |ns| < budget
    ensures DepthFits(s, Bumped(ns) + [0], budget)
    decreases ns
  {
    var after := Bumped(ns) + [0];
    if |ns| > 1 {
      assert after[1..] == Bumped(ns[1..]) + [0];
      PushFits(s.entries[ns[0] - 1].node, ns[1..], budget - 1);
    } else {
      assert after[1..] == [0];
      assert s.entries[ns[0]].node.entries[..0] == [];
    }
  }

  lemma {:induction false} PopFits(s: Tree, ns: seq<nat>, budget: nat)
    requires PosOk(s, ns) && DepthFits(s, ns, budget) && |ns| > 1 && ns[|ns| - 1] == |TopOf(s, ns).entries|
    requires PosOk(s, Popped(ns))
    ensures DepthFits(s, Popped(ns), budget)
    decreases ns
  {
    var after := Popped(ns);
    var child := s.entries[ns[0] - 1].node;
    if |ns| > 2 {
      assert after[1..] == Popped(ns[1..]);
      PopFits(child, ns[1..], budget - 1);
    } else {
      assert child.entries[..ns[1..][0]] == child.entries;
      MaxDepthNext(s.entries, ns[0] - 1);
    }
  }

  /** A stack of `|ns|` directories with a directory on top shows how deep the source is. */
  lemma {:induction false} DepthAtLeast(s: Tree, ns: seq<nat>)
    requires PosOk(s, ns)
    ensures Depth(s) >= |ns| - 1 + Depth(TopOf(s, ns))
    decreases ns
  {
    if |ns| > 1 {
      DepthAtLeast(s.entries[ns[0] - 1].node, ns[1..]);
      MaxDepthAt(s.entries, ns[0] - 1);
    }
  }
}
