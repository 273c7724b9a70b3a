/** Accumulating Wi-Fi scan passes into a short list (src/wifi.rs, `merge_scan_results`). */
module WifiScan {
  const MAX_SCAN_RESULTS := 8

  datatype AuthKind = Open | Wep | Wpa | Wpa2 | WpaWpa2

  datatype Network = Network(ssid: string, strength: int, auth: AuthKind, supported: bool)

  type Maxima = map<string, int>

  function Max(a: int, b: int): int { if a < b then b else a }

  /** The strongest signal seen for every SSID. */
  function Noted(best: Maxima, n: Network): Maxima {
    best[n.ssid := if n.ssid in best then Max(best[n.ssid], n.strength) else n.strength]
  }

  function BestOf(best: Maxima, seen: seq<Network>): Maxima {
    if seen == [] then best else Noted(BestOf(best, seen[..|seen| - 1]), seen[|seen| - 1])
  }

  ghost predicate Distinct(list: seq<Network>) {
    forall i, j :: 0 <= i < j < |list| ==> list[i].ssid != list[j].ssid
  }

  predicate Falling(list: seq<Network>) {
    forall i, j :: 0 <= i < j < |list| ==> list[i].strength >= list[j].strength
  }

  function Ssids(list: seq<Network>): (s: set<string>)
    ensures forall i :: 0 <= i < |list| ==> list[i].ssid in s
  {
    set i | 0 <= i < |list| :: list[i].ssid
  }

  /** `list` shows the strongest networks of `best`: distinct, sorted, exact, and nothing left out is stronger. */
  ghost predicate Top(list: seq<Network>, best: Maxima) {
    && Distinct(list)
    && Falling(list)
    && (forall i :: 0 <= i < |list| ==> list[i].ssid in best && list[i].strength == best[list[i].ssid])
    && |list| == (if |best| < MAX_SCAN_RESULTS then |best| else MAX_SCAN_RESULTS)
    && (forall s :: s in best && s !in Ssids(list) ==>
          |list| == MAX_SCAN_RESULTS && best[s] <= list[MAX_SCAN_RESULTS - 1].strength)
  }

  // ---------------------------------------------------------------------
  // Counting SSIDs
  // ---------------------------------------------------------------------

  lemma SsidAt(list: seq<Network>, s: string) returns (i: nat)
    requires s in Ssids(list)
    ensures i < |list| && list[i].ssid == s
  {
    i :| 0 <= i < |list| && list[i].ssid == s;
  }

  lemma SsidsAppend(list: seq<Network>, n: Network)
    ensures Ssids(list + [n]) == Ssids(list) + {n.ssid}
  {
    var next := list + [n];
    forall s ensures s in Ssids(next) <==> s in Ssids(list) + {n.ssid} {
      if s in Ssids(next) {
        var i := SsidAt(next, s);
        if i < |list| { assert list[i].ssid == s; }
      }
      if s in Ssids(list) {
        var i := SsidAt(list, s);
        assert next[i].ssid == s;
      }
      assert next[|list|].ssid == n.ssid;
    }
  }

  lemma {:induction false} SsidsCount(list: seq<Network>)
    ensures |Ssids(list)| <= |list|
    ensures Distinct(list) ==> |Ssids(list)| == |list|
  {
    if list != [] {
      var rest := list[..|list| - 1];
      SsidsCount(rest);
      assert list == rest + [list[|list| - 1]];
      SsidsAppend(rest, list[|list| - 1]);
      if Distinct(list) {
        assert Distinct(rest);
        assert list[|list| - 1].ssid !in Ssids(rest);
      }
    }
  }

  lemma SubsetCount(a: set<string>, b: set<string>)
    requires a <= b
    ensures |a| <= |b|
    ensures |a| == |b| ==> a == b
  {
    assert b == a + (b - a);
    assert |b| == |a| + |b - a|;
  }

  /** If `count` distinct networks of `some` reach `floor`, so do the first `count` of the sorted `all`. */
  lemma FloorReached(some: seq<Network>, all: seq<Network>, floor: int, k: nat)
    requires Distinct(some) && Falling(all) && k < |some| && k < |all|
    requires forall i :: 0 <= i < |some| ==> some[i].strength >= floor && some[i] in all
    ensures all[k].strength >= floor
  {
    if all[k].strength < floor {
      forall s | s in Ssids(some) ensures s in Ssids(all[..k]) {
        var i := SsidAt(some, s);
        var j :| 0 <= j < |all| && all[j] == some[i];
        assert j < k;
        assert all[..k][j].ssid == s;
      }
      SsidsCount(some);
      SsidsCount(all[..k]);
      SubsetCount(Ssids(some), Ssids(all[..k]));
    }
  }

  // ---------------------------------------------------------------------
  // One pass
  // ---------------------------------------------------------------------

  /** While a pass is merged into a list whose first `kept` entries had at least strength `floor`. */
  ghost predicate Merging(list: seq<Network>, best: Maxima, full: bool, floor: int) {
    && Distinct(list)
    && (forall i :: 0 <= i < |list| ==>
          list[i].ssid in best && list[i].strength <= best[list[i].ssid] &&
          (list[i].strength == best[list[i].ssid] || (full && best[list[i].ssid] <= floor)))
    && (forall s :: s in best && s !in Ssids(list) ==> full && best[s] <= floor)
    && (full ==> |list| >= MAX_SCAN_RESULTS && forall i :: 0 <= i < MAX_SCAN_RESULTS ==> list[i].strength >= floor)
  }

  lemma StartMerging(list: seq<Network>, best: Maxima)
    requires Top(list, best)
    ensures var full := |list| == MAX_SCAN_RESULTS;
            Merging(list, best, full, if full then list[MAX_SCAN_RESULTS - 1].strength else 0)
  {
  }

  function Strengthen(list: seq<Network>, i: nat, n: Network): seq<Network>
    requires i < |list|
  {
    list[i := list[i].(strength := Max(list[i].strength, n.strength))]
  }

  lemma MergeKnown(list: seq<Network>, best: Maxima, full: bool, floor: int, i: nat, n: Network)
    requires Merging(list, best, full, floor) && i < |list| && list[i].ssid == n.ssid
    ensures Merging(Strengthen(list, i, n), Noted(best, n), full, floor)
  {
    var next, best' := Strengthen(list, i, n), Noted(best, n);
    assert forall k :: 0 <= k < |list| ==> next[k].ssid == list[k].ssid;
    assert Ssids(next) == Ssids(list);
    assert forall k :: 0 <= k < |list| && k != i ==> list[k].ssid != n.ssid;
  }

  lemma MergeNew(list: seq<Network>, best: Maxima, full: bool, floor: int, n: Network)
    requires Merging(list, best, full, floor) && n.ssid !in Ssids(list)
    ensures Merging(list + [n], Noted(best, n), full, floor)
  {
    SsidsAppend(list, n);
    assert forall i :: 0 <= i < |list| ==> list[i].ssid in Ssids(list);
    hide Ssids;
  }

  function Truncated(list: seq<Network>): seq<Network> {
    if |list| <= MAX_SCAN_RESULTS then list else list[..MAX_SCAN_RESULTS]
  }

  /** After a pass into a full list the first entries of the sorted list still reach the floor. */
  lemma FloorKept(list: seq<Network>, sorted: seq<Network>, best: Maxima, floor: int, i: nat)
    requires Merging(list, best, true, floor) && i < MAX_SCAN_RESULTS && |sorted| == |list|
    requires Falling(sorted) && forall n :: n in sorted <==> n in list
    ensures sorted[i].strength >= floor
  {
    hide Ssids;
    var eight := list[..MAX_SCAN_RESULTS];
    forall k | 0 <= k < |eight| ensures eight[k].strength >= floor && eight[k] in sorted {
      assert eight[k] == list[k] && list[k] in list;
    }
    assert Distinct(eight);
    FloorReached(eight, sorted, floor, i);
  }

  /** No SSID left out of the truncated list is stronger than its last entry. */
  lemma NothingStrongerLeftOut(sorted: seq<Network>, best: Maxima, full: bool, floor: int, s: string)
    requires Falling(sorted) && s in best && s !in Ssids(Truncated(sorted))
    requires Merging(sorted, best, full, floor)
    requires full ==> |sorted| >= MAX_SCAN_RESULTS && sorted[MAX_SCAN_RESULTS - 1].strength >= floor
    ensures |Truncated(sorted)| == MAX_SCAN_RESULTS && best[s] <= sorted[MAX_SCAN_RESULTS - 1].strength
  {
    assert forall k :: 0 <= k < |Truncated(sorted)| ==> Truncated(sorted)[k] == sorted[k];
    if s in Ssids(sorted) {
      var i := SsidAt(sorted, s);
    }
  }

  /** Sorting keeps everything that is known about the list while merging. */
  lemma SortedMerging(list: seq<Network>, sorted: seq<Network>, best: Maxima, full: bool, floor: int)
    requires Merging(list, best, full, floor)
    requires multiset(sorted) == multiset(list) && Falling(sorted)
    ensures |sorted| == |list| && Merging(sorted, best, full, floor)
  {
    SameMembers(list, sorted);
    hide Ssids;
    if full {
      forall i | 0 <= i < MAX_SCAN_RESULTS ensures sorted[i].strength >= floor {
        FloorKept(list, sorted, best, floor, i);
      }
    }
    forall i | 0 <= i < |sorted|
      ensures sorted[i].ssid in best && sorted[i].strength <= best[sorted[i].ssid] &&
              (sorted[i].strength == best[sorted[i].ssid] || (full && best[sorted[i].ssid] <= floor))
    {
      assert sorted[i] in sorted;
      var k :| 0 <= k < |list| && list[k] == sorted[i];
    }
  }

  lemma SsidsWithin(list: seq<Network>, best: Maxima)
    requires forall i :: 0 <= i < |list| ==> list[i].ssid in best
    ensures Ssids(list) <= best.Keys
  {
  }

  /** The first entries are exact: one below its maximum could not have reached the floor. */
  lemma TruncatedExact(sorted: seq<Network>, best: Maxima, full: bool, floor: int)
    requires Merging(sorted, best, full, floor)
    ensures forall i :: 0 <= i < |Truncated(sorted)| ==> sorted[i].strength == best[sorted[i].ssid]
  {
    hide Ssids;
  }

  lemma TruncatedLength(sorted: seq<Network>, best: Maxima, full: bool, floor: int)
    requires Merging(sorted, best, full, floor)
    ensures |Truncated(sorted)| == (if |best| < MAX_SCAN_RESULTS then |best| else MAX_SCAN_RESULTS)
  {
    SsidsWithin(sorted, best);
    hide Ssids;
    SsidsCount(sorted);
    SubsetCount(Ssids(sorted), best.Keys);
    if !full {
      assert best.Keys <= Ssids(sorted);
      SubsetCount(best.Keys, Ssids(sorted));
    }
    assert |best.Keys| == |best|;
  }

  lemma TruncatedShape(sorted: seq<Network>)
    requires Distinct(sorted) && Falling(sorted)
    ensures Distinct(Truncated(sorted)) && Falling(Truncated(sorted))
  {
  }

  lemma LeftOutWeaker(sorted: seq<Network>, best: Maxima, full: bool, floor: int)
    requires Falling(sorted) && Merging(sorted, best, full, floor)
    ensures forall s :: s in best && s !in Ssids(Truncated(sorted)) ==>
              |Truncated(sorted)| == MAX_SCAN_RESULTS && best[s] <= sorted[MAX_SCAN_RESULTS - 1].strength
  {
    FloorAtLast(sorted, best, full, floor);
    hide Ssids, Merging, Falling, Truncated;
    forall s | s in best && s !in Ssids(Truncated(sorted))
      ensures |Truncated(sorted)| == MAX_SCAN_RESULTS && best[s] <= sorted[MAX_SCAN_RESULTS - 1].strength
    {
      NothingStrongerLeftOut(sorted, best, full, floor, s);
    }
  }

  lemma FloorAtLast(sorted: seq<Network>, best: Maxima, full: bool, floor: int)
    requires Merging(sorted, best, full, floor)
    ensures full ==> |sorted| >= MAX_SCAN_RESULTS && sorted[MAX_SCAN_RESULTS - 1].strength >= floor
  {
    hide Ssids;
  }

  lemma MergingFound(list: seq<Network>, best: Maxima, full: bool, floor: int)
    requires Merging(list, best, full, floor)
    ensures Distinct(list) && forall i :: 0 <= i < |list| ==> list[i].ssid in best
  {
    hide Ssids, Distinct;
  }

  /** Sorting and truncating after a pass loses nothing that belongs in the list. */
  lemma FinishPass(list: seq<Network>, sorted: seq<Network>, best: Maxima, full: bool, floor: int)
    requires Merging(list, best, full, floor)
    requires multiset(sorted) == multiset(list) && Falling(sorted)
    ensures Top(Truncated(sorted), best)
  {
    hide Ssids, Merging, Falling, Distinct;
    SortedMerging(list, sorted, best, full, floor);
    MergingFound(sorted, best, full, floor);
    TruncatedShape(sorted);
    TruncatedExact(sorted, best, full, floor);
    TruncatedLength(sorted, best, full, floor);
    LeftOutWeaker(sorted, best, full, floor);
  }

  lemma SameMembers(list: seq<Network>, sorted: seq<Network>)
    requires multiset(sorted) == multiset(list)
    ensures |sorted| == |list| && Ssids(sorted) == Ssids(list)
    ensures forall n :: n in sorted <==> n in list
    ensures Distinct(list) ==> Distinct(sorted)
  {
    assert |multiset(sorted)| == |multiset(list)|;
    forall n ensures n in sorted <==> n in list {
      assert n in sorted <==> n in multiset(sorted);
      assert n in list <==> n in multiset(list);
    }
    assert Ssids(sorted) == Ssids(list) by {
      forall s ensures s in Ssids(sorted) <==> s in Ssids(list) {
        if s in Ssids(sorted) { var i :| 0 <= i < |sorted| && sorted[i].ssid == s; assert sorted[i] in list; }
        if s in Ssids(list) { var i :| 0 <= i < |list| && list[i].ssid == s; assert list[i] in sorted; }
      }
    }
    if Distinct(list) {
      SsidsCount(list);
      CountedDistinct(sorted);
    }
  }

  lemma {:induction false} CountedDistinct(list: seq<Network>)
    requires |Ssids(list)| == |list|
    ensures Distinct(list)
  {
    if list != [] {
      var rest := list[..|list| - 1];
      var last := list[|list| - 1].ssid;
      assert list == rest + [list[|list| - 1]];
      SsidsAppend(rest, list[|list| - 1]);
      SsidsCount(rest);
      assert last in Ssids(rest) ==> Ssids(rest) + {last} == Ssids(rest);
      CountedDistinct(rest);
      forall i, j | 0 <= i < j < |list| ensures list[i].ssid != list[j].ssid {
        assert list[i].ssid == rest[i].ssid;
      }
    }
  }

  /** The strengths shown depend only on the maxima, not on the order or the grouping of what was seen. */
  lemma StrengthsDetermined(a: seq<Network>, b: seq<Network>, best: Maxima)
    requires Top(a, best) && Top(b, best)
    ensures forall i :: 0 <= i < |a| ==> a[i].strength == b[i].strength
  {
    forall i | 0 <= i < |a| ensures a[i].strength <= b[i].strength && b[i].strength <= a[i].strength {
      NoStronger(a, b, best, i);
      NoStronger(b, a, best, i);
    }
  }

  /** A network stronger than entry `i` stands before it. */
  lemma EarlierInOther(b: seq<Network>, best: Maxima, i: nat, s: string)
    requires Top(b, best) && i < |b| && s in best && best[s] > b[i].strength
    ensures s in Ssids(b[..i])
  {
    assert s in Ssids(b);
    var j := SsidAt(b, s);
    assert b[..i][j].ssid == s;
  }

  lemma NoStronger(a: seq<Network>, b: seq<Network>, best: Maxima, i: nat)
    requires Top(a, best) && Top(b, best) && i < |a|
    ensures a[i].strength <= b[i].strength
  {
    if a[i].strength > b[i].strength {
      var front := a[..i + 1];
      forall s | s in Ssids(front) ensures s in Ssids(b[..i]) {
        var k := SsidAt(front, s);
        assert a[k].ssid == s;
        EarlierInOther(b, best, i, s);
      }
      assert Distinct(front);
      SsidsCount(front);
      SsidsCount(b[..i]);
      SubsetCount(Ssids(front), Ssids(b[..i]));
    }
  }

  // ---------------------------------------------------------------------
  // Sorting: any falling permutation, as an unstable sort may leave ties in any order
  // ---------------------------------------------------------------------

  function Inserted(list: seq<Network>, n: Network): seq<Network> {
    if list == [] || list[0].strength <= n.strength then [n] + list else [list[0]] + Inserted(list[1..], n)
  }

  function SortedCopy(list: seq<Network>): seq<Network> {
    if list == [] then [] else Inserted(SortedCopy(list[1..]), list[0])
  }

  lemma {:induction false} InsertedMembers(list: seq<Network>, n: Network)
    ensures multiset(Inserted(list, n)) == multiset(list) + multiset{n}
    ensures forall x :: x in Inserted(list, n) ==> x == n || x in list
  {
    if !(list == [] || list[0].strength <= n.strength) {
      InsertedMembers(list[1..], n);
      assert list == [list[0]] + list[1..];
    }
  }

  lemma {:induction false} InsertedFalls(list: seq<Network>, n: Network)
    requires Falling(list)
    ensures Falling(Inserted(list, n))
  {
    if !(list == [] || list[0].strength <= n.strength) {
      InsertedFalls(list[1..], n);
      InsertedMembers(list[1..], n);
      var tail := Inserted(list[1..], n);
      forall j | 0 <= j < |tail| ensures list[0].strength >= tail[j].strength {
        assert tail[j] in tail;
      }
    }
  }

  lemma {:induction false} FallingCopyExists(list: seq<Network>)
    ensures Falling(SortedCopy(list)) && multiset(SortedCopy(list)) == multiset(list)
  {
    if list != [] {
      FallingCopyExists(list[1..]);
      InsertedFalls(SortedCopy(list[1..]), list[0]);
      InsertedMembers(SortedCopy(list[1..]), list[0]);
      assert list == [list[0]] + list[1..];
    }
  }

  class ScanList {
    var networks: seq<Network>

    constructor ()
      ensures Top(networks, map[])
    {
      networks := [];
    }

    /** Index of the entry with this SSID, or the length of the list. */
    method Find(ssid: string) returns (i: nat)
      ensures i <= |networks| && (i < |networks| ==> networks[i].ssid == ssid)
      ensures i == |networks| ==> ssid !in Ssids(networks)
    {
      i := 0;
      while i < |networks| && networks[i].ssid != ssid
        invariant i <= |networks| && forall k :: 0 <= k < i ==> networks[k].ssid != ssid
      {
        i := i + 1;
      }
    }

    method SortByStrength()
      modifies this
      ensures multiset(networks) == multiset(old(networks)) && Falling(networks)
    {
      FallingCopyExists(networks);
      var sorted: seq<Network> :| multiset(sorted) == multiset(networks) && Falling(sorted);
      networks := sorted;
    }

    /** Merge one scan pass; `best` is what had been seen before it. */
    method Merge(results: seq<Network>, ghost best: Maxima)
      requires Top(networks, best)
      modifies this
      ensures Top(networks, BestOf(best, results))
    {
      StartMerging(networks, best);
      ghost var full := |networks| == MAX_SCAN_RESULTS;
      ghost var floor := if full then networks[MAX_SCAN_RESULTS - 1].strength else 0;
      for k := 0 to |results|
        invariant Merging(networks, BestOf(best, results[..k]), full, floor)
      {
        assert results[..k + 1][..k] == results[..k];
        var network := results[k];
        BestOfNext(best, results, k);
        hide Top, Merging, BestOf, Noted;
        var i := Find(network.ssid);
        if i < |networks| {
          MergeKnown(networks, BestOf(best, results[..k]), full, floor, i, network);
          networks := Strengthen(networks, i, network);
        } else {
          MergeNew(networks, BestOf(best, results[..k]), full, floor, network);
          networks := networks + [network];
        }
      }
      assert results[..|results|] == results;
      hide Top, Merging, BestOf, Ssids;
      ghost var merged := networks;
      SortByStrength();
      FinishPass(merged, networks, BestOf(best, results), full, floor);
      networks := Truncated(networks);
    }

    /** Any number of passes from an empty list: the list is the top of everything seen. */
    method ScanPasses(passes: seq<seq<Network>>)
      requires Top(networks, map[])
      modifies this
      ensures Top(networks, BestOf(map[], Flatten(passes)))
    {
      for p := 0 to |passes|
        invariant Top(networks, BestOf(map[], Flatten(passes[..p])))
      {
        assert passes[..p + 1][..p] == passes[..p];
        BestOfConcat(map[], Flatten(passes[..p]), passes[p]);
        Merge(passes[p], BestOf(map[], Flatten(passes[..p])));
      }
      assert passes[..|passes|] == passes;
    }
  }

  lemma BestOfNext(best: Maxima, seen: seq<Network>, k: nat)
    requires k < |seen|
    ensures BestOf(best, seen[..k + 1]) == Noted(BestOf(best, seen[..k]), seen[k])
  {
    assert seen[..k + 1][..k] == seen[..k];
  }

  function Flatten(passes: seq<seq<Network>>): seq<Network> {
    if passes == [] then [] else Flatten(passes[..|passes| - 1]) + passes[|passes| - 1]
  }

  lemma {:induction false} BestOfConcat(best: Maxima, a: seq<Network>, b: seq<Network>)
    ensures BestOf(best, a + b) == BestOf(BestOf(best, a), b)
  {
    if b == [] {
      assert a + b == a;
    } else {
      BestOfConcat(best, a, b[..|b| - 1]);
      assert (a + b)[..|a + b| - 1] == a + b[..|b| - 1];
    }
  }
}
