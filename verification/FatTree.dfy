/**
 A FAT volume as a tree of named entries. Names are bytes and match ignoring
 ASCII case, as `eq_ignore_ascii_case` does. `F` is what a file holds and `D`
 what a directory entry records besides its children.
 */
module FatTree {
  import opened Bytes

  type Name = seq<Byte>
  type Path = seq<Name>

  /** Names every directory but the root has for itself and the one above it. */
  const DOT: Name := [46]
  const DOT_DOT: Name := [46, 46]

  datatype Option<+T> = None | Some(value: T)

  datatype Node<F, D> = File(file: F) | Dir(info: D, entries: seq<Entry<F, D>>)

  datatype Entry<F, D> = Entry(name: Name, node: Node<F, D>)

  // ---------------------------------------------------------------------
  // Names and paths
  // ---------------------------------------------------------------------

  function Lower(b: Byte): Byte { if 65 <= b <= 90 then b + 32 else b }

  function Fold(name: Name): Name { seq(|name|, i requires 0 <= i < |name| => Lower(name[i])) }

  predicate SameName(a: Name, b: Name) { Fold(a) == Fold(b) }

  predicate Letter(b: Byte) { 65 <= b <= 90 || 97 <= b <= 122 }

  /** Names match byte for byte, or where one has a letter and the other the same letter in the other case. */
  lemma SameNameExact(a: Name, b: Name)
    ensures SameName(a, b) <==>
            |a| == |b| && forall i :: 0 <= i < |a| ==> a[i] == b[i] || (Letter(a[i]) && Letter(b[i]) && (a[i] == b[i] + 32 || b[i] == a[i] + 32))
  {
    if SameName(a, b) {
      forall i | 0 <= i < |a|
        ensures a[i] == b[i] || (Letter(a[i]) && Letter(b[i]) && (a[i] == b[i] + 32 || b[i] == a[i] + 32))
      {
        assert Fold(a)[i] == Fold(b)[i];
      }
    }
  }

  /** `inside`: `path` is `ancestor` or lies below it. */
  predicate Inside(path: Path, ancestor: Path) {
    |path| >= |ancestor| && forall i :: 0 <= i < |ancestor| ==> SameName(path[i], ancestor[i])
  }

  predicate SamePath(a: Path, b: Path) { |a| == |b| && Inside(a, b) }

  /** Neither path lies inside the other. */
  predicate Apart(a: Path, b: Path) { !Inside(a, b) && !Inside(b, a) }

  /** Each name once, whatever its case. */
  predicate Unambiguous<F, D>(entries: seq<Entry<F, D>>) {
    forall i, j :: 0 <= i < j < |entries| ==> !SameName(entries[i].name, entries[j].name)
  }

  lemma ApartStep(a: Path, b: Path)
    requires Apart(a, b)
    ensures a != [] && b != [] && (!SameName(a[0], b[0]) || Apart(a[1..], b[1..]))
  {
    if SameName(a[0], b[0]) {
      InsideStep(a, b);
      InsideStep(b, a);
    }
  }

  lemma InsideStep(a: Path, b: Path)
    requires a != [] && b != [] && SameName(a[0], b[0])
    ensures Inside(a, b) <==> Inside(a[1..], b[1..])
  {
    if Inside(a[1..], b[1..]) {
      forall i | 0 <= i < |b| ensures SameName(a[i], b[i]) {
        if i > 0 { assert SameName(a[1..][i - 1], b[1..][i - 1]); }
      }
    }
  }

  lemma InsideOneMore(path: Path, dir: Path, name: Name)
    requires Inside(path, dir) && !Inside(dir, path)
    ensures |path| > |dir| && (Inside(path, dir + [name]) <==> SameName(path[|dir|], name))
  {
    assert |path| == |dir| ==> SamePath(dir, path);
    assert (dir + [name])[|dir|] == name;
    if SameName(path[|dir|], name) {
      forall i | 0 <= i < |dir + [name]| ensures SameName(path[i], (dir + [name])[i]) {
      }
    }
  }

  lemma ApartExtends(a: Path, b: Path, more: Path)
    requires Apart(a, b)
    ensures Apart(a + more, b) && Apart(a, b + more)
  {
    if Inside(a + more, b) {
      if |a| >= |b| {
        forall i | 0 <= i < |b| ensures SameName(a[i], b[i]) { assert SameName((a + more)[i], b[i]); }
      } else {
        forall i | 0 <= i < |a| ensures SameName(b[i], a[i]) { assert SameName((a + more)[i], b[i]); }
      }
    }
    if Inside(b, a + more) {
      forall i | 0 <= i < |a| ensures SameName(b[i], a[i]) { assert SameName(b[i], (a + more)[i]); }
    }
    if Inside(a, b + more) {
      forall i | 0 <= i < |b| ensures SameName(a[i], b[i]) { assert SameName(a[i], (b + more)[i]); }
    }
    if Inside(b + more, a) {
      if |b| >= |a| {
        forall i | 0 <= i < |a| ensures SameName(b[i], a[i]) { assert SameName((b + more)[i], a[i]); }
      } else {
        forall i | 0 <= i < |b| ensures SameName(a[i], b[i]) { assert SameName((b + more)[i], a[i]); }
      }
    }
  }

  // ---------------------------------------------------------------------
  // Finding and replacing nodes
  // ---------------------------------------------------------------------

  /** Index of the first entry with this name, or the number of entries. */
  function FindIn<F, D>(entries: seq<Entry<F, D>>, name: Name): (i: nat)
    ensures i <= |entries|
    ensures i < |entries| ==> SameName(entries[i].name, name)
    ensures forall k :: 0 <= k < i ==> !SameName(entries[k].name, name)
  {
    if entries == [] then 0
    else if SameName(entries[0].name, name) then 0
    else 1 + FindIn(entries[1..], name)
  }

  predicate Holds<F, D>(entries: seq<Entry<F, D>>, name: Name) { FindIn(entries, name) < |entries| }

  function Lookup<F, D>(root: Node<F, D>, path: Path): Option<Node<F, D>>
    decreases path
  {
    if path == [] then Some(root)
    else if root.File? then None
    else
      var i := FindIn(root.entries, path[0]);
      if i == |root.entries| then None else Lookup(root.entries[i].node, path[1..])
  }

  function Put<F, D>(root: Node<F, D>, path: Path, node: Node<F, D>): Node<F, D>
    requires Lookup(root, path).Some?
    decreases path
  {
    if path == [] then node
    else
      var i := FindIn(root.entries, path[0]);
      var child := root.entries[i];
      root.(entries := root.entries[i := child.(node := Put(child.node, path[1..], node))])
  }

  lemma FindUnique<F, D>(entries: seq<Entry<F, D>>, name: Name, i: nat)
    requires i < |entries| && SameName(entries[i].name, name)
    requires forall k :: 0 <= k < i ==> !SameName(entries[k].name, name)
    ensures FindIn(entries, name) == i
  {
  }

  lemma FindSameNames<F, D>(a: seq<Entry<F, D>>, b: seq<Entry<F, D>>, name: Name)
    requires |a| == |b| && forall k :: 0 <= k < |a| ==> a[k].name == b[k].name
    ensures FindIn(a, name) == FindIn(b, name)
  {
    if FindIn(a, name) < |a| { FindUnique(b, name, FindIn(a, name)); }
    if FindIn(b, name) < |b| { FindUnique(a, name, FindIn(b, name)); }
  }

  lemma {:induction false} LookupPut<F, D>(root: Node<F, D>, path: Path, node: Node<F, D>)
    requires Lookup(root, path).Some?
    ensures Lookup(Put(root, path, node), path) == Some(node)
    decreases path
  {
    if path != [] {
      var i := FindIn(root.entries, path[0]);
      LookupPut(root.entries[i].node, path[1..], node);
      FindSameNames(root.entries, Put(root, path, node).entries, path[0]);
    }
  }

  lemma {:induction false} PutPut<F, D>(root: Node<F, D>, path: Path, a: Node<F, D>, b: Node<F, D>)
    requires Lookup(root, path).Some?
    ensures Lookup(Put(root, path, a), path).Some? && Put(Put(root, path, a), path, b) == Put(root, path, b)
    decreases path
  {
    LookupPut(root, path, a);
    if path != [] {
      var i := FindIn(root.entries, path[0]);
      PutPut(root.entries[i].node, path[1..], a, b);
      FindSameNames(root.entries, Put(root, path, a).entries, path[0]);
    }
  }

  lemma {:induction false} PutSame<F, D>(root: Node<F, D>, path: Path)
    requires Lookup(root, path).Some?
    ensures Put(root, path, Lookup(root, path).value) == root
    decreases path
  {
    if path != [] {
      var i := FindIn(root.entries, path[0]);
      PutSame(root.entries[i].node, path[1..]);
    }
  }

  lemma {:induction false} LookupConcat<F, D>(root: Node<F, D>, path: Path, more: Path)
    requires Lookup(root, path).Some?
    ensures Lookup(root, path + more) == Lookup(Lookup(root, path).value, more)
    decreases path
  {
    if path == [] {
      assert path + more == more;
    } else {
      var i := FindIn(root.entries, path[0]);
      assert (path + more)[1..] == path[1..] + more;
      LookupConcat(root.entries[i].node, path[1..], more);
    }
  }

  lemma {:induction false} LookupPrefix<F, D>(root: Node<F, D>, path: Path, more: Path)
    requires Lookup(root, path + more).Some?
    ensures Lookup(root, path).Some?
    ensures more != [] ==> Lookup(root, path).value.Dir?
    decreases path
  {
    if path == [] {
      assert path + more == more;
    } else {
      var i := FindIn(root.entries, path[0]);
      assert (path + more)[1..] == path[1..] + more;
      LookupPrefix(root.entries[i].node, path[1..], more);
    }
  }

  lemma {:induction false} PutConcat<F, D>(root: Node<F, D>, path: Path, more: Path, node: Node<F, D>)
    requires Lookup(root, path).Some? && Lookup(Lookup(root, path).value, more).Some?
    ensures Lookup(root, path + more).Some?
    ensures Put(root, path + more, node) == Put(root, path, Put(Lookup(root, path).value, more, node))
    decreases path
  {
    LookupConcat(root, path, more);
    if path == [] {
      assert path + more == more;
    } else {
      var i := FindIn(root.entries, path[0]);
      assert (path + more)[1..] == path[1..] + more;
      PutConcat(root.entries[i].node, path[1..], more, node);
    }
  }

  /** Replacing a node changes nothing off its path. */
  lemma {:induction false} LookupPutApart<F, D>(root: Node<F, D>, path: Path, node: Node<F, D>, other: Path)
    requires Lookup(root, path).Some? && Apart(path, other)
    ensures Lookup(Put(root, path, node), other) == Lookup(root, other)
    decreases path
  {
    ApartStep(path, other);
    var i := FindIn(root.entries, path[0]);
    FindSameNames(root.entries, Put(root, path, node).entries, other[0]);
    if SameName(path[0], other[0]) {
      assert FindIn(root.entries, other[0]) == i by { FindUnique(root.entries, other[0], i); }
      LookupPutApart(root.entries[i].node, path[1..], node, other[1..]);
    }
  }

  lemma {:induction false} LookupSamePath<F, D>(root: Node<F, D>, a: Path, b: Path)
    requires SamePath(a, b)
    ensures Lookup(root, a) == Lookup(root, b)
    decreases a
  {
    if a != [] && root.Dir? {
      var i := FindIn(root.entries, a[0]);
      if i < |root.entries| {
        FindUnique(root.entries, b[0], i);
        InsideStep(a, b);
        LookupSamePath(root.entries[i].node, a[1..], b[1..]);
      } else if FindIn(root.entries, b[0]) < |root.entries| {
        FindUnique(root.entries, a[0], FindIn(root.entries, b[0]));
      }
    }
  }

  lemma {:induction false} PutSamePath<F, D>(root: Node<F, D>, a: Path, b: Path, node: Node<F, D>)
    requires SamePath(a, b) && Lookup(root, a).Some?
    ensures Lookup(root, b).Some? && Put(root, a, node) == Put(root, b, node)
    decreases a
  {
    LookupSamePath(root, a, b);
    if a != [] {
      var i := FindIn(root.entries, a[0]);
      FindUnique(root.entries, b[0], i);
      InsideStep(a, b);
      PutSamePath(root.entries[i].node, a[1..], b[1..], node);
    }
  }

  // ---------------------------------------------------------------------
  // Adding and removing entries of a directory
  // ---------------------------------------------------------------------

  predicate IsDir<F, D>(root: Node<F, D>, path: Path) {
    var n := Lookup(root, path);
    n.Some? && n.value.Dir?
  }

  /** A new entry at the end of the directory at `dir`. */
  function Added<F, D>(root: Node<F, D>, dir: Path, entry: Entry<F, D>): Node<F, D>
    requires IsDir(root, dir)
  {
    var d := Lookup(root, dir).value;
    Put(root, dir, d.(entries := d.entries + [entry]))
  }

  lemma FindAppended<F, D>(entries: seq<Entry<F, D>>, entry: Entry<F, D>, name: Name)
    ensures FindIn(entries + [entry], name) ==
            if Holds(entries, name) then FindIn(entries, name)
            else if SameName(entry.name, name) then |entries| else |entries| + 1
  {
    var all := entries + [entry];
    if Holds(entries, name) {
      FindUnique(all, name, FindIn(entries, name));
    } else if SameName(entry.name, name) {
      FindUnique(all, name, |entries|);
    }
  }

  /** The added entry is found, and every other path but those above it leads where it did. */
  lemma {:induction false} LookupAdded<F, D>(root: Node<F, D>, dir: Path, entry: Entry<F, D>, path: Path)
    requires IsDir(root, dir) && !Holds(Lookup(root, dir).value.entries, entry.name)
    ensures !Inside(path, dir + [entry.name]) && !Inside(dir, path) ==>
              Lookup(Added(root, dir, entry), path) == Lookup(root, path)
    decreases dir
  {
    var d := Lookup(root, dir).value;
    var grown := d.(entries := d.entries + [entry]);
    if !Inside(path, dir + [entry.name]) && !Inside(dir, path) {
      if Apart(dir, path) {
        LookupPutApart(root, dir, grown, path);
      } else {
        var rest := path[|dir|..];
        assert path == path[..|dir|] + rest && SamePath(path[..|dir|], dir);
        LookupSamePath(root, path[..|dir|], dir);
        LookupPut(root, dir, grown);
        LookupSamePath(Added(root, dir, entry), path[..|dir|], dir);
        LookupConcat(root, path[..|dir|], rest);
        LookupConcat(Added(root, dir, entry), path[..|dir|], rest);
        InsideOneMore(path, dir, entry.name);
        FindAppended(d.entries, entry, rest[0]);
      }
    }
  }

  lemma LookupAddedEntry<F, D>(root: Node<F, D>, dir: Path, entry: Entry<F, D>)
    requires IsDir(root, dir) && !Holds(Lookup(root, dir).value.entries, entry.name)
    ensures Lookup(Added(root, dir, entry), dir + [entry.name]) == Some(entry.node)
  {
    var d := Lookup(root, dir).value;
    var grown := d.(entries := d.entries + [entry]);
    LookupPut(root, dir, grown);
    LookupConcat(Added(root, dir, entry), dir, [entry.name]);
    FindAppended(d.entries, entry, entry.name);
  }

  /** Replacing inside an added entry is adding the replaced entry. */
  lemma PutAdded<F, D>(root: Node<F, D>, dir: Path, entry: Entry<F, D>, more: Path, node: Node<F, D>)
    requires IsDir(root, dir) && !Holds(Lookup(root, dir).value.entries, entry.name)
    requires Lookup(entry.node, more).Some?
    ensures var added := Added(root, dir, entry);
            Lookup(added, dir + [entry.name] + more) == Lookup(entry.node, more) &&
            Put(added, dir + [entry.name] + more, node) == Added(root, dir, entry.(node := Put(entry.node, more, node)))
  {
    var added := Added(root, dir, entry);
    var d := Lookup(root, dir).value;
    var grown := d.(entries := d.entries + [entry]);
    LookupAddedEntry(root, dir, entry);
    LookupConcat(added, dir + [entry.name], more);
    PutConcat(added, dir + [entry.name], more, node);
    LookupPut(root, dir, grown);
    var inner := Put(entry.node, more, node);
    FindAppended(d.entries, entry, entry.name);
    assert Lookup(grown, [entry.name]) == Some(entry.node);
    PutConcat(added, dir, [entry.name], inner);
    assert grown.entries[|d.entries| := entry.(node := inner)] == d.entries + [entry.(node := inner)];
    PutPut(root, dir, grown, d.(entries := d.entries + [entry.(node := inner)]));
  }

  /** Nothing that exists lies below a path that does not. */
  lemma NothingBelow<F, D>(root: Node<F, D>, path: Path, missing: Path)
    requires Lookup(root, path).Some? && Lookup(root, missing).None?
    ensures !Inside(path, missing)
  {
    if Inside(path, missing) {
      SplitInside(path, missing);
      LookupPrefix(root, path[..|missing|], path[|missing|..]);
      LookupSamePath(root, path[..|missing|], missing);
    }
  }

  lemma NewNameFree<F, D>(root: Node<F, D>, path: Path)
    requires path != [] && IsDir(root, path[..|path| - 1]) && Lookup(root, path).None?
    ensures !Holds(Lookup(root, path[..|path| - 1]).value.entries, path[|path| - 1])
  {
    assert path[..|path| - 1] + [path[|path| - 1]] == path;
    LookupConcat(root, path[..|path| - 1], [path[|path| - 1]]);
  }

  lemma SplitInside(p: Path, q: Path)
    requires Inside(p, q)
    ensures p == p[..|q|] + p[|q|..] && SamePath(p[..|q|], q)
  {
  }

  lemma BelowReplaced<F, D>(root: Node<F, D>, dir: Path, d: Node<F, D>, p: Path)
    requires Lookup(root, dir) == Some(d) && Inside(p, dir)
    ensures Lookup(root, p) == Lookup(d, p[|dir|..])
  {
    SplitInside(p, dir);
    LookupSamePath(root, p[..|dir|], dir);
    LookupConcat(root, p[..|dir|], p[|dir|..]);
  }

  /** The directory at `dir` without its entry `name`. */
  function Removed<F, D>(root: Node<F, D>, dir: Path, name: Name): Node<F, D>
    requires IsDir(root, dir) && Holds(Lookup(root, dir).value.entries, name)
  {
    var d := Lookup(root, dir).value;
    Put(root, dir, d.(entries := Without(d.entries, FindIn(d.entries, name))))
  }

  function Without<F, D>(entries: seq<Entry<F, D>>, i: nat): seq<Entry<F, D>>
    requires i < |entries|
  {
    entries[..i] + entries[i + 1..]
  }

  lemma FindAfterRemoval<F, D>(entries: seq<Entry<F, D>>, i: nat, name: Name)
    requires i < |entries| && !SameName(entries[i].name, name)
    ensures var left := Without(entries, i);
            if Holds(entries, name) then Holds(left, name) && left[FindIn(left, name)] == entries[FindIn(entries, name)]
            else !Holds(left, name)
  {
    var left := Without(entries, i);
    var k := FindIn(entries, name);
    if k < |entries| { FindUnique(left, name, if k < i then k else k - 1); }
  }

  /** Where no name comes twice, a removed name is gone. */
  lemma OnceRemoved<F, D>(entries: seq<Entry<F, D>>, name: Name)
    requires Unambiguous(entries) && Holds(entries, name)
    ensures !Holds(Without(entries, FindIn(entries, name)), name)
  {
    var i := FindIn(entries, name);
    var left := Without(entries, i);
    assert forall j :: 0 <= j < |left| ==> left[j] == entries[if j < i then j else j + 1];
    assert forall j :: 0 <= j < |entries| && j != i ==> !SameName(entries[j].name, name);
  }

  lemma NotNamed(p: Path, dir: Path, name: Name, found: Name)
    requires Inside(p, dir) && |p| > |dir| && !Inside(p, dir + [name]) && SameName(found, name)
    ensures !SameName(found, p[|dir|])
  {
  }

  /** Removing an entry changes no path that does not lead through it, except to the directories above it. */
  lemma LookupRemoved<F, D>(root: Node<F, D>, dir: Path, name: Name, p: Path)
    requires IsDir(root, dir) && Holds(Lookup(root, dir).value.entries, name)
    requires !Inside(p, dir + [name]) && !Inside(dir, p)
    ensures Lookup(Removed(root, dir, name), p) == Lookup(root, p)
  {
    var d := Lookup(root, dir).value;
    var i := FindIn(d.entries, name);
    var left := d.(entries := Without(d.entries, i));
    if Inside(p, dir) {
      assert |p| > |dir| by { Longer(p, dir); }
      BelowReplaced(root, dir, d, p);
      LookupPut(root, dir, left);
      BelowReplaced(Put(root, dir, left), dir, left, p);
      hide Put, Inside, SamePath, Without;
      NotNamed(p, dir, name, d.entries[i].name);
      FindAfterRemoval(d.entries, i, p[|dir|]);
    } else {
      hide Inside, FindIn, SameName, Put;
      LookupPutApart(root, dir, left, p);
    }
  }

  /** Removing an entry keeps every directory that is not the entry or below it. */
  lemma DirAfterRemoved<F, D>(root: Node<F, D>, dir: Path, name: Name, p: Path)
    requires IsDir(root, dir) && Holds(Lookup(root, dir).value.entries, name)
    requires IsDir(root, p) && !Inside(p, dir + [name])
    ensures IsDir(Removed(root, dir, name), p)
  {
    if Inside(dir, p) {
      var d := Lookup(root, dir).value;
      var left := d.(entries := Without(d.entries, FindIn(d.entries, name)));
      SplitInside(dir, p);
      LookupPut(root, dir, left);
      var front, rest := dir[..|p|], dir[|p|..];
      LookupPrefix(Removed(root, dir, name), front, rest);
      LookupSamePath(Removed(root, dir, name), front, p);
      if rest == [] { LookupSamePath(Removed(root, dir, name), p, dir); }
    } else {
      LookupRemoved(root, dir, name, p);
    }
  }

  lemma BelowStaysBelow(dir: Path, name: Name, ancestor: Path)
    requires Inside(dir, ancestor)
    ensures Inside(dir + [name], ancestor)
  {
  }

  lemma Longer(p: Path, dir: Path)
    requires Inside(p, dir) && !Inside(dir, p)
    ensures |p| > |dir|
  {
  }

  /** Adding a name does not hide what is elsewhere: `source` is not where the new entry is, nor above it. */
  lemma AddedKeeps<F, D>(root: Node<F, D>, parent: Path, entry: Entry<F, D>, source: Path)
    requires IsDir(root, parent) && Lookup(root, parent + [entry.name]).None? && Lookup(root, source).Some? && !Inside(parent, source)
    ensures !Holds(Lookup(root, parent).value.entries, entry.name)
    ensures Lookup(Added(root, parent, entry), source) == Lookup(root, source)
  {
    LookupConcat(root, parent, [entry.name]);
    NothingBelow(root, source, parent + [entry.name]);
    LookupAdded(root, parent, entry, source);
  }
}
