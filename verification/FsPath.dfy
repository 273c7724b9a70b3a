/** Slash-separated paths and component lists (src/fspath.rs). */
module FsPath {
  import opened Bytes
  import opened FatTree

  const SLASH: Byte := 47

  /** The pieces between slashes; there is always at least one. */
  function Split(path: seq<Byte>): (parts: seq<Name>)
    ensures parts != []
  {
    if path == [] then [[]]
    else
      var rest := Split(path[1..]);
      if path[0] == SLASH then [[]] + rest else [[path[0]] + rest[0]] + rest[1..]
  }

  /** One component applied to a position: empty and `.` stay, `..` goes up but not above the root. */
  function Applied(at: Path, component: Name): Path {
    if component == [] || component == DOT then at
    else if component == DOT_DOT then (if at == [] then [] else at[..|at| - 1])
    else at + [component]
  }

  function Walk(at: Path, components: seq<Name>): Path
    decreases components
  {
    if components == [] then at else Walk(Applied(at, components[0]), components[1..])
  }

  function Resolved(base: Path, path: seq<Byte>): Path {
    Walk(if path != [] && path[0] == SLASH then [] else base, Split(path))
  }

  function Joined(components: Path): seq<Byte> {
    if components == [] then [] else [SLASH] + components[0] + Joined(components[1..])
  }

  function Displayed(components: Path): seq<Byte> {
    if components == [] then [SLASH] else Joined(components)
  }

  /** `resolve`: the components pushed and popped one by one. */
  method Resolve(base: Path, path: seq<Byte>) returns (result: Path)
    ensures result == Resolved(base, path)
  {
    result := if path != [] && path[0] == SLASH then [] else base;
    var components := Split(path);
    ghost var start := result;
    for i := 0 to |components|
      invariant Walk(result, components[i..]) == Walk(start, components)
    {
      var component := components[i];
      assert components[i..][1..] == components[i + 1..];
      if component == [] || component == DOT {
      } else if component == DOT_DOT {
        if result != [] { result := result[..|result| - 1]; }
      } else {
        result := result + [component];
      }
    }
  }

  /** `display`: the text grown one component at a time. */
  method Display(components: Path) returns (text: seq<Byte>)
    ensures text == Displayed(components)
  {
    if components == [] { return [SLASH]; }
    text := [];
    for i := 0 to |components|
      invariant text + Joined(components[i..]) == Joined(components)
    {
      assert components[i..][1..] == components[i + 1..];
      text := text + [SLASH] + components[i];
    }
  }

  // ---------------------------------------------------------------------
  // Canonical paths
  // ---------------------------------------------------------------------

  /** A component a resolved path can have. */
  predicate Plain(name: Name) { name != [] && name != DOT && name != DOT_DOT && SLASH !in name }

  ghost predicate Normal(path: Path) { forall i :: 0 <= i < |path| ==> Plain(path[i]) }

  lemma {:induction false} SplitHasNoSlash(path: seq<Byte>)
    ensures forall i :: 0 <= i < |Split(path)| ==> SLASH !in Split(path)[i]
  {
    if path != [] { SplitHasNoSlash(path[1..]); }
  }

  lemma {:induction false} WalkIsNormal(at: Path, components: seq<Name>)
    requires Normal(at) && forall i :: 0 <= i < |components| ==> SLASH !in components[i]
    ensures Normal(Walk(at, components))
    decreases components
  {
    if components != [] { WalkIsNormal(Applied(at, components[0]), components[1..]); }
  }

  lemma ResolvedIsNormal(base: Path, path: seq<Byte>)
    requires Normal(base)
    ensures Normal(Resolved(base, path))
  {
    SplitHasNoSlash(path);
    WalkIsNormal(if path != [] && path[0] == SLASH then [] else base, Split(path));
  }

  lemma {:induction false} SplitPiece(piece: Name, rest: seq<Byte>)
    requires SLASH !in piece
    ensures Split(piece + [SLASH] + rest) == [piece] + Split(rest)
    ensures Split(piece) == [piece]
  {
    if piece == [] {
      assert [] + [SLASH] + rest == [SLASH] + rest;
    } else {
      SplitPiece(piece[1..], rest);
      assert (piece + [SLASH] + rest)[1..] == piece[1..] + [SLASH] + rest;
      assert piece == [piece[0]] + piece[1..];
    }
  }

  lemma PlainHasNoSlash(name: Name)
    requires Plain(name)
    ensures SLASH !in name
  {
  }

  lemma JoinedFirst(first: Name, rest: Path)
    ensures Joined([first] + rest) == [SLASH] + first + Joined(rest)
  {
    assert ([first] + rest)[1..] == rest;
  }

  lemma {:induction false} SplitJoined(components: Path)
    requires Normal(components) && components != []
    ensures Joined(components) != [] && Joined(components)[0] == SLASH && Split(Joined(components)[1..]) == components
  {
    var first, rest := components[0], components[1..];
    assert components == [first] + rest;
    JoinedFirst(first, rest);
    PlainHasNoSlash(first);
    assert Joined(components)[1..] == first + Joined(rest);
    if rest == [] {
      SplitPiece(first, []);
      assert first + [] == first;
    } else {
      SplitJoined(rest);
      hide Joined, Split, Plain;
      var tail := Joined(rest)[1..];
      assert first + Joined(rest) == first + [SLASH] + tail;
      SplitPiece(first, tail);
    }
  }

  lemma {:induction false} WalkNormal(at: Path, components: Path)
    requires Normal(components)
    ensures Walk(at, components) == at + components
    decreases components
  {
    if components != [] { WalkNormal(at + [components[0]], components[1..]); }
  }

  function TwoEmpty(): seq<Name> { [[], []] }

  lemma WalkEmpty(at: Path)
    ensures Walk(at, TwoEmpty()) == at
  {
    assert TwoEmpty()[1..] == [[]];
    assert Walk(at, [[]]) == at;
  }

  /** Displaying and resolving again gives the same components: what REALPATH answers is canonical. */
  lemma DisplayRoundTrip(components: Path)
    requires Normal(components)
    ensures Resolved([], Displayed(components)) == components
  {
    if components == [] {
      assert [SLASH][1..] == [];
      assert Split([SLASH]) == TwoEmpty();
      assert TwoEmpty()[1..] == [[]];
      WalkEmpty([]);
    } else {
      SplitJoined(components);
      var text := Joined(components);
      assert text == [SLASH] + text[1..];
      assert Split(text) == [[]] + components;
      assert Walk([], [[]] + components) == Walk([], components) by { assert ([[]] + components)[1..] == components; }
      WalkNormal([], components);
    }
  }

  // ---------------------------------------------------------------------
  // What each component does
  // ---------------------------------------------------------------------

  lemma SplitFirst(c: Byte, rest: seq<Byte>)
    ensures Split([c] + rest) == if c == SLASH then [[]] + Split(rest) else [[c] + Split(rest)[0]] + Split(rest)[1..]
  {
    assert ([c] + rest)[1..] == rest;
  }

  lemma {:induction false} SplitBehindSlash(path: seq<Byte>, more: seq<Byte>)
    ensures Split(path + [SLASH] + more) == Split(path) + Split(more)
  {
    if path == [] {
      assert [] + [SLASH] + more == [SLASH] + more;
      SplitFirst(SLASH, more);
    } else {
      var c, rest := path[0], path[1..];
      SplitBehindSlash(rest, more);
      assert path == [c] + rest && path + [SLASH] + more == [c] + (rest + [SLASH] + more);
      SplitFirst(c, rest);
      SplitFirst(c, rest + [SLASH] + more);
      hide Split;
      JoinedLists(c, Split(rest), Split(more));
    }
  }

  lemma JoinedLists(c: Byte, first: seq<Name>, second: seq<Name>)
    requires first != []
    ensures [[]] + (first + second) == ([[]] + first) + second
    ensures [[c] + (first + second)[0]] + (first + second)[1..] == ([[c] + first[0]] + first[1..]) + second
  {
  }

  lemma {:induction false} WalkOn(at: Path, a: seq<Name>, b: seq<Name>)
    ensures Walk(at, a + b) == Walk(Walk(at, a), b)
    decreases a
  {
    if a == [] {
      assert a + b == b;
    } else {
      assert (a + b)[1..] == a[1..] + b;
      WalkOn(Applied(at, a[0]), a[1..], b);
    }
  }

  /** Behind a slash, a path without a leading slash of its own goes on from where the path before it leads. */
  lemma ResolvedOn(base: Path, path: seq<Byte>, more: seq<Byte>)
    requires path != [] && (more == [] || more[0] != SLASH)
    ensures Resolved(base, path + [SLASH] + more) == Resolved(Resolved(base, path), more)
  {
    SplitBehindSlash(path, more);
    WalkOn(if path[0] == SLASH then [] else base, Split(path), Split(more));
  }

  /** A leading slash starts from the root, wherever the path is taken from. */
  lemma ResolvedFromRoot(base: Path, more: seq<Byte>)
    ensures Resolved(base, [SLASH] + more) == Resolved([], more)
  {
    assert ([SLASH] + more)[1..] == more;
    WalkOn([], [[]], Split(more));
    assert Walk([], [[]]) == [];
  }

  lemma ResolvedPiece(base: Path, piece: Name)
    requires SLASH !in piece
    ensures Resolved(base, piece) == Walk(base, [piece])
  {
    SplitPiece(piece, []);
  }

  /** The empty path and `.` lead nowhere else. */
  lemma ResolvedStay(base: Path)
    ensures Resolved(base, []) == base && Resolved(base, DOT) == base
  {
    ResolvedPiece(base, []);
    ResolvedPiece(base, DOT);
  }

  /** `..` leads one component up, and at the root nowhere else. */
  lemma ResolvedUp(base: Path)
    ensures Resolved(base, DOT_DOT) == if base == [] then [] else base[..|base| - 1]
  {
    ResolvedPiece(base, DOT_DOT);
  }

  /** Any other name without a slash leads one component down. */
  lemma ResolvedDown(base: Path, name: Name)
    requires Plain(name)
    ensures Resolved(base, name) == base + [name]
  {
    ResolvedPiece(base, name);
  }

  /** So `/..` behind a path takes its last component away, and `/` and a name adds one. */
  lemma ResolvedBehind(base: Path, path: seq<Byte>, name: Name)
    requires path != [] && Plain(name)
    ensures var p := Resolved(base, path);
            && Resolved(base, path + [SLASH] + DOT_DOT) == (if p == [] then [] else p[..|p| - 1])
            && Resolved(base, path + [SLASH] + DOT) == p && Resolved(base, path + [SLASH]) == p
            && Resolved(base, path + [SLASH] + name) == p + [name]
  {
    hide Resolved;
    var p := Resolved(base, path);
    ResolvedOn(base, path, DOT_DOT);
    ResolvedUp(p);
    ResolvedOn(base, path, DOT);
    ResolvedOn(base, path, []);
    assert path + [SLASH] + [] == path + [SLASH];
    ResolvedStay(p);
    ResolvedOn(base, path, name);
    ResolvedDown(p, name);
  }

  // ---------------------------------------------------------------------
  // Length: a canonical path is at most one byte longer than the path it came from
  // ---------------------------------------------------------------------

  lemma {:induction false} SplitLength(path: seq<Byte>)
    ensures |Joined(Split(path))| == |path| + 1
  {
    if path != [] {
      SplitLength(path[1..]);
      var rest := Split(path[1..]);
      if path[0] == SLASH {
        assert ([[]] + rest)[1..] == rest;
      } else {
        assert ([[path[0]] + rest[0]] + rest[1..])[1..] == rest[1..];
      }
    }
  }

  lemma {:induction false} JoinedAppend(at: Path, name: Name)
    ensures |Joined(at + [name])| == |Joined(at)| + 1 + |name|
  {
    if at == [] {
      assert [] + [name] == [name];
    } else {
      assert (at + [name])[1..] == at[1..] + [name];
      JoinedAppend(at[1..], name);
    }
  }

  lemma {:induction false} WalkLength(at: Path, components: seq<Name>)
    ensures |Joined(Walk(at, components))| <= |Joined(at)| + |Joined(components)|
    decreases components
  {
    if components != [] {
      var c := components[0];
      WalkLength(Applied(at, c), components[1..]);
      if Applied(at, c) == at + [c] {
        JoinedAppend(at, c);
      } else if Applied(at, c) != at {
        JoinedAppend(at[..|at| - 1], at[|at| - 1]);
        assert at[..|at| - 1] + [at[|at| - 1]] == at;
      }
    }
  }

  lemma CanonicalLength(path: seq<Byte>)
    ensures |Displayed(Resolved([], path))| <= |path| + 1
  {
    WalkLength([], Split(path));
    SplitLength(path);
  }
}
