/** The copy-on-write file system: a base that is never written, an overlay that takes every write,
    tombstones for what was removed and a rename map.  `Seen` is what a reader finds at a path; every
    operation is stated by what it does to that. */
module Cowfs {
  import opened Paths
  import opened CowRenames

  datatype Node = File(data: seq<int>) | Directory | Symlink(target: string)

  type Layer = map<Path, Node>

  datatype Option<T> = None | Some(value: T)
  datatype Result = Ok | NotExist | NotEmpty | Exists | BadPath

  // ------------------------------------------------------------------------------ one layer

  predicate IsTree(l: Layer) {
    && [] in l && l[[]] == Directory
    && (forall k :: k in l && k != [] ==> Parent(k) in l && l[Parent(k)] == Directory)
  }

  function Children(l: Layer, d: Path): set<Name> {
    set k | k in l && k != [] && Parent(k) == d :: Base(k)
  }

  lemma ChildIs(l: Layer, d: Path, n: Name)
    ensures n in Children(l, d) <==> d + [n] in l
  {
    if d + [n] in l {
      assert Parent(d + [n]) == d && Base(d + [n]) == n;
    }
    if n in Children(l, d) {
      var k :| k in l && k != [] && Parent(k) == d && Base(k) == n;
      Splits(k);
    }
  }

  lemma NoChildren(l: Layer, d: Path)
    ensures Children(l, d) == {} <==> forall k :: k in l && k != [] ==> Parent(k) != d
  {
    assert forall k :: k in l && k != [] && Parent(k) == d ==> Base(k) in Children(l, d);
  }

  /** `MkdirAll`. */
  function Scaffold(l: Layer, d: Path): Layer {
    if d in l || d == [] then l else Scaffold(l, Parent(d))[d := Directory]
  }

  /** `Remove` of a file or an empty directory. */
  function TakeOut(l: Layer, p: Path): Option<Layer> {
    if p !in l || p == [] || Children(l, p) != {} then None else Some(l - {p})
  }

  /** `CopyFS` of everything at and below `p`, its parents being there. */
  function Copied(from: Layer, p: Path, to: Layer): Layer {
    to + (map k | k in from && Under(p, k) :: from[k])
  }

  // --------------------------------------------------------------------------- what is seen

  datatype State = State(base: Layer, overlay: Layer, tombs: set<Path>, renames: Renames)

  /** What is at a path that is not renamed. */
  function View(s: State, p: Path): Option<Node> {
    if p in s.tombs then None
    else if p in s.overlay then Some(s.overlay[p])
    else if p in s.base then Some(s.base[p])
    else None
  }

  /** What a reader finds at a path. */
  function Seen(s: State, p: Path): Option<Node> { View(s, Terminal(s.renames, p)) }

  /** Only what is seen at one place changed, under all its names. */
  ghost predicate Shows(s: State, s': State, path: Path, node: Option<Node>) {
    forall q :: Seen(s', q) == if Terminal(s.renames, q) == path then node else Seen(s, q)
  }

  ghost predicate Same(s: State, s': State) {
    forall q :: Seen(s', q) == Seen(s, q)
  }

  predicate IsDir(s: State, p: Path) { View(s, p) == Some(Directory) }

  /** What is seen is a tree. */
  ghost predicate Closed(s: State) {
    forall p :: p != [] && View(s, p).Some? ==> IsDir(s, Parent(p))
  }

  /** A tombstone hides an overlay entry only where the base has one too. */
  predicate Leftovers(s: State) {
    forall p :: p in s.overlay && p in s.tombs ==> p in s.base
  }

  /** Aliases are flat, hidden themselves, and lead to something. */
  predicate Aliases(s: State) {
    && Flat(s.renames)
    && (forall k :: k in s.renames ==> View(s, k).None? && k in s.base && View(s, s.renames[k]).Some?)
  }

  ghost predicate Tidy(s: State) {
    IsTree(s.base) && IsTree(s.overlay) && [] !in s.tombs && Closed(s) && Leftovers(s) && Aliases(s)
  }

  // --------------------------------------------------------------------------- scaffolding

  /** Directories that are seen already may be made in the overlay without anyone seeing it. */
  lemma ScaffoldHides(s: State, d: Path)
    requires Tidy(s) && IsDir(s, d)
    ensures var l := Scaffold(s.overlay, d);
            && IsTree(l) && d in l && l[d] == Directory
            && (forall p :: View(s.(overlay := l), p) == View(s, p))
            && (forall p :: p in l && p in s.tombs ==> p in s.overlay)
            && (forall p :: p in s.overlay ==> p in l && l[p] == s.overlay[p])
            && (forall p :: p in l && p !in s.overlay ==> Under(p, d) && l[p] == Directory)
  {
    TidyParts(s);
    hide Tidy, Aliases, Leftovers;
    forall p | Under(p, d) ensures View(s, p) == Some(Directory) {
      DirsAbove(s, p, d);
    }
    hide Closed;
    ScaffoldIs(s.overlay, d);
    hide Scaffold, IsTree;
  }

  /** Nothing is seen below what is not seen as a directory. */
  lemma NoneBelow(s: State, p: Path, k: Path)
    requires Tidy(s) && k != [] && Parent(k) == p && !IsDir(s, p)
    ensures View(s, k).None?
  {
  }

  /** Putting a node at `p`, which becomes alive. */
  lemma PutKeepsTidy(s: State, p: Path, node: Node, tombs: set<Path>)
    requires Tidy(s) && p != [] && p !in s.renames && IsDir(s, Parent(p)) && Parent(p) in s.overlay && s.overlay[Parent(p)] == Directory
    requires node != Directory ==> !IsDir(s, p) && (p in s.overlay ==> s.overlay[p] != Directory)
    requires tombs == s.tombs - {p}
    ensures var s' := s.(overlay := s.overlay[p := node], tombs := tombs);
            && Tidy(s')
            && (forall q :: View(s', q) == if q == p then Some(node) else View(s, q))
            && Shows(s, s', p, Some(node))
  {
    var s' := s.(overlay := s.overlay[p := node], tombs := tombs);
    forall q ensures View(s', q) == if q == p then Some(node) else View(s, q) {
    }
    forall q | q != [] && View(s', q).Some? ensures IsDir(s', Parent(q)) {
      if q != p && Parent(q) == p && node != Directory {
        NoneBelow(s, p, q);
      }
    }
    forall k | k in s'.overlay && k != [] ensures Parent(k) in s'.overlay && s'.overlay[Parent(k)] == Directory {
    }
  }

  /** Taking away what is at `p`. */
  lemma DropKeepsTidy(s: State, p: Path, s': State)
    requires Tidy(s) && p != [] && NothingIn(s, p)
    requires Children(s.overlay, p) == {}
    requires s' == s.(overlay := s.overlay - {p}, tombs := s.tombs + {p}, renames := Forgotten(s.renames, p))
    ensures Tidy(s')
    ensures forall q :: View(s', q) == if q == p then None else View(s, q)
    ensures Shows(s, s', p, None)
  {
    ForgottenIsFlat(s.renames, p);
    forall q ensures View(s', q) == if q == p then None else View(s, q) {
    }
    NoChildren(s.overlay, p);
    forall q ensures Seen(s', q) == if Terminal(s.renames, q) == p then None else Seen(s, q) {
    }
  }

  /** Copying up what only the base has changes nothing that is seen. */
  lemma CopyUpHides(s: State, p: Path)
    requires Tidy(s) && p in s.base && p !in s.overlay && p !in s.tombs
    ensures var s' := s.(overlay := Copied(s.base, p, Scaffold(s.overlay, Parent(p))));
            Tidy(s') && p in s'.overlay && (forall q :: View(s', q) == View(s, q)) && Same(s, s')
  {
    CopyUpViews(s, p);
    hide View, Scaffold, Copied;
    var s' := s.(overlay := Copied(s.base, p, Scaffold(s.overlay, Parent(p))));
    forall q | q != [] && View(s', q).Some? ensures IsDir(s', Parent(q)) {
      assert View(s', q) == View(s, q) && View(s', Parent(q)) == View(s, Parent(q));
    }
    forall k | k in s.renames ensures View(s', k).None? && k in s.base && View(s', s.renames[k]).Some? {
      assert View(s', k) == View(s, k) && View(s', s.renames[k]) == View(s, s.renames[k]);
    }
  }

  lemma CopyUpViews(s: State, p: Path)
    requires Tidy(s) && p in s.base && p !in s.overlay && p !in s.tombs
    ensures p != [] && var s' := s.(overlay := Copied(s.base, p, Scaffold(s.overlay, Parent(p))));
            && p in s'.overlay && IsTree(s'.overlay) && Leftovers(s') && (forall q :: View(s', q) == View(s, q))
  {
    assert View(s, p).Some?;
    var up := Scaffold(s.overlay, Parent(p));
    ScaffoldHides(s, Parent(p));
    var l := Copied(s.base, p, up);
    var s' := s.(overlay := l);
    NothingBelow(s, p);
    forall q ensures View(s', q) == View(s, q) {
      assert View(s.(overlay := up), q) == View(s, q);
      if Under(p, q) {
        assert q !in up;
      }
    }
    CopiedIsTree(s.base, p, up);
  }

  lemma CopiedIsTree(base: Layer, p: Path, up: Layer)
    requires IsTree(base) && IsTree(up) && p in base && p != [] && Parent(p) in up && up[Parent(p)] == Directory
    requires forall k :: Under(p, k) ==> k !in up
    ensures IsTree(Copied(base, p, up))
  {
    forall k | k in base && Under(p, k) && k != p ensures Under(p, Parent(k)) {
    }
  }

  /** Below a path the overlay does not have, it has nothing. */
  lemma NothingBelow(s: State, p: Path)
    requires IsTree(s.overlay) && p !in s.overlay
    ensures forall k :: Under(p, k) ==> k !in s.overlay
  {
    forall k | Under(p, k) ensures k !in s.overlay {
      NotBelow(s.overlay, p, k);
    }
  }

  lemma {:induction false} NotBelow(l: Layer, p: Path, k: Path)
    requires IsTree(l) && p !in l && Under(p, k)
    ensures k !in l
    decreases |k|
  {
    if k != p {
      assert Under(p, Parent(k));
      NotBelow(l, p, Parent(k));
    }
  }

  // ------------------------------------------------------------------------- a node is made

  /** The overlay has nothing but directories down to `d`. */
  predicate NoFileAbove(l: Layer, d: Path) { forall p :: p in l && Under(p, d) ==> l[p] == Directory }

  predicate NoDirectory(l: Layer, p: Path) { p in l ==> l[p] != Directory }

  /** The state once a node is at `path`, in directories made where the overlay had none. */
  function Put(s: State, path: Path, node: Node): State
    requires path != []
  {
    s.(overlay := Scaffold(s.overlay, Parent(path))[path := node], tombs := s.tombs - {path})
  }

  /** What is then at `p`: a directory on the way that the overlay did not have is one now, whatever the
      base has, but for a tombstone. */
  function Made(s: State, path: Path, node: Node, p: Path): Option<Node>
    requires path != []
  {
    if p == path then Some(node)
    else if Under(p, Parent(path)) && p !in s.overlay && p !in s.tombs then Some(Directory)
    else View(s, p)
  }

  ghost predicate MadeAt(s: State, s': State, path: Path, node: Node)
    requires path != []
  {
    forall q :: Seen(s', q) == Made(s, path, node, Terminal(s.renames, q))
  }

  lemma MadeThere(s: State, s': State, path: Path, node: Node, q: Path)
    requires path != [] && MadeAt(s, s', path, node) && Terminal(s.renames, q) == path
    ensures Seen(s', q) == Some(node)
  {
    assert Seen(s', q) == Made(s, path, node, Terminal(s.renames, q));
    hide View;
  }

  /** No directory down to `d` was removed. */
  predicate NotHidden(s: State, d: Path) { forall p :: Under(p, d) ==> p !in s.tombs }

  /** Where a node may be made: under a name that is no alias, in directories that were not removed, and
      not on top of anything it could not hold. */
  ghost predicate Fits(s: State, path: Path, node: Node)
    requires path != []
  {
    path !in s.renames && NotHidden(s, Parent(path)) && (node == Directory || NothingIn(s, path))
  }

  /** A new node leaves the file system in order exactly if it fits. */
  lemma PutExactly(s: State, path: Path, node: Node)
    requires Tidy(s) && path != [] && NoFileAbove(s.overlay, Parent(path))
    requires if node == Directory then path !in s.overlay else Children(s.overlay, path) == {}
    ensures MadeAt(s, Put(s, path, node), path, node)
    ensures Tidy(Put(s, path, node)) <==> Fits(s, path, node)
  {
    var s' := Put(s, path, node);
    TidyParts(s);
    PutIsTree(s, path, node);
    PutViews(s, path, node);
    hide Tidy, View, Scaffold, IsTree, Closed, Leftovers, Aliases, NothingIn, NotHidden;
    PutCloses(s, s', path, node);
    PutAliases(s, s', path, node);
    if Tidy(s') {
      TidyParts(s');
    } else if Fits(s, path, node) {
      PutLeftovers(s, path, node);
      TidyFrom(s');
    }
    MadeSeen(s, s', path, node);
  }

  /** A file can be made in a directory that was removed; the directory stays hidden. */
  lemma InRemovedDirectory()
    ensures var s := State(map[[] := Directory, ["d"] := Directory], map[[] := Directory], {["d"]}, map[]);
            && Tidy(s) && NoFileAbove(s.overlay, ["d"]) && !Fits(s, ["d", "f"], File([]))
            && Made(s, ["d", "f"], File([]), ["d", "f"]).Some? && Made(s, ["d", "f"], File([]), ["d"]).None?
  {
    var s := State(map[[] := Directory, ["d"] := Directory], map[[] := Directory], {["d"]}, map[]);
    assert Parent(["d", "f"]) == ["d"] && Parent(["d"]) == [] && Under(["d"], ["d"]);
    assert View(s, []) == Some(Directory) && View(s, ["d"]) == None;
  }

  lemma MadeSeen(s: State, s': State, path: Path, node: Node)
    requires path != [] && s'.renames == s.renames && forall q :: View(s', q) == Made(s, path, node, q)
    ensures MadeAt(s, s', path, node)
  {
    hide View, Made;
  }

  /** Directories are made down to `d`. */
  lemma {:induction false} ScaffoldIs(l: Layer, d: Path)
    requires IsTree(l) && NoFileAbove(l, d)
    ensures var l' := Scaffold(l, d);
            && IsTree(l') && d in l'
            && (forall p :: p in l' <==> p in l || Under(p, d))
            && (forall p :: p in l' ==> l'[p] == if p in l then l[p] else Directory)
    decreases |d|
  {
    if d in l || d == [] {
      forall p | Under(p, d) ensures p in l {
        if p !in l { NotBelow(l, p, d); }
      }
    } else {
      forall p | Under(p, Parent(d)) ensures Under(p, d) {
      }
      ScaffoldIs(l, Parent(d));
      assert forall p :: Under(p, d) <==> Under(p, Parent(d)) || p == d;
      ScaffoldStep(l, d);
    }
  }

  lemma ScaffoldStep(l: Layer, d: Path)
    requires d !in l && d != []
    requires var m := Scaffold(l, Parent(d));
             IsTree(m) && Parent(d) in m && m[Parent(d)] == Directory && d !in m && (forall k :: k in m && k != [] ==> Parent(k) != d)
    ensures IsTree(Scaffold(l, d))
  {
  }

  lemma PutIsTree(s: State, path: Path, node: Node)
    requires IsTree(s.overlay) && path != [] && NoFileAbove(s.overlay, Parent(path))
    requires if node == Directory then path !in s.overlay else Children(s.overlay, path) == {}
    ensures IsTree(Put(s, path, node).overlay)
  {
    ScaffoldIs(s.overlay, Parent(path));
    NotUnderParent(path);
    NoChildren(s.overlay, path);
    var l := Scaffold(s.overlay, Parent(path));
    hide Scaffold, Children;
    assert l[Parent(path)] == Directory;
    forall k | k in l && k != [] && Under(k, Parent(path)) ensures Parent(k) != path {
      assert |Parent(k)| < |path|;
    }
  }

  lemma PutViews(s: State, path: Path, node: Node)
    requires IsTree(s.overlay) && path != [] && NoFileAbove(s.overlay, Parent(path))
    ensures forall q :: View(Put(s, path, node), q) == Made(s, path, node, q)
  {
    ScaffoldIs(s.overlay, Parent(path));
    hide Scaffold, IsTree;
  }

  lemma PutLeftovers(s: State, path: Path, node: Node)
    requires IsTree(s.overlay) && Leftovers(s) && path != [] && NoFileAbove(s.overlay, Parent(path)) && NotHidden(s, Parent(path))
    ensures Leftovers(Put(s, path, node))
  {
    ScaffoldIs(s.overlay, Parent(path));
    hide Scaffold, IsTree;
  }

  lemma PutCloses(s: State, s': State, path: Path, node: Node)
    requires Closed(s) && View(s, []) == Some(Directory) && path != [] && NoFileAbove(s.overlay, Parent(path))
    requires forall q :: View(s', q) == Made(s, path, node, q)
    ensures Closed(s') <==> NotHidden(s, Parent(path)) && (node == Directory || NothingIn(s, path))
  {
    var dir := Parent(path);
    NotUnderParent(path);
    if NotHidden(s, dir) && (node == Directory || NothingIn(s, path)) {
      forall q | q != [] && View(s', q).Some? ensures IsDir(s', Parent(q)) {
        if Under(Parent(q), dir) {
          assert Parent(q) !in s.tombs && View(s', Parent(q)) == Made(s, path, node, Parent(q));
        } else {
          assert q != path && !Under(q, dir) && View(s, q).Some? && IsDir(s, Parent(q));
        }
      }
    }
    if Closed(s') {
      forall p | Under(p, dir) ensures p !in s.tombs {
        assert View(s', path).Some?;
        AboveIsSeen(s', p, path);
      }
      forall k | k != [] && Parent(k) == path ensures node == Directory || View(s, k).None? {
        assert View(s', k) == View(s, k) && View(s', path) == Some(node);
      }
    }
  }

  /** What is above something seen is seen. */
  lemma {:induction false} AboveIsSeen(s: State, p: Path, k: Path)
    requires Closed(s) && Under(p, k) && View(s, k).Some?
    ensures View(s, p).Some?
    decreases |k|
  {
    if p != k {
      assert IsDir(s, Parent(k)) && Under(p, Parent(k));
      AboveIsSeen(s, p, Parent(k));
    }
  }

  lemma PutAliases(s: State, s': State, path: Path, node: Node)
    requires Aliases(s) && path != [] && s'.base == s.base && s'.renames == s.renames
    requires forall q :: View(s', q) == Made(s, path, node, q)
    ensures path in s.renames ==> !Aliases(s')
    ensures path !in s.renames && NotHidden(s, Parent(path)) ==> Aliases(s')
  {
    if path in s.renames {
      assert View(s', path) == Some(node);
    } else if NotHidden(s, Parent(path)) {
      forall k | k in s.renames ensures View(s', k).None? && View(s', s.renames[k]).Some? {
        assert View(s, k).None? && k in s.base && k in s.tombs;
        assert View(s', k) == Made(s, path, node, k);
      }
    }
  }

  /** In a directory that is seen, a new node is all that changes. */
  lemma MadeShows(s: State, s': State, path: Path, node: Node)
    requires Tidy(s) && path != [] && IsDir(s, Parent(path))
    ensures MadeAt(s, s', path, node) <==> Shows(s, s', path, Some(node))
    ensures NotHidden(s, Parent(path))
  {
    forall p | Under(p, Parent(path)) ensures View(s, p) == Some(Directory) {
      DirsAbove(s, p, Parent(path));
    }
    forall q ensures Made(s, path, node, Terminal(s.renames, q)) == if Terminal(s.renames, q) == path then Some(node) else Seen(s, q) {
    }
    hide Made, View, Tidy;
  }

  lemma {:induction false} DirsAbove(s: State, p: Path, d: Path)
    requires Closed(s) && IsDir(s, d) && Under(p, d)
    ensures IsDir(s, p)
    decreases |d|
  {
    if p != d {
      assert Under(p, Parent(d));
      DirsAbove(s, p, Parent(d));
    }
  }

  lemma Overwritten(l: Layer, p: Path, was: Node, node: Node)
    ensures l[p := was][p := node] == l[p := node] == (l - {p})[p := node]
  {
  }

  lemma OverlayIsTree(s: State)
    requires Tidy(s)
    ensures IsTree(s.overlay)
  {
  }

  lemma LeafHasNoChildren(s: State, p: Path)
    requires Tidy(s) && NoDirectory(s.overlay, p)
    ensures Children(s.overlay, p) == {}
  {
    NoChildren(s.overlay, p);
  }

  lemma NoParentNoChildren(l: Layer, p: Path)
    requires IsTree(l) && p != [] && Parent(p) !in l
    ensures p !in l && Children(l, p) == {}
  {
    NoChildren(l, p);
  }

  /** Directories made above a path do not touch it. */
  lemma ScaffoldKeeps(l: Layer, p: Path)
    requires IsTree(l) && p != [] && NoFileAbove(l, Parent(p))
    ensures var l' := Scaffold(l, Parent(p));
            && Children(l', p) == Children(l, p) && (p in l' <==> p in l)
            && (if p in l then l' == l else Children(l, p) == {} && l' - {p} == l')
  {
    ScaffoldIs(l, Parent(p));
    NotUnderParent(p);
    var l' := Scaffold(l, Parent(p));
    forall n ensures n in Children(l', p) <==> n in Children(l, p) {
      ChildIs(l, p, n);
      ChildIs(l', p, n);
    }
    NoChildren(l, p);
  }

  // -------------------------------------------------------------------------- the operations

  class Cow {
    const base: Layer
    var overlay: Layer
    var tombs: set<Path>
    var renames: Renames

    ghost function Now(): State
      reads this
    {
      State(base, overlay, tombs, renames)
    }

    constructor (b: Layer)
      requires IsTree(b)
      ensures base == b && Tidy(Now()) && renames == map[]
      ensures forall p :: Seen(Now(), p) == if p in b then Some(b[p]) else None
    {
      base, overlay, tombs, renames := b, map[[] := Directory], {}, map[];
    }

    method ResolvePath(name: Path) returns (path: Path, r: Result)
      requires Tidy(Now())
      ensures path == Terminal(renames, name)
      ensures r == if path in tombs then NotExist else Ok
    {
      var t := ResolveTerminal(renames, name);
      FlatResolves(renames, name);
      path := t.path;
      r := if path in tombs then NotExist else Ok;
    }

    /** `Lstat`: the overlay first, then the base. */
    method Stat(name: Path) returns (r: Option<Node>)
      requires Tidy(Now())
      ensures r == Seen(Now(), name)
      ensures var p := if name in renames then renames[name] else name;
              r == if p in tombs then None else if p in overlay then Some(overlay[p])
                   else if p in base then Some(base[p]) else None
    {
      var path, e := ResolvePath(name);
      if e != Ok {
        return None;
      }
      if path in overlay {
        return Some(overlay[path]);
      }
      r := if path in base then Some(base[path]) else None;
    }

    /** `OverlayFile.ReadDir`: both lists, the hidden names left out. */
    method Union(path: Path, below: set<Name>, above: set<Name>) returns (names: set<Name>)
      ensures forall n :: n in names <==> (n in below || n in above) && path + [n] !in tombs
    {
      var left := below + above;
      names := {};
      while left != {}
        invariant left <= below + above
        invariant forall n :: n in names <==> n in below + above - left && path + [n] !in tombs
        decreases |left|
      {
        var n :| n in left;
        left := left - {n};
        if path + [n] !in tombs {
          names := names + {n};
        }
      }
    }

    /** `Open` and `ReadDir` of a directory: the union of both layers without what is hidden; a
        directory the base does not have is listed as the overlay lists it. */
    method ReadDir(name: Path) returns (names: set<Name>)
      requires Tidy(Now()) && Seen(Now(), name) == Some(Directory)
      ensures forall n :: n in names <==> View(Now(), Terminal(renames, name) + [n]).Some?
      ensures forall n :: name !in renames ==>
        (Seen(Now(), name + [n]).Some? <==> n in names || name + [n] in renames)
    {
      hide Tidy;
      var path, e := ResolvePath(name);
      if path in overlay && !(path in base && base[path] == Directory) {
        names := Children(overlay, path);
        OverlayListing(Now(), path);
      } else if path in overlay {
        names := Union(path, Children(base, path), Children(overlay, path));
        UnionListing(Now(), path, names);
      } else {
        names := Union(path, Children(base, path), {});
        BaseListing(Now(), path, names);
      }
      AliasListing(Now(), path);
    }

    /** Renames that led to `target` are forgotten. */
    method Forget(target: Path)
      modifies this`renames
      ensures renames == Forgotten(old(renames), target)
    {
      ghost var was := renames;
      var left := renames.Keys;
      while left != {}
        invariant left <= was.Keys
        invariant renames == map k | k in was && (k in left || was[k] != target) :: was[k]
        decreases |left|
      {
        var k :| k in left;
        left := left - {k};
        if renames[k] == target {
          renames := renames - {k};
        }
      }
    }

    /** The directory test of `Remove`: what either layer lists, but for hidden entries of the base. */
    method HasNoEntries(target: Path) returns (empty: bool)
      requires Tidy(Now()) && View(Now(), target).Some?
      ensures empty ==> Children(overlay, target) == {} && NothingIn(Now(), target)
      ensures target !in tombs ==> empty == !Refuses(Now(), target)
    {
      var isDir := if target in overlay then overlay[target] == Directory else base[target] == Directory;
      if !isDir {
        LeafMeansEmpty(Now(), target);
        return true;
      }
      assert target !in tombs ==> View(Now(), target) == Some(Directory);
      var live := set n | n in Children(base, target) && target + [n] !in tombs;
      if live + Children(overlay, target) != {} {
        return false;
      }
      assert forall n :: n in Children(base, target) && target + [n] !in tombs ==> n in live;
      EmptyMeansEmpty(Now(), target);
      empty := true;
    }

    /** What is hidden already: an overlay entry left from a copy may still have to go. */
    method RemoveHidden(target: Path) returns (r: Result)
      requires Tidy(Now()) && target in tombs
      modifies this`overlay
      ensures Tidy(Now()) && Same(old(Now()), Now()) && r in {Ok, NotEmpty}
      ensures r == NotEmpty <==> Refuses(old(Now()), target)
    {
      r := Ok;
      if target in overlay {
        var o := TakeOut(overlay, target);
        if o.None? {
          r := NotEmpty;
        } else {
          LeftoverGoes(Now(), target);
          overlay := o.value;
        }
      }
    }

    /** `Remove`.  It succeeds on what is hidden already, and forgets the aliases of what it removes. */
    method Remove(name: Path) returns (r: Result)
      requires Tidy(Now()) && Terminal(renames, name) != []
      modifies this
      ensures Tidy(Now())
      ensures r == Ok ==> Shows(old(Now()), Now(), Terminal(old(renames), name), None)
      ensures r == Ok ==> NothingIn(old(Now()), Terminal(old(renames), name))
      ensures r != Ok ==> Same(old(Now()), Now())
      ensures r in {Ok, NotExist, NotEmpty}
      ensures r == NotExist <==> Terminal(old(renames), name) !in base.Keys + old(overlay).Keys + old(tombs)
      ensures r == NotEmpty <==> Refuses(old(Now()), Terminal(old(renames), name))
    {
      hide Tidy, Shows, Same, NothingIn, View, Forgotten, Refuses;
      RefusedIsThere(Now(), Terminal(renames, name));
      ghost var s := Now();
      TidyResolves(s, name);
      var t := ResolveTerminal(renames, name);
      var target := t.path;
      var existsInBase, existsInOverlay := target in base, target in overlay;
      if target in tombs {
        NoneUnder(s, target);
        r := RemoveHidden(target);
        if r == Ok {
          SameShows(s, Now(), target);
        }
        return;
      }
      if !existsInBase && !existsInOverlay {
        tombs := tombs + {target};
        AbsentGoes(s, target);
        return NotExist;
      }
      assert View(s, target).Some? by { Visible(s, target); }
      var empty := HasNoEntries(target);
      if !empty {
        SameItself(s);
        return NotEmpty;
      }
      if existsInOverlay {
        overlay := overlay - {target};
      }
      tombs := tombs + {target};
      Forget(target);
      assert target !in s.overlay ==> s.overlay - {target} == s.overlay;
      DropKeepsTidy(s, target, Now());
      r := Ok;
    }

    /** The parent of a path to be made: made in the overlay if that does not have it, but the base does
        or the call is a create. */
    method ScaffoldParent(path: Path, creating: bool) returns (r: Result)
      requires IsTree(overlay) && path != []
      modifies this`overlay
      ensures r == if creating || Parent(path) in base.Keys + old(overlay).Keys then Ok else NotExist
      ensures overlay == if r == Ok then Scaffold(old(overlay), Parent(path)) else old(overlay)
    {
      var dir := Parent(path);
      r := Ok;
      if dir != [] && dir !in overlay {
        if dir !in base && !creating {
          return NotExist;
        }
        overlay := Scaffold(overlay, dir);
      }
    }

    /** `OpenFile` with create and truncate, then `data` written and the file closed.  Missing directories
        are made on the way, what hides them is not taken away. */
    method Create(name: Path, data: seq<int>) returns (r: Result)
      requires Tidy(Now()) && Terminal(renames, name) != []
      requires NoDirectory(overlay, Terminal(renames, name)) && NoFileAbove(overlay, Parent(Terminal(renames, name)))
      modifies this
      ensures r == Ok && renames == old(renames)
      ensures Seen(Now(), name) == Some(File(data))
      ensures MadeAt(old(Now()), Now(), Terminal(renames, name), File(data))
      ensures Tidy(Now()) <==> Fits(old(Now()), Terminal(renames, name), File(data))
    {
      hide Tidy, Fits, MadeAt, View, Scaffold;
      ghost var s := Now();
      var path, e := ResolvePath(name);
      if e == NotExist {
        HiddenIsItself(s, name);
        path := name;
      }
      LeafHasNoChildren(s, path);
      TidyParts(s);
      var existsInOverlay, existsInBase := path in overlay, path in base;
      r := ScaffoldParent(path, true);
      Overwritten(overlay, path, File([]), File(data));
      if existsInBase && !existsInOverlay {
        overlay := overlay[path := File([])];
      }
      overlay := overlay[path := File(data)];
      tombs := tombs - {path};
      assert overlay == Scaffold(s.overlay, Parent(path))[path := File(data)];
      assert Now() == Put(s, path, File(data));
      PutExactly(s, path, File(data));
      MadeThere(s, Now(), path, File(data), name);
    }

    /** `Mkdir`, at the raw path: only the overlay is asked whether it exists. */
    method Mkdir(path: Path) returns (r: Result)
      requires Tidy(Now()) && path != [] && NoFileAbove(overlay, Parent(path))
      modifies this
      ensures r == if path in old(overlay) then Exists
                   else if Parent(path) in base.Keys + old(overlay).Keys then Ok else NotExist
      ensures renames == old(renames) && (r != Ok ==> Now() == old(Now()))
      ensures r == Ok && path !in renames ==> Seen(Now(), path) == Some(Directory)
      ensures r == Ok ==> MadeAt(old(Now()), Now(), path, Directory)
      ensures r == Ok ==> (Tidy(Now()) <==> Fits(old(Now()), path, Directory))
    {
      hide Tidy, Fits, MadeAt, View, Scaffold;
      ghost var s := Now();
      if path in overlay {
        return Exists;
      }
      var existsInBase := path in base;
      TidyParts(s);
      r := ScaffoldParent(path, false);
      if r != Ok {
        return;
      }
      if existsInBase {
        tombs := tombs + {path};
      }
      overlay := overlay[path := Directory];
      tombs := tombs - {path};
      assert tombs == s.tombs - {path};
      assert Now() == Put(s, path, Directory);
      PutExactly(s, path, Directory);
      if path !in renames { MadeThere(s, Now(), path, Directory, path); }
    }

    /** `Symlink`, at the raw path. */
    method MakeSymlink(target: string, path: Path) returns (r: Result)
      requires Tidy(Now()) && path != [] && NoFileAbove(overlay, Parent(path))
      modifies this
      ensures r == if Parent(path) !in base.Keys + old(overlay).Keys then NotExist
                   else if Children(old(overlay), path) != {} then NotEmpty else Ok
      ensures renames == old(renames) && (r != Ok ==> Now() == old(Now()))
      ensures r == Ok && path !in renames ==> Seen(Now(), path) == Some(Symlink(target))
      ensures r == Ok ==> MadeAt(old(Now()), Now(), path, Symlink(target))
      ensures r == Ok ==> (Tidy(Now()) <==> Fits(old(Now()), path, Symlink(target)))
    {
      hide Tidy, Fits, MadeAt, View, Scaffold, Children;
      ghost var s := Now();
      TidyParts(s);
      r := ScaffoldParent(path, false);
      if r != Ok {
        NoParentNoChildren(s.overlay, path);
        return;
      }
      ScaffoldKeeps(s.overlay, path);
      Overwritten(overlay, path, Directory, Symlink(target));
      if path in overlay {
        var o := TakeOut(overlay, path);
        if o.None? {
          return NotEmpty;
        }
        overlay := o.value;
      }
      if path in base {
        tombs := tombs + {path};
      }
      overlay := overlay[path := Symlink(target)];
      tombs := tombs - {path};
      TombsAfter(s.tombs, path, path in base);
      assert Now() == Put(s, path, Symlink(target));
      PutExactly(s, path, Symlink(target));
      if path !in renames { MadeThere(s, Now(), path, Symlink(target), path); }
    }

    /** `copyIfNeeded`, before a change of mode, owner or times; a file or link needs its parent in the
        overlay, a directory is copied with all that is below it in the base, hidden or not. */
    method CopyIfNeeded(name: Path) returns (path: Path, r: Result)
      requires Tidy(Now())
      modifies this`overlay
      ensures path == Terminal(renames, name) && Tidy(Now()) && Same(old(Now()), Now())
      ensures forall q :: View(Now(), q) == View(old(Now()), q)
      ensures r == if Seen(old(Now()), name).None? then NotExist
                   else if path in old(overlay) || base[path] == Directory || Parent(path) in old(overlay) then Ok
                   else NotExist
      ensures r == Ok ==> path in overlay && Some(overlay[path]) == Seen(old(Now()), name)
    {
      hide Tidy, Same;
      ghost var s := Now();
      SameItself(s);
      path, r := ResolvePath(name);
      if r != Ok || path in overlay {
        return;
      }
      if path !in base {
        return path, NotExist;
      }
      RootIsThere(s);
      CopyUpHides(s, path);
      if base[path] == Directory {
        overlay := Copied(base, path, Scaffold(overlay, Parent(path)));
      } else if Parent(path) in overlay {
        LeafCopies(s, path);
        overlay := overlay[path := base[path]];
      } else {
        r := NotExist;
      }
    }

    /** `OpenFile` for writing without create or truncate: the old content is copied up, `edit` is what
        the caller writes, and the file is closed. */
    method OpenForWriting(name: Path, edit: seq<int> -> seq<int>) returns (r: Result)
      requires Tidy(Now()) && Terminal(renames, name) != [] && IsDir(Now(), Parent(Terminal(renames, name)))
      requires Seen(Now(), name).Some? ==> Seen(Now(), name).value.File?
      modifies this
      ensures Tidy(Now()) && renames == old(renames)
      ensures r == if Seen(old(Now()), name).None? then NotExist else Ok
      ensures r == NotExist ==> Same(old(Now()), Now())
      ensures r == Ok ==> Shows(old(Now()), Now(), Terminal(renames, name), Some(File(edit(Seen(old(Now()), name).value.data))))
    {
      hide Tidy, Same, Shows, IsTree;
      ghost var s := Now();
      SameItself(s);
      var path, e := ResolvePath(name);
      if e != Ok {
        return NotExist;
      }
      Fresh(s, name);
      NotUnderParent(path);
      var existsInOverlay, existsInBase := path in overlay, path in base;
      OverlayIsTree(s);
      ScaffoldHides(s, Parent(path));
      ScaffoldIsTidy(s, Parent(path));
      r := ScaffoldParent(path, false);
      ghost var s1 := Now();
      if existsInBase && !existsInOverlay {
        overlay := overlay[path := base[path]];
      }
      if path !in overlay {
        return NotExist;
      }
      var data := edit(overlay[path].data);
      overlay := overlay[path := File(data)];
      assert overlay == s1.overlay[path := File(data)];
      tombs := tombs - {path};
      PutKeepsTidy(s1, path, File(data), tombs);
      SameThenShows(s, s1, Now(), path, Some(File(data)));
      r := Ok;
    }

    /** Every rename that led to `src` now leads to `newname`, in any order. */
    method Redirect(src: Path, newname: Path)
      modifies this`renames
      ensures renames == Redirected(old(renames), newname, src, newname, false)
    {
      ghost var was := renames;
      var left := renames.Keys;
      while left != {}
        invariant left <= was.Keys && renames.Keys == was.Keys
        invariant forall k :: k in was ==> renames[k] == if k !in left && was[k] == src then newname else was[k]
        decreases |left|
      {
        var k :| k in left;
        left := left - {k};
        if renames[k] == src {
          renames := renames[k := newname];
        }
      }
    }

    /** Whatever is at the destination goes: out of the overlay, hidden in the base. */
    method Displace(newname: Path) returns (r: Result)
      modifies this`overlay, this`tombs
      ensures r in {Ok, NotEmpty}
      ensures r == NotEmpty ==> overlay == old(overlay) && tombs == old(tombs)
      ensures r == NotEmpty <==> newname in old(overlay) && TakeOut(old(overlay), newname).None?
      ensures r == Ok ==> overlay == old(overlay) - {newname}
      ensures r == Ok ==> tombs == if newname in base then old(tombs) + {newname} else old(tombs)
      ensures r == Ok && newname in old(overlay) ==> TakeOut(old(overlay), newname).Some?
    {
      r := Ok;
      if newname in overlay {
        var o := TakeOut(overlay, newname);
        if o.None? {
          return NotEmpty;
        }
        overlay := o.value;
      }
      assert newname !in old(overlay) ==> old(overlay) - {newname} == old(overlay);
      if newname in base {
        tombs := tombs + {newname};
      }
    }

    /** The content moves in the overlay, or is copied out of the base. */
    method MoveContent(src: Path, newname: Path)
      requires newname != [] && src != newname
      requires var l := Scaffold(overlay, Parent(newname)); [] in overlay && (src in l <==> src in overlay) && (src !in l ==> src in base)
      modifies this`overlay
      ensures var l := Scaffold(old(overlay), Parent(newname));
              overlay == if src in l then l[newname := l[src]] - {src} else l[newname := base[src]]
    {
      var srcInOverlay := src in overlay;
      var dir := Parent(newname);
      if dir != [] && dir !in overlay {
        overlay := Scaffold(overlay, dir);
      }
      if srcInOverlay {
        overlay := overlay[newname := overlay[src]] - {src};
      } else {
        overlay := overlay[newname := base[src]];
      }
    }

    /** Tombstones for what came from the base, and the rename map. */
    method Book(oldname: Path, src: Path, newname: Path)
      modifies this`tombs, this`renames
      ensures tombs == old(tombs) + (if src in base then {src, oldname} else {}) - {newname}
      ensures renames == Redirected(old(renames), oldname, src, newname, src in base)
    {
      var srcInBase := src in base;
      if srcInBase {
        tombs := tombs + {src};
      }
      if oldname != src && srcInBase {
        tombs := tombs + {oldname};
      }
      Redirect(src, newname);
      if srcInBase {
        renames := renames[oldname := newname];
      }
      tombs := tombs - {newname};
    }

    /** `Rename` of a directory to a place where nothing was.  The directory itself moves; what is below it
        moves exactly if it is in the overlay alone. */
    method RenameDirectory(oldname: Path, newname: Path) returns (r: Result)
      requires MayMove(Now(), oldname, newname)
      modifies this
      ensures r == Ok && renames == Redirected(old(renames), oldname, Terminal(old(renames), oldname), newname,
                                               Terminal(old(renames), oldname) in base)
      ensures var src := Terminal(old(renames), oldname);
              && View(Now(), newname) == Some(Directory) && View(Now(), src).None?
              && (MovedBelow(old(Now()), Now(), src, newname) <==> MovesWhole(old(Now()), src))
              && (forall q :: !Under(src, q) && !Under(newname, q) ==> View(Now(), q) == View(old(Now()), q))
    {
      hide Tidy, View, MovedBelow, MovesWhole, Redirected, Scaffold, Relocated, Transplanted, Children, Untouched;
      ghost var s := Now();
      var src, e := ResolvePath(oldname);
      OldNameHidden(s, oldname, newname);
      Visible(s, src);
      NothingInTheWay(s, newname);
      var srcInBase, srcInOverlay := src in base, src in overlay;
      r := Displace(newname);
      var dir := Parent(newname);
      OverlayIsTree(s);
      if dir != [] && dir !in overlay {
        overlay := Scaffold(overlay, dir);
      }
      ScaffoldOfParent(s.overlay, newname);
      assert overlay == Scaffold(s.overlay - {newname}, dir);
      if srcInOverlay {
        overlay := Relocated(overlay, src, newname);
      } else {
        overlay := overlay + Transplanted(base, src, newname);
      }
      Book(oldname, src, newname);
      BookedTombs(s.tombs, oldname, src, newname, newname in base, src in base);
      assert Now() == AfterDirMove(s, oldname, newname);
      DirMovesExactly(s, oldname, newname);
    }

    /** `Rename` of a file or a link to the name it resolves to.  It reports success; what was in the overlay
        only is gone, and under its own name so is what was in the base: afterwards that name shows what it
        showed exactly if the file was renamed by an alias and shown as the base has it. */
    method RenameToSource(oldname: Path)
      requires Tidy(Now()) && Terminal(renames, oldname) != []
      requires Seen(Now(), oldname).Some? && !IsDir(Now(), Terminal(renames, oldname))
      modifies this
      ensures var src := Terminal(old(renames), oldname);
              && Reads(Now(), src) == (if oldname != src && src in base then Some(base[src]) else None)
              && (Reads(Now(), src) == Seen(old(Now()), oldname) <==>
                    oldname != src && src in base && (src in old(overlay) ==> old(overlay)[src] == base[src]))
    {
      var src, e := ResolvePath(oldname);
      LeafMeansEmpty(Now(), src);
      assert src !in renames;
      hide Tidy, Resolve, Children;
      PutBack(src);
      BookSame(oldname, src);
      if src in renames {
        SelfLoop(renames, src, 0);
      } else {
        NoRename(renames, src);
      }
    }

    /** The destination goes from the overlay first, and is not copied out of the base if it was there. */
    method PutBack(src: Path)
      requires src != [] && Children(overlay, src) == {} && src in base.Keys + overlay.Keys
      modifies this`overlay, this`tombs
      ensures src in old(overlay) ==> src !in overlay
      ensures src !in old(overlay) ==> src in overlay && overlay[src] == base[src]
      ensures tombs == if src in base then old(tombs) + {src} else old(tombs)
    {
      hide Children;
      var srcInOverlay := src in overlay;
      var r := Displace(src);
      var dir := Parent(src);
      NotUnderParent(src);
      if dir != [] && dir !in overlay {
        ScaffoldMisses(overlay, src, dir);
        overlay := Scaffold(overlay, dir);
      }
      if !srcInOverlay {
        overlay := overlay[src := base[src]];
      }
    }

    method BookSame(oldname: Path, src: Path)
      requires src !in renames
      modifies this`tombs, this`renames
      ensures tombs == old(tombs) + (if src in base then {oldname} else {}) - {src}
      ensures renames == if src in base then old(renames)[oldname := src] else old(renames)
    {
      var srcInBase := src in base;
      if srcInBase {
        tombs := tombs + {src};
      }
      if oldname != src && srcInBase {
        tombs := tombs + {oldname};
      }
      Redirect(src, src);
      assert renames == old(renames);
      if srcInBase {
        renames := renames[oldname := src];
      }
      tombs := tombs - {src};
    }

    /** `Rename` of a file or a symbolic link to a name that is not the source itself.  Where that name is an
        alias the content is lost: no name leads to it, and the alias still shows what it showed, or nothing
        any more if that was the source. */
    method Rename(oldname: Path, newname: Path) returns (r: Result)
      requires Tidy(Now()) && newname != [] && newname != Terminal(renames, oldname)
      requires Terminal(renames, oldname) != [] && !IsDir(Now(), Terminal(renames, oldname))
      requires IsDir(Now(), Parent(newname)) && !IsDir(Now(), newname)
      modifies this
      ensures Tidy(Now()) <==> r != Ok || newname !in old(renames)
      ensures r == if Seen(old(Now()), oldname).None? then NotExist
                   else if Children(old(overlay), newname) != {} then NotEmpty else Ok
      ensures r != Ok ==> Same(old(Now()), Now())
      ensures r == Ok && newname !in old(renames) ==>
        Moved(old(Now()), Now(), oldname, Terminal(old(renames), oldname), newname, Seen(old(Now()), oldname))
      ensures r == Ok && newname !in old(renames) ==> Seen(Now(), newname) == Seen(old(Now()), oldname)
      ensures r == Ok && newname !in old(renames) ==>
        forall q :: Terminal(old(renames), q) !in {Terminal(old(renames), oldname), newname} && q != Terminal(old(renames), oldname) ==>
          Seen(Now(), q) == Seen(old(Now()), q)
      ensures r == Ok && newname in old(renames) ==>
        Lost(old(Now()), Now(), Terminal(old(renames), oldname), newname)
    {
      hide Tidy, Same, Moved, Lost, View, Redirected, Scaffold, TakeOut;
      ghost var s := Now();
      SameItself(s);
      var src, e := ResolvePath(oldname);
      Visible(s, src);
      if e != Ok {
        return NotExist;
      }
      if src !in base && src !in overlay {
        return NotExist;
      }
      ChildrenAreThere(s, newname);
      r := Displace(newname);
      if r != Ok {
        return;
      }
      MoveFacts(s, src, newname);
      MoveContent(src, newname);
      Book(oldname, src, newname);
      BookedTombs(s.tombs, oldname, src, newname, newname in base, src in base);
      OverlayAfter(s, src, newname);
      assert Now() == AfterMove(s, oldname, newname);
      if newname in s.renames {
        MovedOntoAlias(s, oldname, newname, Now());
      } else {
        MoveKeepsTidy(s, oldname, newname, Now());
        MovedIs(s, Now(), oldname, src, newname, Seen(s, oldname));
      }
    }
  }

  // ------------------------------------------------------------------------ directories

  /** Everything at and below `p`, put at `q`. */
  function Transplanted(l: Layer, p: Path, q: Path): Layer {
    map x | x in (set k | k in l && Under(p, k) :: q + k[|p|..]) && Under(q, x) && p + x[|q|..] in l :: l[p + x[|q|..]]
  }

  /** `Rename` of a directory in one layer. */
  function Relocated(l: Layer, p: Path, q: Path): Layer {
    (map k | k in l && !Under(p, k) :: l[k]) + Transplanted(l, p, q)
  }

  lemma TransplantedIs(l: Layer, p: Path, q: Path, x: Path)
    ensures x in Transplanted(l, p, q) <==> Under(q, x) && p + x[|q|..] in l
    ensures x in Transplanted(l, p, q) ==> Transplanted(l, p, q)[x] == l[p + x[|q|..]]
  {
    if Under(q, x) && p + x[|q|..] in l {
      var k := p + x[|q|..];
      assert Under(p, k) && k[|p|..] == x[|q|..] && q + k[|p|..] == x;
    }
  }

  /** Neither layer has anything below `q`, nor was anything there removed. */
  ghost predicate Untouched(s: State, q: Path) {
    forall k :: Under(q, k) && k != q ==> k !in s.base && k !in s.overlay && k !in s.tombs
  }

  /** What is below a directory moves with it: nothing of the base is left to be seen, and no copy of
      something removed comes to light. */
  ghost predicate MovesWhole(s: State, src: Path) {
    forall k :: Under(src, k) && k != src ==> WholeAt(s, src, k)
  }

  /** What was seen below `src` is seen below `newname`, and nothing there any more. */
  ghost predicate MovedBelow(s: State, s': State, src: Path, newname: Path) {
    forall k :: Under(src, k) && k != src ==> View(s', newname + k[|src|..]) == View(s, k) && View(s', k).None?
  }

  /** The state once the directory `oldname` is `newname`. */
  function AfterDirMove(s: State, oldname: Path, newname: Path): State
    requires newname != []
  {
    var src := Terminal(s.renames, oldname);
    var l := Scaffold(s.overlay - {newname}, Parent(newname));
    s.(overlay := if src in s.overlay then Relocated(l, src, newname) else l + Transplanted(s.base, src, newname),
       tombs := s.tombs + (if src in s.base then {src, oldname} else {}) - {newname},
       renames := Redirected(s.renames, oldname, src, newname, src in s.base))
  }

  /** A directory that may be renamed, and a place for it. */
  ghost predicate MayMove(s: State, oldname: Path, newname: Path) {
    var src := Terminal(s.renames, oldname);
    && Tidy(s) && src != [] && IsDir(s, src) && !Under(src, newname)
    && newname != [] && newname !in s.renames && IsDir(s, Parent(newname)) && Untouched(s, newname)
  }

  /** A directory moves exactly if that condition holds. */
  lemma DirMovesExactly(s: State, oldname: Path, newname: Path)
    requires MayMove(s, oldname, newname)
    ensures var src, s' := Terminal(s.renames, oldname), AfterDirMove(s, oldname, newname);
            && View(s', newname) == Some(Directory) && View(s', src).None?
            && (MovedBelow(s, s', src, newname) <==> MovesWhole(s, src))
            && (forall q :: !Under(src, q) && !Under(newname, q) ==> View(s', q) == View(s, q))
  {
    hide Tidy, AfterDirMove, View, WholeAt, MayMove, IsDir;
    MayMoveHas(s, oldname, newname);
    var src, s' := Terminal(s.renames, oldname), AfterDirMove(s, oldname, newname);
    forall k ensures !Under(src, k) && !Under(newname, k) ==> View(s', k) == View(s, k)
      ensures k == src ==> View(s', k).None?
      ensures Under(src, k) && k != src ==> (View(s', k).None? <==> (k in s.base ==> k in s.tombs))
    {
      ViewAside(s, oldname, newname, k);
    }
    forall k | Under(src, k)
      ensures View(s', newname + k[|src|..]) ==
              if k == src then Some(Directory) else if src in s.overlay then Get(s.overlay, k) else Get(s.base, k) {
      ViewInside(s, oldname, newname, k);
    }
    assert newname + src[|src|..] == newname && Under(src, src);
    forall k | Under(src, k) && k != src
      ensures View(s', newname + k[|src|..]) == View(s, k) && View(s', k).None? <==> WholeAt(s, src, k) {
      ViewsAgree(s, s', oldname, newname, k);
    }
  }

  lemma MayMoveHas(s: State, oldname: Path, newname: Path)
    requires MayMove(s, oldname, newname)
    ensures newname != []
  {
  }

  /** At one path below the source. */
  predicate WholeAt(s: State, src: Path, k: Path) {
    if src in s.overlay then (k in s.base ==> k in s.tombs) && !(k in s.overlay && k in s.tombs) else k !in s.base
  }

  lemma ViewsAgree(s: State, s': State, oldname: Path, newname: Path, k: Path)
    requires MayMove(s, oldname, newname)
    requires var src := Terminal(s.renames, oldname);
             && Under(src, k) && k != src && (View(s', k).None? <==> (k in s.base ==> k in s.tombs))
             && View(s', newname + k[|src|..]) == if src in s.overlay then Get(s.overlay, k) else Get(s.base, k)
    ensures var src := Terminal(s.renames, oldname);
            View(s', newname + k[|src|..]) == View(s, k) && View(s', k).None? <==> WholeAt(s, src, k)
  {
    NoneInOverlay(s, Terminal(s.renames, oldname));
    hide Tidy, MayMove;
  }

  /** A file of the base stays where it was when its directory is renamed. */
  lemma LeftBehind()
    ensures var s := State(map[[] := Directory, ["d"] := Directory, ["d", "f"] := File([])], map[[] := Directory], {}, map[]);
            MayMove(s, ["d"], ["e"]) && !MovesWhole(s, ["d"])
  {
    var s := State(map[[] := Directory, ["d"] := Directory, ["d", "f"] := File([])], map[[] := Directory], {}, map[]);
    assert Parent(["d", "f"]) == ["d"] && Parent(["d"]) == [] && Parent(["e"]) == [];
    assert View(s, []) == Some(Directory) && View(s, ["d"]) == Some(Directory);
    assert Under(["d"], ["d", "f"]) && !WholeAt(s, ["d"], ["d", "f"]);
    var d, e: Path := ["d"], ["e"];
    assert d[0] != e[0] && !Under(d, e);
  }

  lemma NothingInTheWay(s: State, p: Path)
    requires Untouched(s, p) && p != []
    ensures Children(s.overlay, p) == {}
  {
    NoChildren(s.overlay, p);
    forall k | k != [] && Parent(k) == p ensures k !in s.overlay {
      Splits(k);
    }
  }

  lemma ScaffoldOfParent(l: Layer, p: Path)
    requires p != []
    ensures Parent(p) in l || Parent(p) == [] ==> Scaffold(l - {p}, Parent(p)) == l - {p}
  {
    NotUnderParent(p);
  }

  function Get(l: Layer, p: Path): Option<Node> { if p in l then Some(l[p]) else None }

  lemma NoneInOverlay(s: State, src: Path)
    requires Tidy(s)
    ensures src !in s.overlay ==> forall k :: Under(src, k) ==> k !in s.overlay
  {
    if src !in s.overlay { NothingBelow(s, src); }
  }

  /** Making the directory of the new place does not touch the source. */
  lemma ScaffoldAside(s: State, src: Path, newname: Path, k: Path)
    requires Tidy(s) && newname != [] && IsDir(s, Parent(newname)) && Untouched(s, newname) && !Under(src, newname)
    ensures var l := Scaffold(s.overlay - {newname}, Parent(newname));
            && (Under(src, k) && k != newname ==> Get(l, k) == Get(s.overlay, k))
            && (Under(newname, k) ==> k !in l)
            && (k != newname ==> View(s.(overlay := l), k) == View(s, k))
  {
    NotUnderParent(newname);
    ScaffoldWithout(s.overlay, newname, Parent(newname));
    ScaffoldHides(s, Parent(newname));
    assert View(s.(overlay := Scaffold(s.overlay, Parent(newname))), k) == View(s, k);
    hide Tidy, Scaffold, IsTree;
    assert Under(k, Parent(newname)) ==> Under(k, newname);
  }

  /** The old name, where it is an alias, was hidden before. */
  lemma OldNameHidden(s: State, oldname: Path, newname: Path)
    requires MayMove(s, oldname, newname)
    ensures var src := Terminal(s.renames, oldname);
            && (oldname != src ==> oldname in s.tombs) && oldname != newname && src != newname && !Under(newname, src)
  {
    assert View(s, Terminal(s.renames, oldname)).Some?;
  }

  lemma ViewAside(s: State, oldname: Path, newname: Path, k: Path)
    requires MayMove(s, oldname, newname)
    ensures var src, s' := Terminal(s.renames, oldname), AfterDirMove(s, oldname, newname);
            && (!Under(src, k) && !Under(newname, k) ==> View(s', k) == View(s, k))
            && (k == src ==> View(s', k).None?)
            && (Under(src, k) && k != src ==> (View(s', k).None? <==> (k in s.base ==> k in s.tombs)))
  {
    var src := Terminal(s.renames, oldname);
    OldNameHidden(s, oldname, newname);
    NoneInOverlay(s, src);
    hide Tidy, Scaffold;
    ScaffoldAside(s, src, newname, k);
    var l := Scaffold(s.overlay - {newname}, Parent(newname));
    TransplantedIs(l, src, newname, k);
    TransplantedIs(s.base, src, newname, k);
    hide Transplanted, Untouched;
    assert Under(src, k) && Under(newname, k) ==> Under(src, newname) || Under(newname, src);
  }

  lemma ViewInside(s: State, oldname: Path, newname: Path, k: Path)
    requires MayMove(s, oldname, newname) && Under(Terminal(s.renames, oldname), k)
    ensures var src := Terminal(s.renames, oldname);
            View(AfterDirMove(s, oldname, newname), newname + k[|src|..]) ==
              if k == src then Some(Directory) else if src in s.overlay then Get(s.overlay, k) else Get(s.base, k)
  {
    var src := Terminal(s.renames, oldname);
    var x := newname + k[|src|..];
    OldNameHidden(s, oldname, newname);
    SameRest(src, newname, k);
    InsideFacts(s, src, newname, k, x);
    var l := Scaffold(s.overlay - {newname}, Parent(newname));
    TransplantedIs(l, src, newname, x);
    TransplantedIs(s.base, src, newname, x);
    hide Tidy, Scaffold, Transplanted, MayMove, Untouched, IsTree, Terminal, IsDir;
  }

  lemma SameRest(p: Path, q: Path, k: Path)
    requires Under(p, k) && !Under(p, q) && !Under(q, p)
    ensures var x := q + k[|p|..];
            x[|q|..] == k[|p|..] && p + k[|p|..] == k && Under(q, x) && !Under(p, x) && (x == q <==> k == p)
  {
  }

  lemma InsideFacts(s: State, src: Path, newname: Path, k: Path, x: Path)
    requires Tidy(s) && newname != [] && IsDir(s, src) && IsDir(s, Parent(newname)) && Untouched(s, newname)
    requires Under(src, k) && Under(newname, x) && !Under(src, newname) && !Under(newname, src)
    ensures x != newname ==> x !in s.base && x !in s.tombs
    ensures var l := Scaffold(s.overlay - {newname}, Parent(newname)); x !in l && Get(l, k) == Get(s.overlay, k)
    ensures src in s.overlay ==> s.overlay[src] == Directory
    ensures src !in s.overlay ==> src in s.base && s.base[src] == Directory
  {
    hide Tidy, Scaffold;
    ScaffoldAside(s, src, newname, x);
    ScaffoldAside(s, src, newname, k);
  }

  /** Only what the overlay has can have entries there. */
  lemma ChildrenAreThere(s: State, p: Path)
    requires Tidy(s) && p != []
    ensures Children(s.overlay, p) != {} <==> p in s.overlay && TakeOut(s.overlay, p).None?
  {
    NoChildren(s.overlay, p);
  }

  /** Nothing leads to the content that was moved to the alias `newname`. */
  ghost predicate Lost(s: State, s': State, src: Path, newname: Path) {
    && (forall q :: Resolve(s'.renames, q, 0) != At(newname))
    && View(s', src).None?
    && Reads(s', newname) == if Terminal(s.renames, newname) == src then None else Seen(s, newname)
  }

  lemma MovedOntoAlias(s: State, oldname: Path, newname: Path, s': State)
    requires Tidy(s) && newname != [] && newname in s.renames && newname != Terminal(s.renames, oldname)
    requires Terminal(s.renames, oldname) != [] && Seen(s, oldname).Some? && IsDir(s, Parent(newname))
    requires s' == AfterMove(s, oldname, newname)
    ensures Lost(s, s', Terminal(s.renames, oldname), newname) && !Tidy(s')
  {
    hide Tidy, View, Scaffold, Resolve;
    var src, t := Terminal(s.renames, oldname), s.renames[newname];
    AfterMoveViews(s, oldname, newname);
    AliasAfterMove(s, oldname, newname, s'.renames);
    forall q ensures Resolve(s'.renames, q, 0) != At(newname) {
      EndsOutside(s'.renames, q, 0);
    }
    if t == src {
      SelfLoop(s'.renames, newname, 0);
    } else {
      OneRename(s'.renames, newname);
    }
    AliasIsHidden(s', newname);
  }

  lemma AfterMoveViews(s: State, oldname: Path, newname: Path)
    requires Tidy(s) && newname != [] && newname != Terminal(s.renames, oldname)
    requires Terminal(s.renames, oldname) != [] && Seen(s, oldname).Some? && IsDir(s, Parent(newname))
    ensures View(AfterMove(s, oldname, newname), Terminal(s.renames, oldname)).None?
    ensures View(AfterMove(s, oldname, newname), newname).Some?
    ensures forall q :: q !in {Terminal(s.renames, oldname), oldname, newname} ==>
              View(AfterMove(s, oldname, newname), q) == View(s, q)
  {
    hide Tidy, Scaffold, IsTree;
    ScaffoldHides(s, Parent(newname));
  }

  lemma AliasAfterMove(s: State, oldname: Path, newname: Path, m: Renames)
    requires Tidy(s) && newname in s.renames && newname != Terminal(s.renames, oldname)
    requires var src := Terminal(s.renames, oldname); m == Redirected(s.renames, oldname, src, newname, src in s.base)
    ensures newname in m
    ensures s.renames[newname] == Terminal(s.renames, oldname) ==> m[newname] == newname
    ensures var t := s.renames[newname];
            t != Terminal(s.renames, oldname) ==> m[newname] == t && t !in m && t != oldname && t != newname
  {
  }

  lemma AliasIsHidden(s: State, p: Path)
    requires p in s.renames && View(s, p).Some?
    ensures !Tidy(s)
  {
  }

  /** What a reader gets, errors of the rename map included. */
  function Reads(s: State, p: Path): Option<Node> {
    match Resolve(s.renames, p, 0)
    case Invalid => None
    case At(path) => View(s, path)
  }

  lemma NoRename(m: Renames, p: Path)
    requires p !in m
    ensures Resolve(m, p, 0) == At(p)
  {
  }

  lemma OneRename(m: Renames, p: Path)
    requires p in m && m[p] !in m
    ensures Resolve(m, p, 0) == At(m[p])
  {
    assert Resolve(m, p, 0) == Resolve(m, m[p], 1);
  }

  lemma {:induction false} EndsOutside(m: Renames, p: Path, hops: nat)
    ensures Resolve(m, p, hops).At? ==> Resolve(m, p, hops).path !in m
    decreases MAX_HOPS - hops
  {
    if hops < MAX_HOPS && p in m {
      EndsOutside(m, m[p], hops + 1);
    }
  }

  /** The state once `oldname` is `newname`. */
  function AfterMove(s: State, oldname: Path, newname: Path): State
    requires newname != [] && View(s, Terminal(s.renames, oldname)).Some?
  {
    var src := Terminal(s.renames, oldname);
    var node := View(s, src).value;
    var was := if src in s.base then {src, oldname} else {};
    s.(overlay := (Scaffold(s.overlay, Parent(newname)) - {newname})[newname := node] - {src},
       tombs := s.tombs + was - {newname},
       renames := Redirected(s.renames, oldname, src, newname, src in s.base))
  }

  lemma {:induction false} ScaffoldMisses(l: Layer, p: Path, d: Path)
    requires p !in l && !Under(p, d)
    ensures p !in Scaffold(l, d)
    decreases |d|
  {
    if d !in l && d != [] {
      assert !Under(p, Parent(d));
      ScaffoldMisses(l, p, Parent(d));
    }
  }

  lemma BookedTombs(tombs: set<Path>, oldname: Path, src: Path, newname: Path, newInBase: bool, srcInBase: bool)
    ensures (if newInBase then tombs + {newname} else tombs) + (if srcInBase then {src, oldname} else {}) - {newname}
            == tombs + (if srcInBase then {src, oldname} else {}) - {newname}
  {
  }

  lemma TombsAfter(tombs: set<Path>, newname: Path, newInBase: bool)
    ensures (if newInBase then tombs + {newname} else tombs) - {newname} == tombs - {newname}
  {
  }

  lemma OverlayAfter(s: State, src: Path, newname: Path)
    requires Tidy(s) && newname != [] && src != newname && View(s, src).Some? && !IsDir(s, src) && IsDir(s, Parent(newname))
    ensures var l := Scaffold(s.overlay - {newname}, Parent(newname));
            (Scaffold(s.overlay, Parent(newname)) - {newname})[newname := View(s, src).value] - {src} ==
              if src in l then l[newname := l[src]] - {src} else l[newname := View(s, src).value]
  {
    MoveFacts(s, src, newname);
  }

  lemma {:induction false} ScaffoldWithout(l: Layer, q: Path, d: Path)
    requires !Under(q, d)
    ensures Scaffold(l - {q}, d) == Scaffold(l, d) - {q}
    decreases |d|
  {
    if d !in l && d != [] {
      assert !Under(q, Parent(d));
      ScaffoldWithout(l, q, Parent(d));
    }
  }

  /** What the moving needs. */
  lemma MoveFacts(s: State, src: Path, newname: Path)
    requires Tidy(s) && newname != [] && src != newname && View(s, src).Some? && !IsDir(s, src) && IsDir(s, Parent(newname))
    ensures var l := Scaffold(s.overlay - {newname}, Parent(newname));
            && l == Scaffold(s.overlay, Parent(newname)) - {newname}
            && (src in l <==> src in s.overlay - {newname}) && [] in s.overlay - {newname}
            && (src in l ==> l[src] == View(s, src).value) && (src !in l ==> src in s.base && s.base[src] == View(s, src).value)
  {
    NotUnderParent(newname);
    ScaffoldWithout(s.overlay, newname, Parent(newname));
    ScaffoldHides(s, Parent(newname));
    var l := Scaffold(s.overlay, Parent(newname));
    assert View(s.(overlay := l), src) == View(s, src);
  }

  lemma MoveKeepsTidy(s: State, oldname: Path, newname: Path, s': State)
    requires Tidy(s) && newname != [] && newname !in s.renames && newname != Terminal(s.renames, oldname)
    requires Terminal(s.renames, oldname) != [] && Seen(s, oldname).Some? && !IsDir(s, Terminal(s.renames, oldname))
    requires IsDir(s, Parent(newname)) && !IsDir(s, newname)
    requires newname in s.overlay ==> TakeOut(s.overlay, newname).Some?
    requires s' == AfterMove(s, oldname, newname)
    ensures Tidy(s') && Moved(s, s', oldname, Terminal(s.renames, oldname), newname, Seen(s, oldname))
  {
    hide Tidy, Scaffold, IsTree, TakeOut, Moved, Shows;
    var src, dir := Terminal(s.renames, oldname), Parent(newname);
    var node := View(s, src).value;
    ScaffoldHides(s, dir);
    ScaffoldIsTidy(s, dir);
    var s1 := s.(overlay := Scaffold(s.overlay, dir));
    StillOut(s, newname);
    assert View(s1, newname) == View(s, newname) && View(s1, dir) == View(s, dir);
    ReplaceKeepsTidy(s1, newname, node, s.tombs - {newname});
    var s2 := s1.(overlay := (s1.overlay - {newname})[newname := node], tombs := s.tombs - {newname});
    assert View(s2, src) == View(s1, src) == View(s, src);
    assert View(s2, newname) == Some(node);
    SourceGoes(s2, oldname, newname, s');
    MovedAll(s, s1, s2, s', oldname, newname);
  }

  lemma StillOut(s: State, p: Path)
    requires Tidy(s) && p != [] && IsDir(s, Parent(p)) && (p in s.overlay ==> TakeOut(s.overlay, p).Some?)
    ensures var l := Scaffold(s.overlay, Parent(p)); p in l ==> TakeOut(l, p).Some?
  {
    ScaffoldHides(s, Parent(p));
    NotUnderParent(p);
    var l := Scaffold(s.overlay, Parent(p));
    NoChildren(s.overlay, p);
    NoChildren(l, p);
    if p in l {
      assert p in s.overlay;
      assert forall k :: k in l && k !in s.overlay ==> |k| < |p|;
    }
  }

  /** The source goes, and its aliases are redirected to `newname`, which shows the same. */
  lemma SourceGoes(s: State, oldname: Path, newname: Path, s': State)
    requires Tidy(s) && newname != [] && newname !in s.renames && newname != Terminal(s.renames, oldname)
    requires var src := Terminal(s.renames, oldname); src != [] && View(s, src).Some? && !IsDir(s, src) && View(s, newname) == View(s, src)
    requires var src := Terminal(s.renames, oldname);
             s' == s.(overlay := s.overlay - {src},
                      tombs := s.tombs + (if src in s.base then {src, oldname} else {}),
                      renames := Redirected(s.renames, oldname, src, newname, src in s.base))
    ensures Tidy(s')
    ensures forall q :: View(s', q) == if q == Terminal(s.renames, oldname) then None else View(s, q)
  {
    var src := Terminal(s.renames, oldname);
    SourceHidden(s, src, oldname, s');
    TidyParts(s);
    LeafMeansEmpty(s, src);
    hide Tidy, View, Closed, Aliases, Leftovers, IsTree, Redirected;
    TreeWithout(s.overlay, src);
    StillClosed(s, src, s');
    AliasesAfter(s, oldname, newname, s');
    StillLeftovers(s, src, oldname, s');
    TidyFrom(s');
  }

  lemma TidyParts(s: State)
    requires Tidy(s)
    ensures IsTree(s.base) && IsTree(s.overlay) && [] !in s.tombs && Closed(s) && Leftovers(s) && Aliases(s)
  {
  }

  lemma TidyFrom(s: State)
    requires IsTree(s.base) && IsTree(s.overlay) && [] !in s.tombs && Closed(s) && Leftovers(s) && Aliases(s)
    ensures Tidy(s)
  {
  }

  /** The old name, where it is not the source, is an alias, which shows nothing itself. */
  lemma SourceHidden(s: State, src: Path, oldname: Path, s': State)
    requires Tidy(s) && src == Terminal(s.renames, oldname) && src != [] && View(s, src).Some?
    requires s'.base == s.base && s'.overlay == s.overlay - {src} && s'.tombs == s.tombs + (if src in s.base then {src, oldname} else {})
    ensures forall q :: View(s', q) == if q == src then None else View(s, q)
    ensures [] !in s'.tombs
  {
    assert oldname != src ==> oldname in s.renames && View(s, oldname).None?;
    assert View(s, []).Some?;
  }

  lemma StillClosed(s: State, src: Path, s': State)
    requires Closed(s) && NothingIn(s, src) && forall q :: View(s', q) == if q == src then None else View(s, q)
    ensures Closed(s')
  {
  }

  lemma StillLeftovers(s: State, src: Path, oldname: Path, s': State)
    requires Leftovers(s) && Aliases(s) && src == Terminal(s.renames, oldname)
    requires s'.base == s.base && s'.overlay == s.overlay - {src} && s'.tombs == s.tombs + (if src in s.base then {src, oldname} else {})
    ensures Leftovers(s')
  {
    assert oldname != src ==> oldname in s.renames && oldname in s.base;
  }

  lemma TreeWithout(l: Layer, p: Path)
    requires IsTree(l) && p != [] && Children(l, p) == {}
    ensures IsTree(l - {p})
  {
    NoChildren(l, p);
  }

  lemma AliasesAfter(s: State, oldname: Path, newname: Path, s': State)
    requires Aliases(s) && newname !in s.renames && newname != Terminal(s.renames, oldname)
    requires var src := Terminal(s.renames, oldname);
             && View(s, src).Some? && View(s, newname).Some? && s'.base == s.base
             && (forall q :: View(s', q) == if q == src then None else View(s, q))
             && s'.renames == Redirected(s.renames, oldname, src, newname, src in s.base)
    ensures Aliases(s')
  {
    hide View;
    RedirectedIsFlat(s.renames, oldname, newname, Terminal(s.renames, oldname) in s.base);
  }

  lemma MovedAll(s: State, s1: State, s2: State, s': State, oldname: Path, newname: Path)
    requires Tidy(s) && Same(s, s1) && s1.renames == s.renames == s2.renames && s2.base == s.base
    requires newname !in s.renames && newname != Terminal(s.renames, oldname)
    requires Shows(s1, s2, newname, Seen(s, oldname))
    requires var src := Terminal(s.renames, oldname);
             && s'.renames == Redirected(s.renames, oldname, src, newname, src in s.base)
             && (forall q :: View(s', q) == if q == src then None else View(s2, q))
    ensures Moved(s, s', oldname, Terminal(s.renames, oldname), newname, Seen(s, oldname))
  {
    var src := Terminal(s.renames, oldname);
    RedirectedIsFlat(s.renames, oldname, newname, src in s.base);
    forall q ensures Seen(s', q) ==
        if q == src then (if oldname == src && src in s.base then Seen(s, oldname) else None)
        else if Terminal(s.renames, q) == src || Terminal(s.renames, q) == newname then Seen(s, oldname)
        else Seen(s, q) {
      assert Seen(s1, q) == Seen(s, q) && Seen(s2, newname) == Seen(s, oldname);
      assert Seen(s2, q) == if Terminal(s.renames, q) == newname then Seen(s, oldname) else Seen(s1, q);
    }
  }

  /** After a rename: the new name, and every alias of the source but the source itself, shows what the
      old name showed.  The source shows it too if it was the old name and came from the base, and
      nothing otherwise.  Nothing else changed. */
  ghost predicate Moved(s: State, s': State, oldname: Path, src: Path, newname: Path, node: Option<Node>) {
    forall q :: Seen(s', q) ==
      if q == src then (if oldname == src && src in s.base then node else None)
      else if Terminal(s.renames, q) == src || Terminal(s.renames, q) == newname then node
      else Seen(s, q)
  }

  lemma MovedIs(s: State, s': State, oldname: Path, src: Path, newname: Path, node: Option<Node>)
    requires Moved(s, s', oldname, src, newname, node) && newname !in s.renames && newname != src
    ensures Seen(s', newname) == node
    ensures forall q :: Terminal(s.renames, q) !in {src, newname} && q != src ==> Seen(s', q) == Seen(s, q)
  {
    hide View;
  }

  lemma RootIsThere(s: State)
    requires Tidy(s)
    ensures [] in s.overlay && forall p :: p in s.overlay && p != [] ==> Parent(p) in s.overlay
  {
  }

  /** A file or link copied next to what the overlay has. */
  lemma LeafCopies(s: State, p: Path)
    requires Tidy(s) && p in s.base && s.base[p] != Directory && p !in s.overlay && p != [] && Parent(p) in s.overlay
    ensures Copied(s.base, p, Scaffold(s.overlay, Parent(p))) == s.overlay[p := s.base[p]]
  {
    forall k | k in s.base && Under(p, k) ensures k == p {
      LeafAlone(s.base, p, k);
    }
  }

  lemma {:induction false} LeafAlone(l: Layer, p: Path, k: Path)
    requires IsTree(l) && p in l && l[p] != Directory && k in l && Under(p, k)
    ensures k == p
    decreases |k|
  {
    if k != p {
      assert Under(p, Parent(k));
      LeafAlone(l, p, Parent(k));
    }
  }

  lemma ScaffoldIsTidy(s: State, d: Path)
    requires Tidy(s) && IsDir(s, d)
    ensures var s' := s.(overlay := Scaffold(s.overlay, d)); Tidy(s') && Same(s, s')
  {
    ScaffoldHides(s, d);
    var s' := s.(overlay := Scaffold(s.overlay, d));
    forall q | q != [] && View(s', q).Some? ensures IsDir(s', Parent(q)) {
      assert View(s', q) == View(s, q) && View(s', Parent(q)) == View(s, Parent(q));
    }
    forall k | k in s.renames ensures View(s', k).None? && k in s.base && View(s', s.renames[k]).Some? {
      assert View(s', k) == View(s, k) && View(s', s.renames[k]) == View(s, s.renames[k]);
    }
  }

  /** A path that leads to something hidden is not an alias. */
  lemma HiddenIsItself(s: State, p: Path)
    requires Tidy(s) && Terminal(s.renames, p) in s.tombs
    ensures p !in s.renames && Terminal(s.renames, p) == p
  {
  }

  lemma Fresh(s: State, p: Path)
    requires Tidy(s)
    ensures p !in s.renames ==> Terminal(s.renames, p) == p
    ensures Terminal(s.renames, p) !in s.renames
  {
  }

  lemma NotUnderParent(p: Path)
    requires p != []
    ensures !Under(p, Parent(p))
  {
  }

  lemma SameThenShows(s: State, s1: State, s2: State, p: Path, node: Option<Node>)
    requires Same(s, s1) && s1.renames == s.renames && Shows(s1, s2, p, node)
    ensures Shows(s, s2, p, node)
  {
  }

  /** As `PutKeepsTidy`, where an empty directory nobody sees may be replaced. */
  lemma ReplaceKeepsTidy(s: State, p: Path, node: Node, tombs: set<Path>)
    requires Tidy(s) && p != [] && p !in s.renames && IsDir(s, Parent(p)) && Parent(p) in s.overlay && s.overlay[Parent(p)] == Directory
    requires !IsDir(s, p) && node != Directory && (p in s.overlay ==> TakeOut(s.overlay, p).Some?) && tombs == s.tombs - {p}
    ensures var s' := s.(overlay := (s.overlay - {p})[p := node], tombs := tombs);
            && Tidy(s') && Shows(s, s', p, Some(node))
            && (forall q :: View(s', q) == if q == p then Some(node) else View(s, q))
  {
    if p in s.overlay && s.overlay[p] == Directory {
      LeftoverGoes(s, p);
      var s1 := s.(overlay := s.overlay - {p});
      forall q ensures View(s1, q) == View(s, q) {
      }
      PutKeepsTidy(s1, p, node, tombs);
      SameThenShows(s, s1, s1.(overlay := s1.overlay[p := node], tombs := tombs), p, Some(node));
    } else {
      assert (s.overlay - {p})[p := node] == s.overlay[p := node];
      PutKeepsTidy(s, p, node, tombs);
    }
  }

  /** `Remove` finds entries: what the overlay lists, hidden or not, and what is not hidden of the base. */
  predicate Refuses(s: State, p: Path) {
    if p in s.tombs then p in s.overlay && Children(s.overlay, p) != {}
    else View(s, p) == Some(Directory) && (Children(s.overlay, p) != {} || exists n :: n in Children(s.base, p) && p + [n] !in s.tombs)
  }

  lemma RefusedIsThere(s: State, p: Path)
    ensures Refuses(s, p) ==> p in s.base.Keys + s.overlay.Keys + s.tombs
  {
  }

  /** A directory that looks empty is refused exactly if the overlay has entries of it that are hidden, as
      after a copy of the directory. */
  lemma LooksEmpty(s: State, p: Path)
    requires Tidy(s) && IsDir(s, p) && NothingIn(s, p)
    ensures Refuses(s, p) <==> exists n :: p + [n] in s.overlay && p + [n] in s.tombs
  {
    assert forall n :: View(s, p + [n]).None? by {
      forall n ensures View(s, p + [n]).None? { assert Parent(p + [n]) == p; }
    }
    forall n ensures n in Children(s.overlay, p) <==> p + [n] in s.overlay && p + [n] in s.tombs
      ensures n in Children(s.base, p) ==> p + [n] in s.tombs
    {
      ChildIs(s.overlay, p, n);
      ChildIs(s.base, p, n);
    }
    hide Children;
  }

  /** No child of `p` is seen. */
  ghost predicate NothingIn(s: State, p: Path) {
    forall k :: k != [] && Parent(k) == p ==> View(s, k).None?
  }

  lemma SameShows(s: State, s': State, p: Path)
    requires Same(s, s') && View(s, p).None?
    ensures Shows(s, s', p, None)
  {
  }

  lemma SameItself(s: State)
    ensures Same(s, s)
  {
  }

  lemma Visible(s: State, p: Path)
    ensures View(s, p).Some? <==> p !in s.tombs && (p in s.overlay || p in s.base)
  {
  }

  lemma TidyResolves(s: State, p: Path)
    requires Tidy(s)
    ensures Resolve(s.renames, p, 0) == At(Terminal(s.renames, p))
  {
    FlatResolves(s.renames, p);
  }

  /** Nothing is seen below what is hidden. */
  lemma NoneUnder(s: State, p: Path)
    requires Tidy(s) && p in s.tombs
    ensures View(s, p).None? && NothingIn(s, p)
  {
  }

  /** A leftover of a copy goes: nobody saw it. */
  lemma LeftoverGoes(s: State, p: Path)
    requires Tidy(s) && p in s.tombs && TakeOut(s.overlay, p).Some?
    ensures var s' := s.(overlay := s.overlay - {p}); Tidy(s') && Same(s, s')
  {
    var s' := s.(overlay := s.overlay - {p});
    TidyParts(s);
    assert p != [] && Children(s.overlay, p) == {};
    hide Tidy, Closed, Aliases, Leftovers, IsTree;
    LeftoverUnseen(s, p, s');
    TreeWithout(s.overlay, p);
    hide View;
    SameViews(s, s');
    TidyFrom(s');
  }

  lemma LeftoverUnseen(s: State, p: Path, s': State)
    requires p in s.tombs && s' == s.(overlay := s.overlay - {p}) && Leftovers(s)
    ensures (forall q :: View(s', q) == View(s, q)) && Leftovers(s')
  {
  }

  lemma SameViews(s: State, s': State)
    requires Closed(s) && Aliases(s) && s'.renames == s.renames && s'.base == s.base && forall q :: View(s', q) == View(s, q)
    ensures Closed(s') && Aliases(s') && Same(s, s')
  {
    hide View;
  }

  /** A tombstone where nothing is. */
  lemma AbsentGoes(s: State, p: Path)
    requires Tidy(s) && p !in s.base && p !in s.overlay
    ensures var s' := s.(tombs := s.tombs + {p}); Tidy(s') && Same(s, s')
  {
    var s' := s.(tombs := s.tombs + {p});
    forall q ensures View(s', q) == View(s, q) {
    }
  }

  /** The emptiness test: no entry of either layer that is not hidden means no child is seen. */
  lemma EmptyMeansEmpty(s: State, p: Path)
    requires Children(s.overlay, p) == {} && forall n :: n in Children(s.base, p) ==> p + [n] in s.tombs
    ensures NothingIn(s, p)
  {
    forall k | k != [] && Parent(k) == p ensures View(s, k).None? {
      Splits(k);
      ChildIs(s.base, p, Base(k));
      ChildIs(s.overlay, p, Base(k));
    }
  }

  lemma LeafMeansEmpty(s: State, p: Path)
    requires Tidy(s) && View(s, p).Some? && !IsDir(s, p)
    ensures Children(s.overlay, p) == {} && NothingIn(s, p)
  {
    NoChildren(s.overlay, p);
  }

  lemma OverlayListing(s: State, d: Path)
    requires Tidy(s) && d in s.overlay && !(d in s.base && s.base[d] == Directory)
    ensures forall n :: n in Children(s.overlay, d) <==> View(s, d + [n]).Some?
  {
    forall n ensures n in Children(s.overlay, d) <==> View(s, d + [n]).Some? {
      ChildIs(s.overlay, d, n);
      assert d + [n] != [] && Parent(d + [n]) == d;
    }
  }

  lemma UnionListing(s: State, d: Path, names: set<Name>)
    requires forall n :: n in names <==> (n in Children(s.base, d) || n in Children(s.overlay, d)) && d + [n] !in s.tombs
    ensures forall n :: n in names <==> View(s, d + [n]).Some?
  {
    forall n ensures n in names <==> View(s, d + [n]).Some? {
      ChildIs(s.base, d, n);
      ChildIs(s.overlay, d, n);
    }
  }

  lemma BaseListing(s: State, d: Path, names: set<Name>)
    requires Tidy(s) && d !in s.overlay
    requires forall n :: n in names <==> n in Children(s.base, d) && d + [n] !in s.tombs
    ensures forall n :: n in names <==> View(s, d + [n]).Some?
  {
    forall n ensures n in names <==> View(s, d + [n]).Some? {
      ChildIs(s.base, d, n);
      assert d + [n] != [] && Parent(d + [n]) == d;
    }
  }

  /** A reader finds under a name what is there, or what an alias of that name leads to. */
  lemma AliasListing(s: State, d: Path)
    requires Tidy(s)
    ensures forall n :: Seen(s, d + [n]).Some? <==> View(s, d + [n]).Some? || d + [n] in s.renames
  {
  }
}
