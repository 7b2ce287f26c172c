/** The generic helpers that recurse over a file system, on the in-memory one. */
module MemTree {
  import opened Paths
  import opened Memfs
  import FileHandle

  /** Nothing of the way from `p` down to `k` is hidden. */
  predicate Visible(p: Path, k: Path) { forall i :: |p| <= i < |k| ==> !Hidden(k[i]) }

  predicate AllVisible(m: Nodes, p: Path) { forall k :: k in m && Under(p, k) ==> Visible(p, k) }

  /** Every node strictly below `p` is in a directory. */
  predicate TreeAt(m: Nodes, p: Path) {
    forall k :: k in m && Under(p, k) && k != p ==> IsDir(m, Parent(k))
  }

  lemma {:induction false} OnTheWay(m: Nodes, p: Path, e: Path, k: Path)
    requires TreeAt(m, p) && k in m && Under(p, e) && Under(e, k) && e != k
    ensures IsDir(m, e)
    decreases |k|
  {
    assert Under(e, Parent(k)) && Under(p, k);
    if Parent(k) != e {
      OnTheWay(m, p, e, Parent(k));
    }
  }

  /** A listing shows the entries there are, but for the hidden ones. */
  lemma ListedIs(m: Nodes, p: Path, n: Name)
    requires TreeAt(m, p)
    ensures n in Listed(m, p) <==> !Hidden(n) && p + [n] in m
  {
    if n in Listed(m, p) {
      var k :| k in m && Under(p, k) && k != p && !Hidden(k[|p|]) && k[|p|] == n;
      UnderChild(p, n, k);
      if k != p + [n] {
        OnTheWay(m, p, p + [n], k);
      }
    }
    if !Hidden(n) && p + [n] in m {
      UnderChild(p, n, p + [n]);
    }
  }

  // ----------------------------------------------------------------------------- RemoveAll

  /** Something hidden below an entry that can be seen. */
  predicate Buried(m: Nodes, p: Path) {
    exists k :: k in m && Under(p, k) && k != p && !Hidden(k[|p|]) && !Visible(p, k)
  }

  /** What is left, sizes aside, when of the entries `done` of `p` all that can be seen is gone. */
  function Left(m: Nodes, p: Path, done: set<Name>, k: Path): Option<Node> {
    if Under(p, k) && k != p && k[|p|] in done && Visible(p, k) then None else Bare(Get(m, k))
  }

  ghost predicate Cleared(m: Nodes, p: Path, done: set<Name>, now: Nodes) {
    forall k :: Bare(Get(now, k)) == Left(m, p, done, k)
  }

  /** Exactly the path and what can be seen below it went. */
  ghost predicate Gone(m: Nodes, p: Path, now: Nodes) {
    forall k :: Bare(Get(now, k)) == if Under(p, k) && Visible(p, k) then None else Bare(Get(m, k))
  }

  /** At most what can be seen below `p` went. */
  ghost predicate PartGone(m: Nodes, p: Path, now: Nodes) {
    forall k :: Bare(Get(now, k)) == Bare(Get(m, k)) || (k !in now && Under(p, k) && k != p && Visible(p, k))
  }

  /** `RemoveAll`, entry by entry in any order.  It fails exactly where something hidden lies below an
      entry: that entry looks empty, goes, and is then listed still.  What is hidden in the path itself is
      left behind without a directory; the map stays in order exactly if nothing is hidden. */
  method RemoveAll(fsys: MemFS, p: Path) returns (r: Result)
    requires TreeAt(fsys.nodes, p)
    modifies fsys
    ensures r == if p == [] then Invalid else if p !in old(fsys.nodes) then NotExist
                 else if Buried(old(fsys.nodes), p) then NotEmpty else Ok
    ensures r == Invalid || r == NotExist ==> fsys.nodes == old(fsys.nodes)
    ensures r == Ok ==> Gone(old(fsys.nodes), p, fsys.nodes)
    ensures r == NotEmpty ==> PartGone(old(fsys.nodes), p, fsys.nodes) && !Rooted(fsys.nodes)
    ensures Sound(old(fsys.nodes)) ==> (Sound(fsys.nodes) <==> p == [] || AllVisible(old(fsys.nodes), p))
    decreases Subtree(fsys.nodes, p)
  {
    hide *;
    ghost var m := fsys.nodes;
    r := fsys.Remove(p);
    if r != NotEmpty {
      RemovedLeaf(m, p, fsys.nodes, r);
      return;
    }
    var left := Listed(fsys.nodes, p);
    ghost var all := left;
    NothingCleared(m, p);
    assert all - left == {};
    while left != {}
      invariant left <= all && Cleared(m, p, all - left, fsys.nodes)
      invariant Sound(m) && AllVisible(m, p) ==> Sound(fsys.nodes)
      decreases left
    {
      var n :| n in left;
      ghost var done, now := all - left, fsys.nodes;
      EntryIsSmaller(m, p, done, n, now);
      r := RemoveAll(fsys, p + [n]);
      if r != Ok {
        FailedBelow(m, p, n, done, now, fsys.nodes);
        return;
      }
      EntryCleared(m, p, done, n, now, fsys.nodes);
      left := left - {n};
      assert all - left == done + {n};
    }
    assert all - left == all;
    ghost var now := fsys.nodes;
    AllCleared(m, p, now);
    r := fsys.Remove(p);
    RemovedLast(m, p, now, fsys.nodes, r);
  }

  /** A directory with nothing but a hidden name in it keeps its own directory from going. */
  lemma HiddenInTheWay()
    ensures var m := map[["d"] := Dir(0, 3), ["d", "e"] := Dir(0, 3), ["d", "e", "#h"] := File(0, [])];
            TreeAt(m, ["d"]) && Buried(m, ["d"])
  {
    var m := map[["d"] := Dir(0, 3), ["d", "e"] := Dir(0, 3), ["d", "e", "#h"] := File(0, [])];
    var k := ["d", "e", "#h"];
    assert Parent(k) == ["d", "e"] && Parent(["d", "e"]) == ["d"];
    assert k in m && Under(["d"], k) && !Hidden(k[1]) && Hidden(k[2]);
  }

  lemma RemovedLeaf(m: Nodes, p: Path, now: Nodes, r: Result)
    requires TreeAt(m, p) && r != NotEmpty
    requires r == if p == [] then Invalid else if !There(m, p) then NotExist
                  else if (p in m ==> m[p].Dir?) && Listed(m, p) != {} then NotEmpty else Ok
    requires if r == Ok then OnlyAt(m, now, p, None) else now == m
    requires Sound(m) ==> (Sound(now) <==> r != Ok || Kids(m, p) == {})
    ensures r == if p == [] then Invalid else if p !in m then NotExist else if Buried(m, p) then NotEmpty else Ok
    ensures r == Ok ==> Gone(m, p, now)
    ensures Sound(m) ==> (Sound(now) <==> p == [] || AllVisible(m, p))
  {
    hide Sized, Sound;
    if p != [] {
      OnlyHiddenBelow(m, p);
      HiddenKids(m, p);
      if r == Ok {
        forall k ensures Bare(Get(now, k)) == if Under(p, k) && Visible(p, k) then None else Bare(Get(m, k)) {
          assert Bare(Get(now, k)) == Bare(if k == p then None else Get(m, k));
          assert Under(p, k) && k != p && k in m ==> Hidden(k[|p|]);
        }
      }
    }
  }

  lemma OnlyHiddenBelow(m: Nodes, p: Path)
    requires TreeAt(m, p) && p != [] && (There(m, p) && (p in m ==> m[p].Dir?) ==> Listed(m, p) == {})
    ensures forall k :: k in m && Under(p, k) && k != p ==> p in m && Hidden(k[|p|])
    ensures There(m, p) <==> p in m
    ensures !Buried(m, p)
  {
    forall k | k in m && Under(p, k) && k != p ensures p in m && Hidden(k[|p|]) {
      OnTheWay(m, p, p, k);
      assert k[|p|] !in Listed(m, p);
    }
  }

  lemma HiddenKids(m: Nodes, p: Path)
    requires TreeAt(m, p) && forall k :: k in m && Under(p, k) && k != p ==> p in m && Hidden(k[|p|])
    ensures Kids(m, p) == {} <==> AllVisible(m, p)
  {
    forall k | k in Kids(m, p) ensures !AllVisible(m, p) {
      Splits(k);
      assert Under(p, k) && !Visible(p, k);
    }
    if k :| k in m && Under(p, k) && !Visible(p, k) {
      var e := p + [k[|p|]];
      assert e == k[..|p| + 1];
      if e != k {
        OnTheWay(m, p, e, k);
      }
      assert Parent(e) == p && e in Kids(m, p);
    }
  }

  lemma NothingCleared(m: Nodes, p: Path)
    ensures Cleared(m, p, {}, m)
  {
  }

  lemma ClearedAt(m: Nodes, p: Path, done: set<Name>, now: Nodes, k: Path)
    requires Cleared(m, p, done, now)
    ensures Bare(Get(now, k)) == Left(m, p, done, k)
    ensures k in now ==> k in m && Bare(Get(now, k)) == Bare(Get(m, k))
  {
  }

  lemma EntryIsSmaller(m: Nodes, p: Path, done: set<Name>, n: Name, now: Nodes)
    requires TreeAt(m, p) && n in Listed(m, p) && n !in done && Cleared(m, p, done, now)
    ensures p in m && p + [n] != [] && p + [n] in now
    ensures TreeAt(now, p + [n]) && Subtree(now, p + [n]) < Subtree(m, p)
    ensures !Hidden(n)
    ensures Buried(now, p + [n]) ==> Buried(m, p)
    ensures AllVisible(m, p) ==> AllVisible(now, p + [n])
  {
    ListedIs(m, p, n);
    var e := p + [n];
    UnderChild(p, n, e);
    forall k | Under(e, k) ensures Under(p, k) && k != p && k[|p|] == n && Bare(Get(now, k)) == Bare(Get(m, k)) {
      UnderChild(p, n, k);
      ClearedAt(m, p, done, now, k);
    }
    forall k | k in now && Under(e, k) && k != e ensures IsDir(now, Parent(k)) {
      assert IsDir(m, Parent(k)) && Under(e, Parent(k));
    }
    assert Parent(e) == p && p in Subtree(m, p) && p !in Subtree(now, e);
    if k :| k in now && Under(e, k) && k != e && !Hidden(k[|e|]) && !Visible(e, k) {
      assert !Visible(p, k);
    }
  }

  lemma FailedBelow(m: Nodes, p: Path, n: Name, done: set<Name>, now: Nodes, next: Nodes)
    requires !Hidden(n) && Cleared(m, p, done, now) && PartGone(now, p + [n], next) && !Rooted(next) && Buried(m, p)
    ensures PartGone(m, p, next) && !Sound(next) && !AllVisible(m, p)
  {
    forall k ensures Bare(Get(next, k)) == Bare(Get(m, k)) || (k !in next && Under(p, k) && k != p && Visible(p, k)) {
      UnderChild(p, n, k);
      ClearedAt(m, p, done, now, k);
      assert Bare(Get(next, k)) == Bare(Get(now, k)) || (k !in next && Under(p + [n], k) && Visible(p + [n], k));
    }
  }

  lemma EntryCleared(m: Nodes, p: Path, done: set<Name>, n: Name, now: Nodes, next: Nodes)
    requires !Hidden(n) && Cleared(m, p, done, now) && Gone(now, p + [n], next)
    ensures Cleared(m, p, done + {n}, next)
  {
    forall k ensures Bare(Get(next, k)) == Left(m, p, done + {n}, k) {
      UnderChild(p, n, k);
      ClearedAt(m, p, done, now, k);
      assert Under(p + [n], k) ==> (Visible(p + [n], k) <==> Visible(p, k));
    }
  }

  /** When all that can be seen is gone, entries are still listed exactly if something is buried. */
  lemma AllCleared(m: Nodes, p: Path, now: Nodes)
    requires TreeAt(m, p) && Listed(m, p) != {} && Cleared(m, p, Listed(m, p), now)
    ensures p in m && There(now, p) && p in now && now[p].Dir?
    ensures Listed(now, p) != {} <==> Buried(m, p)
    ensures Buried(m, p) ==> !Rooted(now) && !AllVisible(m, p)
    ensures AllVisible(m, p) ==> Kids(now, p) == {}
  {
    var n :| n in Listed(m, p);
    ListedIs(m, p, n);
    assert Parent(p + [n]) == p && Under(p, p + [n]);
    ClearedAt(m, p, Listed(m, p), now, p);
    forall k | k in now && Under(p, k) && k != p ensures k in m && (Visible(p, k) ==> false) {
      ClearedAt(m, p, Listed(m, p), now, k);
    }
    if k :| k in m && Under(p, k) && k != p && !Hidden(k[|p|]) && !Visible(p, k) {
      StillListed(m, p, now, k);
    }
    forall k | k in Kids(now, p) ensures !AllVisible(m, p) {
      Splits(k);
      assert Under(p, k) && k != p;
    }
  }

  lemma StillListed(m: Nodes, p: Path, now: Nodes, k: Path)
    requires TreeAt(m, p) && Cleared(m, p, Listed(m, p), now)
    requires k in m && Under(p, k) && k != p && !Hidden(k[|p|]) && !Visible(p, k)
    ensures k[|p|] in Listed(now, p) && !Rooted(now)
  {
    var e := p + [k[|p|]];
    assert k[|p|] in Listed(m, p);
    ClearedAt(m, p, Listed(m, p), now, k);
    ClearedAt(m, p, Listed(m, p), now, e);
    UnderChild(p, k[|p|], k);
    UnderChild(p, k[|p|], e);
    assert Visible(p, e) && e != k;
    if Rooted(now) {
      AncestorIn(now, e, k);
    }
  }

  lemma RemovedLast(m: Nodes, p: Path, now: Nodes, next: Nodes, r: Result)
    requires p != [] && p in m && Cleared(m, p, Listed(m, p), now)
    requires r == if Buried(m, p) then NotEmpty else Ok
    requires if r == Ok then OnlyAt(now, next, p, None) else next == now && !Rooted(now)
    requires Sound(m) && AllVisible(m, p) ==> Sound(now) && Kids(now, p) == {} && r == Ok
    requires Sound(now) ==> (Sound(next) <==> r != Ok || Kids(now, p) == {})
    ensures r == Ok ==> Gone(m, p, next)
    ensures r == NotEmpty ==> PartGone(m, p, next) && !Rooted(next)
    ensures Sound(m) ==> (Sound(next) <==> AllVisible(m, p))
  {
    hide Sized, Kids;
    forall k ensures Bare(Get(now, k)) == (if Under(p, k) && k != p && Visible(p, k) then None else Bare(Get(m, k))) {
      ClearedAt(m, p, Listed(m, p), now, k);
    }
    if r == Ok {
      forall k ensures Bare(Get(next, k)) == if Under(p, k) && Visible(p, k) then None else Bare(Get(m, k)) {
        assert Bare(Get(next, k)) == Bare(if k == p then None else Get(now, k));
      }
      if k :| k in m && Under(p, k) && !Visible(p, k) {
        assert Bare(Get(next, k)) == Bare(Get(m, k)) && Bare(Get(next, p)) == None;
        if Rooted(next) {
          AncestorIn(next, p, k);
        }
      }
    }
  }

  // ------------------------------------------------------------------------------ MkdirAll

  /** No prefix is anything but a directory. */
  predicate NoFileAbove(m: Nodes, p: Path) {
    forall i :: 0 <= i <= |p| && p[..i] in m ==> m[p[..i]].Dir?
  }

  /** Exactly the missing prefixes of `p` were made. */
  ghost predicate Scaffolded(m: Nodes, p: Path, perm: Perm, now: Nodes) {
    forall k :: Bare(Get(now, k)) == if Under(k, p) && k !in m then Some(Dir(perm, 0)) else Bare(Get(m, k))
  }

  /** `MkdirAll` takes whatever is at the path for a directory, and makes missing ones below anything. */
  method MkdirAll(fsys: MemFS, p: Path, perm: Perm) returns (r: Result)
    requires Sound(fsys.nodes)
    modifies fsys
    ensures r == Ok && Scaffolded(old(fsys.nodes), p, perm, fsys.nodes)
    ensures IsDir(fsys.nodes, p) <==> p !in old(fsys.nodes) || old(fsys.nodes)[p].Dir?
    ensures Sound(fsys.nodes) <==> p in old(fsys.nodes) || NoFileAbove(old(fsys.nodes), p)
    decreases |p|
  {
    hide Rooted, Sized, There, Scaffolded, NoFileAbove;
    ghost var m := fsys.nodes;
    Implied(m, p);
    Implied(m, Up(p));
    r := fsys.Mkdir(p, perm);
    if r == Ok {
      MadeOne(m, p, perm, fsys.nodes);
      FitsUnder(m, p);
      return;
    }
    if r == Exists {
      ThereAlready(m, p, perm);
      return Ok;
    }
    RootIsThere(m);
    r := MkdirAll(fsys, Parent(p), perm);
    ghost var now := fsys.nodes;
    ParentIsMade(m, p, perm, now);
    r := fsys.Mkdir(p, perm);
    MadeLast(m, p, perm, now, fsys.nodes);
    FileInTheWay(m, p, perm, now, fsys.nodes);
  }

  lemma RootIsThere(m: Nodes)
    requires Rooted(m)
    ensures IsDir(m, [])
  {
  }

  /** Where the parent is there, only it can be in the way. */
  lemma FitsUnder(m: Nodes, p: Path)
    requires Rooted(m) && p != [] && p !in m && Parent(p) in m
    ensures Free(m, p) <==> NoFileAbove(m, p)
  {
    AbsentHasNoKids(m, p);
    assert p[..|p| - 1] == Parent(p) && p[..|p|] == p;
    forall i | 0 <= i < |p| - 1 ensures IsDir(m, p[..i]) {
      DirsAbove(m, Parent(p), i);
      assert p[..i] == Parent(p)[..i];
    }
    hide Rooted, Kids;
  }

  lemma DirsAbove(m: Nodes, p: Path, i: nat)
    requires Rooted(m) && p in m && i < |p|
    ensures IsDir(m, p[..i])
  {
    AncestorIn(m, p[..i], p);
  }

  lemma ParentIsMade(m: Nodes, p: Path, perm: Perm, now: Nodes)
    requires Sound(m) && p != [] && p !in m && Parent(p) !in m && Scaffolded(m, Parent(p), perm, now)
    ensures !There(now, p) && There(now, Parent(p)) && IsDir(now, Parent(p)) && Kids(now, p) == {}
    ensures NoFileAbove(m, p) <==> NoFileAbove(m, Parent(p))
  {
    forall k | Under(p, k) ensures k !in now {
      assert Bare(Get(now, k)) == if Under(k, Parent(p)) && k !in m then Some(Dir(perm, 0)) else Bare(Get(m, k));
      Implied(m, p);
    }
    forall k | k in Kids(now, p) ensures false {
      Splits(k);
      assert Under(p, k);
    }
    assert Bare(Get(now, Parent(p))) == Some(Dir(perm, 0));
    forall i | 0 <= i <= |Parent(p)| ensures Parent(p)[..i] == p[..i] {
    }
    assert p[..|p|] == p;
  }

  /** With a file above the path there is no way to what was made. */
  lemma FileInTheWay(m: Nodes, p: Path, perm: Perm, now: Nodes, next: Nodes)
    requires Sound(m) && p != [] && p !in m && NoFileAbove(m, p) == NoFileAbove(m, Parent(p))
    requires Free(now, p) && (Sound(now) <==> NoFileAbove(m, Parent(p)))
    requires Scaffolded(m, p, perm, next)
    requires Sound(now) ==> (Sound(next) <==> Free(now, p))
    ensures IsDir(next, p) && (Sound(next) <==> NoFileAbove(m, p))
  {
    assert Bare(Get(next, p)) == Some(Dir(perm, 0));
    if i :| 0 <= i <= |p| && p[..i] in m && !m[p[..i]].Dir? {
      assert Bare(Get(next, p[..i])) == Bare(Get(m, p[..i]));
      assert p[..|p|] == p;
      if Rooted(next) {
        AncestorIn(next, p[..i], p);
      }
    }
  }

  lemma MadeOne(m: Nodes, p: Path, perm: Perm, now: Nodes)
    requires Rooted(m) && p != [] && Parent(p) in m && p !in m && OnlyAt(m, now, p, Some(Dir(perm, 2)))
    ensures Scaffolded(m, p, perm, now)
  {
    forall k ensures Bare(Get(now, k)) == if Under(k, p) && k !in m then Some(Dir(perm, 0)) else Bare(Get(m, k)) {
      assert Bare(Get(now, k)) == Bare(if k == p then Some(Dir(perm, 2)) else Get(m, k));
      if Under(k, p) && k != p {
        assert Under(k, Parent(p));
        if k != Parent(p) { AncestorIn(m, k, Parent(p)); }
      }
    }
  }

  lemma ThereAlready(m: Nodes, p: Path, perm: Perm)
    requires Rooted(m) && p in m
    ensures Scaffolded(m, p, perm, m)
  {
    forall k | Under(k, p) && k != p ensures k in m {
      AncestorIn(m, k, p);
    }
  }

  lemma MadeLast(m: Nodes, p: Path, perm: Perm, now: Nodes, next: Nodes)
    requires p != [] && p !in m && Scaffolded(m, Parent(p), perm, now) && OnlyAt(now, next, p, Some(Dir(perm, 2)))
    ensures Scaffolded(m, p, perm, next)
  {
    forall k ensures Bare(Get(next, k)) == if Under(k, p) && k !in m then Some(Dir(perm, 0)) else Bare(Get(m, k)) {
      assert Bare(Get(next, k)) == Bare(if k == p then Some(Dir(perm, 2)) else Get(now, k));
      assert Bare(Get(now, k)) == if Under(k, Parent(p)) && k !in m then Some(Dir(perm, 0)) else Bare(Get(m, k));
      assert Under(k, p) && k != p <==> Under(k, Parent(p));
    }
  }

  // -------------------------------------------------------------------------------- CopyFS

  const DEFAULT_LINK: Perm := 0x1ff
  const OWNER_RX: Perm := 0x140

  /** The mode a directory is copied with: one the owner can neither read nor enter gets both bits. */
  function DirPerm(perm: Perm): Perm {
    if perm & OWNER_RX == 0 then perm | OWNER_RX else perm
  }

  /** What a node is copied to, sizes aside. */
  function CopyOf(n: Option<Node>): Option<Node> {
    match n
    case None => None
    case Some(File(perm, data)) => n
    case Some(Link(perm, target)) => Some(Link(DEFAULT_LINK, target))
    case Some(Dir(perm, _)) => Some(Dir(DirPerm(perm), 0))
  }

  /** What can be seen from `s`. */
  function Seen(src: Nodes, s: Path, k: Path): Option<Node> { if Visible(s, k) then Get(src, k) else None }

  /** What can be seen of the subtree of `src` at `s` is copied to `d`; the rest is as it was. */
  ghost predicate Copied(src: Nodes, s: Path, m: Nodes, d: Path, now: Nodes) {
    forall k :: Bare(Get(now, k)) == if Under(d, k) then CopyOf(Seen(src, s, s + k[|d|..])) else Bare(Get(m, k))
  }

  /** The entries `done` of the directory at `s` are copied, into a directory of mode `perm`. */
  ghost predicate PartCopied(src: Nodes, s: Path, m: Nodes, d: Path, perm: Perm, done: set<Name>, now: Nodes) {
    forall k :: Bare(Get(now, k)) ==
      (if k == d then Some(Dir(perm, 0))
       else if Under(d, k) then (if k[|d|] in done then CopyOf(Seen(src, s, s + k[|d|..])) else None)
       else Bare(Get(m, k)))
  }

  /** `OpenFile` for writing with create and truncate, where the file system has no such operation:
      open, or create and, if it was there, create again; set the mode; open once more. */
  method OpenTruncated(fsys: MemFS, p: Path, perm: Perm) returns (r: Result)
    requires Sound(fsys.nodes) && (p in fsys.nodes ==> fsys.nodes[p].File?)
    modifies fsys
    ensures r == if p != [] && Parent(p) in old(fsys.nodes) then Ok else NotExist
    ensures r == NotExist ==> fsys.nodes == old(fsys.nodes)
    ensures r == Ok ==> OnlyAt(old(fsys.nodes), fsys.nodes, p, Some(File(if perm != 0 then perm else 0x1a4, [])))
    ensures Sound(fsys.nodes) <==> r == NotExist || Free(old(fsys.nodes), p)
  {
    hide Rooted, Sized, There, OnlyAt, Kids;
    ghost var m := fsys.nodes;
    RootIsThere(m);
    Implied(m, Up(p));
    if p in m { ParentIsIn(m, p); }
    var created := false;
    if p !in fsys.nodes {
      created := true;
      r := fsys.Create(p);
      if r != Ok {
        return;
      }
    }
    if !created {
      r := fsys.Create(p);
    }
    ghost var made := fsys.nodes;
    HoldsFile(m, made, p, File(0x1a4, []));
    if perm != 0 {
      r := fsys.Chmod(p, perm);
      OnlyAtTwice(m, made, fsys.nodes, p, File(0x1a4, []), File(perm, []));
      if Sound(fsys.nodes) { Rechmod(made, p, perm); }
    }
    r := Ok;
  }

  lemma ParentIsIn(m: Nodes, p: Path)
    requires Rooted(m) && p in m
    ensures p != [] ==> Parent(p) in m
  {
  }

  /** Setting a mode does not put a map in order. */
  lemma Rechmod(m: Nodes, p: Path, perm: Perm)
    requires p in m && Sound(m[p := WithPerm(m[p], perm)])
    ensures Sound(m)
  {
    var now := m[p := WithPerm(m[p], perm)];
    SameKindIsSound(now, p, m[p]);
    assert now[p := m[p]] == m;
  }

  lemma OnlyAtTwice(m: Nodes, m1: Nodes, m2: Nodes, p: Path, n1: Node, n2: Node)
    requires OnlyAt(m, m1, p, Some(n1)) && m2 == m1[p := n2]
    ensures OnlyAt(m, m2, p, Some(n2))
  {
    forall k ensures Bare(Get(m2, k)) == Bare(if k == p then Some(n2) else Get(m, k)) {
      assert Bare(Get(m1, k)) == Bare(if k == p then Some(n1) else Get(m, k));
    }
  }

  /** Bytes from one handle to a fresh one, in pieces, and what the closed file then holds. */
  method CopyBytes(data: seq<int>, piece: nat) returns (copied: seq<int>, dirty: bool)
    requires piece > 0
    ensures copied == data && (!dirty ==> data == [])
  {
    var srcf := new FileHandle.Handle(data);
    var dstf := new FileHandle.Handle([]);
    FileHandle.Copy(dstf, srcf, piece);
    copied, dirty := dstf.data, dstf.dirty;
  }

  /** `copyFile`: the bytes go through two handles, the mode is set again at the end. */
  method CopyFile(src: Nodes, s: Path, fsys: MemFS, d: Path, piece: nat) returns (r: Result)
    requires s in src && src[s].File? && piece > 0
    requires Sound(fsys.nodes) && d != [] && d !in fsys.nodes && IsDir(fsys.nodes, Parent(d))
    modifies fsys
    ensures r == Ok && Sound(fsys.nodes) && OnlyAt(old(fsys.nodes), fsys.nodes, d, Some(src[s]))
  {
    hide Rooted, Sized, OnlyAt;
    ghost var m := fsys.nodes;
    var perm := src[s].perm;
    FreeThere(m, d);
    r := OpenTruncated(fsys, d, perm);
    ghost var ready, first := fsys.nodes, File(if perm != 0 then perm else 0x1a4, []);
    HoldsFile(m, ready, d, first);
    var data, dirty := CopyBytes(src[s].data, piece);
    if dirty {
      fsys.SetData(d, data);
    }
    r := fsys.Chmod(d, perm);
    assert fsys.nodes == ready[d := src[s]];
    OnlyAtTwice(m, ready, fsys.nodes, d, first, src[s]);
  }

  lemma HoldsFile(m: Nodes, now: Nodes, p: Path, file: Node)
    requires file.File? && OnlyAt(m, now, p, Some(file))
    ensures p in now && now[p] == file
  {
    assert Bare(Get(now, p)) == Bare(Some(file));
  }

  /** `CopyFS` of one subtree to a place where nothing is, or onto an empty root.  Entries are taken in
      any order. */
  method CopyFS(src: Nodes, s: Path, fsys: MemFS, d: Path, piece: nat) returns (r: Result)
    requires Rooted(src) && s in src && piece > 0 && Sound(fsys.nodes)
    requires if d == [] then src[s].Dir? && Kids(fsys.nodes, []) == {} else d !in fsys.nodes && IsDir(fsys.nodes, Parent(d))
    modifies fsys
    ensures r == Ok && Sound(fsys.nodes) && Copied(src, s, old(fsys.nodes), d, fsys.nodes)
    decreases Subtree(src, s)
  {
    hide Rooted, Sized, There, Copied, PartCopied, OnlyAt;
    ghost var m := fsys.nodes;
    NothingThere(m, d);
    match src[s]
    case File(perm, data) =>
      r := CopyFile(src, s, fsys, d, piece);
      LeafCopied(src, s, m, d, fsys.nodes);
    case Link(perm, target) =>
      FreeThere(m, d);
      r := fsys.Symlink(target, d);
      LeafCopied(src, s, m, d, fsys.nodes);
    case Dir(perm, size) =>
      var mode := DirPerm(perm);
      OnlyTheRootAbove(m, d);
      RootIsThere(m);
      r := MkdirAll(fsys, d, mode);
      ghost var made := fsys.nodes[d].perm;
      NothingCopied(src, s, m, d, mode, fsys.nodes);
      var left := Listed(src, s);
      ghost var all := left;
      assert all - left == {};
      while left != {}
        invariant left <= all && Sound(fsys.nodes)
        invariant PartCopied(src, s, m, d, made, all - left, fsys.nodes)
        decreases |left|
      {
        var n :| n in left;
        ghost var done, now := all - left, fsys.nodes;
        EntryIsFree(src, s, m, d, made, done, n, now);
        r := CopyFS(src, s + [n], fsys, d + [n], piece);
        EntryCopied(src, s, m, d, made, done, n, now, fsys.nodes);
        left := left - {n};
        assert all - left == done + {n};
      }
      assert all - left == all;
      ghost var now := fsys.nodes;
      DirStays(src, s, m, d, made, all, now);
      r := fsys.Chmod(d, mode);
      AllCopied(src, s, m, d, made, now, fsys.nodes);
  }

  lemma FreeThere(m: Nodes, d: Path)
    requires Rooted(m) && d != [] && d !in m && IsDir(m, Parent(d))
    ensures There(m, Up(d)) && Free(m, d)
  {
    AbsentHasNoKids(m, d);
  }

  /** Nothing is below the destination. */
  lemma NothingThere(m: Nodes, d: Path)
    requires Rooted(m) && (if d == [] then Kids(m, []) == {} else d !in m)
    ensures forall k :: Under(d, k) && k in m ==> k == d && d == []
  {
    if d == [] {
      NoneBelow(m, []);
    } else {
      AbsentHasNoKids(m, d);
      NoneBelow(m, d);
    }
  }

  lemma OnlyTheRootAbove(m: Nodes, d: Path)
    requires Rooted(m) && (d != [] ==> IsDir(m, Parent(d)) && d !in m)
    ensures NoFileAbove(m, d)
  {
    forall i | 0 <= i <= |d| && d[..i] in m ensures m[d[..i]].Dir? {
      if i < |d| && d[..i] != Parent(d) {
        assert Under(d[..i], Parent(d)) by { assert d[..i] == Parent(d)[..i]; }
        AncestorIn(m, d[..i], Parent(d));
      }
      assert d[..|d|] == d;
    }
  }

  lemma LeafCopied(src: Nodes, s: Path, m: Nodes, d: Path, now: Nodes)
    requires Rooted(src) && s in src && !src[s].Dir? && d != []
    requires forall k :: Under(d, k) && k in m ==> k == d && d == []
    requires OnlyAt(m, now, d, CopyOf(Some(src[s])))
    ensures Copied(src, s, m, d, now)
  {
    LeafHasNoKids(src, s);
    NoneBelow(src, s);
    forall k ensures Bare(Get(now, k)) == if Under(d, k) then CopyOf(Seen(src, s, s + k[|d|..])) else Bare(Get(m, k)) {
      assert Bare(Get(now, k)) == Bare(if k == d then CopyOf(Some(src[s])) else Get(m, k));
      if Under(d, k) {
        assert k == d <==> s + k[|d|..] == s;
        assert Under(s, s + k[|d|..]);
      }
    }
  }

  lemma NothingCopied(src: Nodes, s: Path, m: Nodes, d: Path, perm: Perm, now: Nodes)
    requires Rooted(m) && (d != [] ==> IsDir(m, Parent(d))) && IsDir(now, d)
    requires forall k :: Under(d, k) && k in m ==> k == d && d == []
    requires Scaffolded(m, d, perm, now)
    ensures PartCopied(src, s, m, d, now[d].perm, {}, now)
  {
    forall k ensures Bare(Get(now, k)) ==
        (if k == d then Some(Dir(now[d].perm, 0)) else if Under(d, k) then None else Bare(Get(m, k))) {
      assert Bare(Get(now, k)) == if Under(k, d) && k !in m then Some(Dir(perm, 0)) else Bare(Get(m, k));
      if Under(k, d) && k != d {
        assert Under(k, Parent(d));
        if k != Parent(d) { AncestorIn(m, k, Parent(d)); }
      }
    }
  }

  lemma EntryIsFree(src: Nodes, s: Path, m: Nodes, d: Path, perm: Perm, done: set<Name>, n: Name, now: Nodes)
    requires n !in done && Rooted(src) && n in Listed(src, s) && PartCopied(src, s, m, d, perm, done, now)
    ensures !Hidden(n) && s + [n] in src && d + [n] !in now && IsDir(now, Parent(d + [n]))
    ensures Subtree(src, s + [n]) < Subtree(src, s)
  {
    ListedIs(src, s, n);
    assert Parent(s + [n]) == s;
    assert Bare(Get(now, d)) == Some(Dir(perm, 0)) && Parent(d + [n]) == d;
    assert Bare(Get(now, d + [n])) == None;
    forall k | Under(s + [n], k) ensures Under(s, k) && k != s {
      UnderChild(s, n, k);
    }
    assert s in Subtree(src, s) && s !in Subtree(src, s + [n]);
  }

  lemma EntryCopied(src: Nodes, s: Path, m: Nodes, d: Path, perm: Perm, done: set<Name>, n: Name, now: Nodes, next: Nodes)
    requires !Hidden(n) && PartCopied(src, s, m, d, perm, done, now) && Copied(src, s + [n], now, d + [n], next)
    ensures PartCopied(src, s, m, d, perm, done + {n}, next)
  {
    forall k ensures Bare(Get(next, k)) ==
        (if k == d then Some(Dir(perm, 0))
         else if Under(d, k) then (if k[|d|] in done + {n} then CopyOf(Seen(src, s, s + k[|d|..])) else None)
         else Bare(Get(m, k))) {
      UnderChild(d, n, k);
      assert Bare(Get(next, k)) ==
        if Under(d + [n], k) then CopyOf(Seen(src, s + [n], (s + [n]) + k[|d + [n]|..])) else Bare(Get(now, k));
      if Under(d + [n], k) {
        assert k[|d|..] == [n] + k[|d + [n]|..];
        assert (s + [n]) + k[|d + [n]|..] == s + k[|d|..];
        SameSeen(src, s, n, s + k[|d|..]);
      } else {
        assert Bare(Get(now, k)) ==
          (if k == d then Some(Dir(perm, 0))
           else if Under(d, k) then (if k[|d|] in done then CopyOf(Seen(src, s, s + k[|d|..])) else None)
           else Bare(Get(m, k)));
      }
    }
  }

  lemma SameSeen(src: Nodes, s: Path, n: Name, k: Path)
    requires !Hidden(n) && Under(s + [n], k)
    ensures Seen(src, s + [n], k) == Seen(src, s, k)
  {
    UnderChild(s, n, k);
    assert Visible(s + [n], k) <==> Visible(s, k);
  }

  lemma DirStays(src: Nodes, s: Path, m: Nodes, d: Path, perm: Perm, done: set<Name>, now: Nodes)
    requires PartCopied(src, s, m, d, perm, done, now)
    ensures d in now && now[d].Dir? && now[d].perm == perm
  {
    assert Bare(Get(now, d)) == Some(Dir(perm, 0));
  }

  lemma AllCopied(src: Nodes, s: Path, m: Nodes, d: Path, perm: Perm, now: Nodes, next: Nodes)
    requires s in src && src[s].Dir? && d in now && now[d].Dir?
    requires PartCopied(src, s, m, d, perm, Listed(src, s), now)
    requires next == now[d := WithPerm(now[d], DirPerm(src[s].perm))]
    ensures Copied(src, s, m, d, next)
  {
    forall k ensures Bare(Get(next, k)) == if Under(d, k) then CopyOf(Seen(src, s, s + k[|d|..])) else Bare(Get(m, k)) {
      assert Bare(Get(now, k)) ==
        (if k == d then Some(Dir(perm, 0))
         else if Under(d, k) then (if k[|d|] in Listed(src, s) then CopyOf(Seen(src, s, s + k[|d|..])) else None)
         else Bare(Get(m, k)));
      if k == d {
        assert s + k[|d|..] == s;
      } else if Under(d, k) {
        var from := s + k[|d|..];
        assert Under(s, from) && from[|s|] == k[|d|];
      }
    }
  }

  /** What a copy is, node by node: what has no name starting with `#` on the way is there under the same
      name, a file with its bytes and mode, a link with its target and all nine bits, a directory with its mode,
      to which reading and entering by the owner are added where both were missing.  Nothing else is there, and
      elsewhere nothing changed. */
  lemma CopyIs(src: Nodes, s: Path, m: Nodes, d: Path, now: Nodes, x: Path)
    requires Copied(src, s, m, d, now)
    ensures d + x in now <==> s + x in src && forall i :: 0 <= i < |x| ==> x[i] == "" || x[i][0] != '#'
    ensures d + x in now ==>
      match src[s + x]
      case File(perm, data) => now[d + x] == File(perm, data)
      case Link(perm, target) => now[d + x] == Link(0x1ff, target)
      case Dir(perm, _) =>
        now[d + x].Dir? && now[d + x].perm == if perm & 0x100 == 0 && perm & 0x40 == 0 then perm + 0x140 else perm
    ensures forall k :: !(d <= k) ==> (k in now <==> k in m) && (k in m ==> Alike(now[k], m[k]))
  {
    var k := d + x;
    assert Under(d, k) && k[|d|..] == x;
    assert Bare(Get(now, k)) == CopyOf(Seen(src, s, s + x));
    SeenOnTheWay(s, x);
    if s + x in src && src[s + x].Dir? {
      OwnerBits(src[s + x].perm);
    }
    forall k | !(d <= k) ensures (k in now <==> k in m) && (k in m ==> Alike(now[k], m[k])) {
      assert !Under(d, k) && Bare(Get(now, k)) == Bare(Get(m, k));
    }
  }

  lemma SeenOnTheWay(s: Path, x: Path)
    ensures Visible(s, s + x) <==> forall i :: 0 <= i < |x| ==> x[i] == "" || x[i][0] != '#'
  {
    if Visible(s, s + x) {
      forall i | 0 <= i < |x| ensures !Hidden(x[i]) {
        assert (s + x)[|s| + i] == x[i];
      }
    }
    if forall i :: 0 <= i < |x| ==> !Hidden(x[i]) {
      forall i | |s| <= i < |s + x| ensures !Hidden((s + x)[i]) {
        assert (s + x)[i] == x[i - |s|];
      }
    }
  }

  lemma OwnerBits(perm: Perm)
    ensures DirPerm(perm) == if perm & 0x100 == 0 && perm & 0x40 == 0 then perm + 0x140 else perm
  {
  }

  /** What `RemoveAll` leaves, node by node. */
  lemma RemoveAllIs(m: Nodes, p: Path, now: Nodes)
    requires Gone(m, p, now)
    ensures forall x :: p + x in now <==> p + x in m && exists i :: 0 <= i < |x| && x[i] != "" && x[i][0] == '#'
    ensures forall k :: k in now ==> k in m && Alike(now[k], m[k])
    ensures forall k :: k in m && !(p <= k) ==> k in now
  {
    forall k ensures (k in now ==> k in m && Alike(now[k], m[k])) && (k in m && !(p <= k) ==> k in now) {
      assert Bare(Get(now, k)) == if Under(p, k) && Visible(p, k) then None else Bare(Get(m, k));
    }
    forall x ensures p + x in now <==> p + x in m && exists i :: 0 <= i < |x| && x[i] != "" && x[i][0] == '#' {
      SeenOnTheWay(p, x);
      assert Under(p, p + x);
      assert Bare(Get(now, p + x)) == if Visible(p, p + x) then None else Bare(Get(m, p + x));
    }
  }

  /** What `MkdirAll` makes: the prefixes that were missing, as directories of the mode given. */
  lemma MkdirAllIs(m: Nodes, p: Path, perm: Perm, now: Nodes)
    requires Scaffolded(m, p, perm, now)
    ensures forall k :: k in now <==> k in m || k <= p
    ensures forall k :: k in m ==> Alike(now[k], m[k])
    ensures forall k :: k <= p && k !in m ==> now[k].Dir? && now[k].perm == perm
  {
    forall k ensures (k in now <==> k in m || k <= p) && (k in m ==> Alike(now[k], m[k])) {
      assert Bare(Get(now, k)) == if Under(k, p) && k !in m then Some(Dir(perm, 0)) else Bare(Get(m, k));
    }
    forall k | k <= p && k !in m ensures now[k].Dir? && now[k].perm == perm {
      assert Bare(Get(now, k)) == if Under(k, p) && k !in m then Some(Dir(perm, 0)) else Bare(Get(m, k));
    }
  }

  // --------------------------------------------------------------- when a copy is an equal

  /** Modes that `CopyFS` keeps: all of a file's, 0777 for links, and directories the owner can read or
      enter. */
  predicate KeepsModes(src: Nodes, s: Path) {
    forall k :: k in src && Under(s, k) ==> KeptMode(src[k])
  }

  predicate KeptMode(n: Node) {
    (n.Link? ==> n.perm == DEFAULT_LINK) && (n.Dir? ==> n.perm & OWNER_RX != 0)
  }

  /** A copy equals its source in names, bytes, link targets and modes exactly when nothing is hidden and
      these are the modes. */
  lemma CopyEquals(src: Nodes, s: Path, m: Nodes, d: Path, now: Nodes)
    requires Copied(src, s, m, d, now)
    ensures AllVisible(src, s) && KeepsModes(src, s) <==>
            forall k :: Under(s, k) ==> Bare(Get(now, d + k[|s|..])) == Bare(Get(src, k))
  {
    forall k | Under(s, k) ensures Bare(Get(now, d + k[|s|..])) == CopyOf(Seen(src, s, k)) {
      var k' := d + k[|s|..];
      assert Under(d, k') && s + k'[|d|..] == k;
      assert Bare(Get(now, k')) == if Under(d, k') then CopyOf(Seen(src, s, s + k'[|d|..])) else Bare(Get(m, k'));
    }
    forall k | Under(s, k)
      ensures CopyOf(Seen(src, s, k)) == Bare(Get(src, k)) <==> k !in src || (Visible(s, k) && KeptMode(src[k])) {
      if k in src && src[k].Dir? {
        OrChanges(src[k].perm);
      }
    }
  }

  lemma OrChanges(perm: Perm)
    ensures DirPerm(perm) == perm <==> perm & OWNER_RX != 0
  {
  }
}
