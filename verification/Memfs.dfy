/** The in-memory file system: one flat map from paths to nodes, directories with a stored size. */
module Memfs {
  import opened Paths

  type Perm = bv9

  /** `size` of a directory is the stored one; a file's size is that of its data. */
  datatype Node =
    | Dir(perm: Perm, size: nat)
    | File(perm: Perm, data: seq<int>)
    | Link(perm: Perm, target: string)

  type Nodes = map<Path, Node>

  function WithPerm(n: Node, perm: Perm): Node { n.(perm := perm) }

  datatype Result = Ok | NotExist | Exists | NotEmpty | Invalid

  datatype Option<T> = None | Some(value: T)

  function Get(m: Nodes, k: Path): Option<Node> { if k in m then Some(m[k]) else None }

  /** The direct children. */
  function Kids(m: Nodes, d: Path): set<Path> {
    set k | k in m && k != [] && Parent(k) == d
  }

  function Subtree(m: Nodes, p: Path): set<Path> { set k | k in m && Under(p, k) }

  predicate IsDir(m: Nodes, p: Path) { p in m && m[p].Dir? }

  /** The names a listing of `d` shows, those only implied among them: what starts with `#` is hidden. */
  function Listed(m: Nodes, d: Path): set<Name> {
    set k | k in m && Under(d, k) && k != d && !Hidden(k[|d|]) :: k[|d|]
  }

  predicate Hidden(n: Name) { n != "" && n[0] == '#' }

  /** A node, the root, or a directory that is only implied by what is below it. */
  predicate There(m: Nodes, p: Path) { p == [] || p in m || exists k :: k in m && Under(p, k) && k != p }

  /** The directory a path is in; the root is in itself. */
  function Up(p: Path): Path { if p == [] then [] else Parent(p) }

  /** Every path but the root has its parent, a directory. */
  predicate Rooted(m: Nodes) {
    IsDir(m, []) && forall k :: k in m && k != [] ==> IsDir(m, Parent(k))
  }

  /** Every stored size is 2 plus the number of children. */
  predicate Sized(m: Nodes) {
    forall d :: d in m && m[d].Dir? ==> m[d].size == 2 + |Kids(m, d)|
  }

  predicate Sound(m: Nodes) { Rooted(m) && Sized(m) }

  /** Sizes are right but perhaps in the directories of `ds`. */
  predicate SizedBut(m: Nodes, ds: set<Path>) {
    forall d :: d in m && m[d].Dir? && d !in ds ==> m[d].size == 2 + |Kids(m, d)|
  }

  function Resized(m: Nodes, d: Path): Nodes {
    if d in m && m[d].Dir? then m[d := m[d].(size := 2 + |Kids(m, d)|)] else m
  }

  lemma ResizedIs(m: Nodes, d: Path, ds: set<Path>)
    requires SizedBut(m, ds)
    ensures var m' := Resized(m, d);
            && m'.Keys == m.Keys
            && (forall k :: k in m && k != d ==> m'[k] == m[k])
            && SizedBut(m', ds - {d}) && (Rooted(m) ==> Rooted(m'))
  {
    var m' := Resized(m, d);
    forall k ensures Kids(m', k) == Kids(m, k) {
    }
  }

  /** A node fits where its directory is one and nothing is below it. */
  predicate Free(m: Nodes, q: Path) { q != [] && IsDir(m, Parent(q)) && Kids(m, q) == {} }

  /** A new node at `p` leaves the map in order exactly if it fits there. */
  lemma PutExactly(m: Nodes, p: Path, node: Node)
    requires Sound(m) && (node.Dir? ==> p !in m && node.size == 2)
    ensures Sound(Resized(m[p := node], Up(p))) <==> Free(m, p)
  {
    var m' := m[p := node];
    PutIsRooted(m, p, node);
    ResizedBare(m', Up(p));
    ResizedRooted(m', Up(p));
    if Free(m, p) {
      forall d | d in m' && m'[d].Dir? && d != Parent(p) ensures m'[d].size == 2 + |Kids(m', d)| {
        KidsAfterPut(m, p, node, d);
      }
      hide Kids;
      ResizedIs(m', Parent(p), {Parent(p)});
    }
  }

  lemma PutIsRooted(m: Nodes, p: Path, node: Node)
    requires Rooted(m) && (node.Dir? ==> p !in m)
    ensures Rooted(m[p := node]) <==> Free(m, p)
  {
    var m' := m[p := node];
    if k :| k in Kids(m, p) {
      assert k in m' && k != [] && k != p;
    }
    if Free(m, p) {
      forall k | k in m' && k != [] ensures IsDir(m', Parent(k)) {
        assert k != p ==> k !in Kids(m, p);
      }
    }
    assert p in m';
  }

  /** Whether every node has its directory does not depend on sizes. */
  lemma ResizedRooted(m: Nodes, d: Path)
    ensures Rooted(Resized(m, d)) <==> Rooted(m)
  {
  }

  lemma KidsAfterPut(m: Nodes, p: Path, node: Node, d: Path)
    requires Rooted(m) && p != [] && d != Parent(p) && d in m[p := node]
    ensures p !in m && d == p ==> Kids(m[p := node], p) == {}
    ensures Kids(m[p := node], d) == Kids(m, d)
  {
  }

  /** A node can go exactly if it has no children. */
  lemma DropExactly(m: Nodes, p: Path)
    requires Sound(m) && p in m && p != []
    ensures Sound(Resized(m - {p}, Parent(p))) <==> Kids(m, p) == {}
  {
    var m' := m - {p};
    DropIsRooted(m, p);
    ResizedRooted(m', Parent(p));
    forall d | d in m' && m'[d].Dir? && d != Parent(p) ensures m'[d].size == 2 + |Kids(m', d)| {
      assert Kids(m', d) == Kids(m, d);
    }
    ResizedIs(m', Parent(p), {Parent(p)});
  }

  lemma DropIsRooted(m: Nodes, p: Path)
    requires Rooted(m) && p in m && p != []
    ensures Rooted(m - {p}) <==> Kids(m, p) == {}
  {
    var m' := m - {p};
    if k :| k in Kids(m, p) {
      assert k in m' && k != [] && k != p;
    } else {
      forall k | k in m' && k != [] ensures IsDir(m', Parent(k)) {
        assert k !in Kids(m, p);
      }
    }
  }

  // -------------------------------------------------------------------------------- rename

  /** What is at `k`, sizes aside, once the subtree at `p` is at `q`. */
  function Moved(m: Nodes, p: Path, q: Path, k: Path): Option<Node> {
    if Under(q, k) then Get(m, p + k[|q|..])
    else if Under(p, k) then None
    else Get(m, k)
  }

  ghost predicate IsMoved(m: Nodes, p: Path, q: Path, now: Nodes) {
    forall k :: Get(now, k) == Moved(m, p, q, k)
  }

  /** The rewriting of paths is one to one. */
  lemma RewriteIsInjective(p: Path, q: Path, k: Path, k': Path)
    requires Under(p, k) && Under(p, k') && q + k[|p|..] == q + k'[|p|..]
    ensures k == k'
  {
    assert k[|p|..] == (q + k[|p|..])[|q|..] == (q + k'[|p|..])[|q|..] == k'[|p|..];
    assert k == p + k[|p|..] && k' == p + k'[|p|..];
  }

  function Image(ks: set<Path>, p: Path, q: Path): set<Path>
  {
    set k | k in ks && Under(p, k) :: q + k[|p|..]
  }

  lemma {:induction false} ImageSize(ks: set<Path>, p: Path, q: Path)
    requires forall k :: k in ks ==> Under(p, k)
    ensures |Image(ks, p, q)| == |ks|
    decreases |ks|
  {
    if ks != {} {
      var x :| x in ks;
      ImageSize(ks - {x}, p, q);
      forall k | k in ks - {x} ensures q + k[|p|..] != q + x[|p|..] {
        if q + k[|p|..] == q + x[|p|..] {
          RewriteIsInjective(p, q, k, x);
        }
      }
      assert Image(ks, p, q) == Image(ks - {x}, p, q) + {q + x[|p|..]};
    }
  }

  /** A moved directory has as many children as before. */
  lemma KidsMove(m: Nodes, p: Path, q: Path, now: Nodes, d: Path)
    requires IsMoved(m, p, q, now) && p != [] && q != [] && Under(q, d)
    ensures |Kids(now, d)| == |Kids(m, p + d[|q|..])|
  {
    var src := p + d[|q|..];
    forall k | k in Kids(m, src) ensures Under(p, k) {
      assert k == src + [Base(k)];
    }
    ImageSize(Kids(m, src), p, q);
    forall k ensures k in Kids(now, d) <==> k in Image(Kids(m, src), p, q) {
      KidMoves(m, p, q, now, d, k);
    }
    assert Kids(now, d) == Image(Kids(m, src), p, q);
  }

  lemma KidMoves(m: Nodes, p: Path, q: Path, now: Nodes, d: Path, k: Path)
    requires IsMoved(m, p, q, now) && p != [] && q != [] && Under(q, d)
    requires forall k :: k in Kids(m, p + d[|q|..]) ==> Under(p, k)
    ensures k in Kids(now, d) <==> k in Image(Kids(m, p + d[|q|..]), p, q)
  {
    var src := p + d[|q|..];
    if k in Kids(now, d) {
      assert k == d + [Base(k)] && Under(q, k);
      assert Get(now, k) == Moved(m, p, q, k);
      var k' := p + k[|q|..];
      assert k[|q|..] == d[|q|..] + [Base(k)];
      assert k' == src + [Base(k)] && Parent(k') == src && k' in m;
      assert k' in Kids(m, src) && q + k'[|p|..] == k;
    }
    if k in Image(Kids(m, src), p, q) {
      var k' :| k' in Kids(m, src) && k == q + k'[|p|..];
      assert k' == src + [Base(k')] && k'[|p|..] == d[|q|..] + [Base(k')];
      assert d == q + d[|q|..] && k == d + [Base(k')];
      assert Get(now, k) == Moved(m, p, q, k) && p + k[|q|..] == k';
    }
  }

  /** Anywhere else the children are what they were, but in the two parents. */
  lemma KidsStay(m: Nodes, p: Path, q: Path, now: Nodes, d: Path)
    requires IsMoved(m, p, q, now) && p != [] && q != [] && !Under(q, d) && !Under(p, d)
    requires d != Parent(p) && d != Parent(q)
    ensures Kids(now, d) == Kids(m, d)
  {
    forall k ensures k in Kids(now, d) <==> k in Kids(m, d) {
      if k != [] && Parent(k) == d {
        Splits(k);
        Outside(p, d, Base(k));
        Outside(q, d, Base(k));
        assert Get(now, k) == Moved(m, p, q, k);
      }
    }
  }

  /** What a rename does, node by node: all at and below the old place is at and below the new one under the
      same names, nothing is left of the old place, nothing else is at the new one, and the rest stays. */
  lemma RenameIs(m: Nodes, p: Path, q: Path, now: Nodes)
    requires p in m && !(p <= q) && !(q <= p) && forall k :: Bare(Get(now, k)) == Bare(Moved(m - {q}, p, q, k))
    requires forall k :: k in m && q <= k ==> k == q
    ensures forall x :: p + x in m ==> q + x in now && Alike(now[q + x], m[p + x])
    ensures forall x :: q + x in now ==> p + x in m
    ensures forall k :: p <= k ==> k !in now
    ensures forall k :: !(p <= k) && !(q <= k) ==> (k in now <==> k in m) && (k in m ==> Alike(now[k], m[k]))
    ensures forall a, b: Node :: Alike(a, b) <==> a == b || (a.Dir? && b.Dir? && a.perm == b.perm)
  {
    forall x ensures (q + x in now <==> p + x in m) && (p + x in m ==> Alike(now[q + x], m[p + x])) {
      assert Under(q, q + x) && (q + x)[|q|..] == x;
      assert p <= p + x;
      assert Bare(Get(now, q + x)) == Bare(Moved(m - {q}, p, q, q + x));
    }
    forall k | p <= k ensures k !in now {
      if q <= k { Prefixes(p, q, k); }
      assert Bare(Get(now, k)) == Bare(Moved(m - {q}, p, q, k));
    }
    forall k | !(p <= k) && !(q <= k) ensures (k in now <==> k in m) && (k in m ==> Alike(now[k], m[k])) {
      assert Bare(Get(now, k)) == Bare(Moved(m - {q}, p, q, k)) && k != q;
    }
  }

  predicate Alike(a: Node, b: Node) { Bare(Some(a)) == Bare(Some(b)) }

  /** Two maps in order with the same nodes, sizes aside, are the same: the sizes follow. */
  lemma SizesFollow(m: Nodes, now: Nodes)
    requires Sized(m) && Sized(now) && forall k :: Bare(Get(now, k)) == Bare(Get(m, k))
    ensures now == m
  {
    forall k ensures Get(now, k) == Get(m, k) {
      assert Bare(Get(now, k)) == Bare(Get(m, k));
      KidsOfTheSame(m, now, k);
    }
    SameEverywhere(m, now);
  }

  lemma KidsOfTheSame(m: Nodes, now: Nodes, d: Path)
    requires forall k :: Bare(Get(now, k)) == Bare(Get(m, k))
    ensures Kids(now, d) == Kids(m, d)
  {
    forall k ensures k in Kids(now, d) <==> k in Kids(m, d) {
      assert Bare(Get(now, k)) == Bare(Get(m, k));
    }
  }

  lemma SameEverywhere(m: Nodes, now: Nodes)
    requires forall k :: Get(now, k) == Get(m, k)
    ensures now == m
  {
    forall k ensures (k in now <==> k in m) && (k in m ==> now[k] == m[k]) {
      assert Get(now, k) == Get(m, k);
    }
  }

  /** Moved there and back, every node is where it was. */
  lemma MovedBack(m: Nodes, p: Path, q: Path, there: Nodes, back: Nodes)
    requires !Under(p, q) && !Under(q, p) && forall k :: k in m ==> !Under(q, k)
    requires forall k :: Bare(Get(there, k)) == Bare(Moved(m - {q}, p, q, k))
    requires forall k :: Bare(Get(back, k)) == Bare(Moved(there - {p}, q, p, k))
    ensures forall k :: Bare(Get(back, k)) == Bare(Get(m, k))
  {
    forall k ensures Bare(Get(back, k)) == Bare(Get(m, k)) {
      BackAt(m, p, q, there, back, k);
    }
  }

  lemma BackAt(m: Nodes, p: Path, q: Path, there: Nodes, back: Nodes, k: Path)
    requires !Under(p, q) && !Under(q, p) && forall k :: k in m ==> !Under(q, k)
    requires forall k :: Bare(Get(there, k)) == Bare(Moved(m - {q}, p, q, k))
    requires Bare(Get(back, k)) == Bare(Moved(there - {p}, q, p, k))
    ensures Bare(Get(back, k)) == Bare(Get(m, k))
  {
    assert p + [] == p && q !in m;
    if Under(p, k) {
      var x := k[|p|..];
      assert k == p + x && (q + x)[|q|..] == x && Under(q, q + x);
      assert Bare(Get(there, q + x)) == Bare(Moved(m - {q}, p, q, q + x));
    } else if Under(q, k) {
      assert k !in m;
    } else {
      assert Bare(Get(there, k)) == Bare(Moved(m - {q}, p, q, k));
    }
  }

  lemma MoveIsSound(m: Nodes, p: Path, q: Path, now: Nodes)
    requires Sound(m) && p in m && p != [] && !Under(p, q) && Free(m, q) && IsMoved(m, p, q, now)
    ensures Sound(Resized(Resized(now, Parent(p)), Parent(q)))
  {
    MoveIsRooted(m, p, q, now);
    forall d | d in now && now[d].Dir? && d != Parent(p) && d != Parent(q) ensures now[d].size == 2 + |Kids(now, d)| {
      assert Get(now, d) == Moved(m, p, q, d);
      if Under(q, d) { KidsMove(m, p, q, now, d); } else { KidsStay(m, p, q, now, d); }
    }
    ResizedIs(now, Parent(p), {Parent(p), Parent(q)});
    ResizedIs(Resized(now, Parent(p)), Parent(q), {Parent(p), Parent(q)} - {Parent(p)});
  }

  /** A moved subtree leaves the map in order exactly if its new place is not below its old one. */
  lemma MoveExactly(m: Nodes, p: Path, q: Path, now: Nodes)
    requires Sound(m) && p in m && p != [] && p != q && Free(m, q) && IsMoved(m - {q}, p, q, now)
    ensures Sound(Resized(Resized(now, Parent(p)), Parent(q))) <==> !Under(p, q)
  {
    if Under(p, q) {
      MovedBelowItself(m, p, q, now);
      ResizedRooted(now, Parent(p));
      ResizedRooted(Resized(now, Parent(p)), Parent(q));
    } else {
      DroppedMoves(m, p, q, now);
      MoveIsSound(m, p, q, now);
    }
  }

  lemma MoveIsRooted(m: Nodes, p: Path, q: Path, now: Nodes)
    requires Rooted(m) && p in m && p != [] && !Under(p, q) && Free(m, q) && IsMoved(m, p, q, now)
    ensures Rooted(now)
  {
    NothingAbove(m, p, q);
    forall k | k in now && k != [] ensures IsDir(now, Parent(k)) {
      var up := Parent(k);
      Splits(k);
      assert Get(now, k) == Moved(m, p, q, k) && Get(now, up) == Moved(m, p, q, up);
      if k == q {
        assert !Under(q, up);
      } else if Under(q, k) {
        assert Under(q, up) && k[|q|..] == up[|q|..] + [Base(k)];
        assert p + k[|q|..] == (p + up[|q|..]) + [Base(k)];
        assert Parent(p + k[|q|..]) == p + up[|q|..];
      } else {
        assert !Under(q, up) && !Under(p, up);
      }
    }
    assert Get(now, []) == Moved(m, p, q, []);
  }

  /** A free destination is not above the source. */
  lemma NothingAbove(m: Nodes, p: Path, q: Path)
    requires Rooted(m) && p in m && !Under(p, q) && Kids(m, q) == {}
    ensures !Under(q, p)
  {
    if Under(q, p) {
      KidTowards(m, q, p);
    }
  }

  lemma {:induction false} KidTowards(m: Nodes, q: Path, k: Path)
    requires Rooted(m) && k in m && Under(q, k) && k != q
    ensures Kids(m, q) != {}
    decreases |k|
  {
    assert Under(q, Parent(k));
    if Parent(k) == q {
      assert k in Kids(m, q);
    } else {
      KidTowards(m, q, Parent(k));
    }
  }

  // ------------------------------------------------------------------------------ the class

  /** A node but for the stored size of a directory. */
  function Bare(n: Option<Node>): Option<Node> {
    if n.Some? && n.value.Dir? then Some(n.value.(size := 0)) else n
  }

  /** Only what is at `p` changed, sizes aside. */
  ghost predicate OnlyAt(m: Nodes, m': Nodes, p: Path, n: Option<Node>) {
    forall k :: Bare(Get(m', k)) == Bare(if k == p then n else Get(m, k))
  }

  lemma ResizedBare(m: Nodes, d: Path)
    ensures forall k :: Bare(Get(Resized(m, d), k)) == Bare(Get(m, k))
  {
  }

  lemma RemoveExactly(m: Nodes, p: Path)
    requires p != [] && There(m, p)
    ensures OnlyAt(m, Resized(m - {p}, Parent(p)), p, None)
    ensures Sound(m) ==> (Sound(Resized(m - {p}, Parent(p))) <==> Kids(m, p) == {})
  {
    ResizedBare(m - {p}, Parent(p));
    if Sound(m) {
      Implied(m, p);
      DropExactly(m, p);
    }
  }

  /** Changing a node, but neither its kind nor a directory's size. */
  lemma SameKindIsSound(m: Nodes, p: Path, node: Node)
    requires Sound(m) && p in m && (node.Dir? <==> m[p].Dir?) && (node.Dir? ==> node.size == m[p].size)
    ensures Sound(m[p := node])
  {
    hide Sized, Rooted;
    SameKindSized(m, p, node);
    SameKindRooted(m, p, node);
  }

  lemma SameKindRooted(m: Nodes, p: Path, node: Node)
    requires Rooted(m) && p in m && (node.Dir? <==> m[p].Dir?)
    ensures Rooted(m[p := node])
  {
    forall k | k in m && k != [] ensures IsDir(m[p := node], Parent(k)) {
      assert IsDir(m, Parent(k));
    }
  }

  lemma SameKindSized(m: Nodes, p: Path, node: Node)
    requires Sized(m) && p in m && (node.Dir? <==> m[p].Dir?) && (node.Dir? ==> node.size == m[p].size)
    ensures Sized(m[p := node])
  {
    forall d ensures Kids(m[p := node], d) == Kids(m, d) {
    }
    hide Kids;
  }

  lemma ResizedTwice(m: Nodes, d: Path)
    ensures Resized(Resized(m, d), d) == Resized(m, d)
  {
    assert Kids(Resized(m, d), d) == Kids(m, d);
  }

  lemma KidsCounted(m: Nodes, dir: Path, left: set<Path>, p: Path)
    requires p in m && p !in left
    ensures Kids(m, dir) - left == Kids(m, dir) - (left + {p}) + if p != [] && Parent(p) == dir then {p} else {}
    ensures p != [] && Parent(p) == dir ==> p !in Kids(m, dir) - (left + {p})
  {
  }

  lemma OneMoreAdded(was: Nodes, add: Nodes, left: set<Path>, k: Path)
    requires k in add && k in left
    ensures was + (add - (left - {k})) == (was + (add - left))[k := add[k]]
  {
  }

  lemma ImageGrows(ks: set<Path>, k: Path, p: Path, q: Path)
    requires Under(p, k)
    ensures Image(ks + {k}, p, q) == Image(ks, p, q) + {q + k[|p|..]}
  {
  }

  /** In a rooted map no directory is only implied. */
  lemma Implied(m: Nodes, p: Path)
    requires Rooted(m)
    ensures There(m, p) <==> p in m
  {
    if k :| k in m && Under(p, k) && k != p {
      AncestorIn(m, p, k);
    }
  }

  lemma {:induction false} AncestorIn(m: Nodes, p: Path, k: Path)
    requires Rooted(m) && k in m && Under(p, k) && k != p
    ensures IsDir(m, p)
    decreases |k|
  {
    assert Under(p, Parent(k));
    if Parent(k) != p {
      AncestorIn(m, p, Parent(k));
    }
  }

  /** Without children there is nothing further down. */
  lemma NoneBelow(m: Nodes, p: Path)
    requires Rooted(m)
    ensures Kids(m, p) == {} <==> forall k :: k in m && Under(p, k) ==> k == p
  {
    if k :| k in m && Under(p, k) && k != p {
      KidTowards(m, p, k);
    }
    forall k | k in Kids(m, p) ensures k in m && Under(p, k) && k != p {
      Splits(k);
    }
  }

  lemma LeafHasNoKids(m: Nodes, p: Path)
    requires Rooted(m) && p in m && !m[p].Dir?
    ensures Kids(m, p) == {}
  {
  }

  lemma AbsentHasNoKids(m: Nodes, p: Path)
    requires Rooted(m) && p !in m
    ensures Kids(m, p) == {}
  {
  }

  /** Deleting and setting the collected keys moves the subtree, also to a place below itself. */
  lemma DirMoved(m: Nodes, p: Path, q: Path, moved: Nodes, now: Nodes)
    requires Rooted(m) && q != [] && Kids(m, q) == {}
    requires var cleared := m - {q};
             && moved.Keys == Image(Subtree(cleared, p), p, q)
             && (forall k :: k in moved ==> Under(q, k) && p + k[|q|..] in cleared && moved[k] == cleared[p + k[|q|..]])
             && now == (cleared - Image(moved.Keys, q, p)) + moved
    ensures IsMoved(m - {q}, p, q, now)
  {
    NoneBelow(m, q);
    forall k ensures Get(now, k) == Moved(m - {q}, p, q, k) {
      MovedAt(m - {q}, p, q, moved, k);
    }
  }

  lemma MovedAt(m: Nodes, p: Path, q: Path, moved: Nodes, k: Path)
    requires forall x :: x in m ==> !Under(q, x)
    requires moved.Keys == Image(Subtree(m, p), p, q)
    requires forall x :: x in moved ==> Under(q, x) && p + x[|q|..] in m && moved[x] == m[p + x[|q|..]]
    ensures Get((m - Image(moved.Keys, q, p)) + moved, k) == Moved(m, p, q, k)
  {
    if Under(q, k) {
      var src := p + k[|q|..];
      assert src[|p|..] == k[|q|..] && k == q + src[|p|..];
      assert Under(p, src);
      assert src in m ==> src in Subtree(m, p);
      assert src in m <==> k in moved;
    } else {
      assert k !in moved;
      if Under(p, k) && k in m {
        var x := q + k[|p|..];
        assert k in Subtree(m, p) && x in moved;
        assert k == p + x[|q|..] && k in Image(moved.Keys, q, p);
      }
      if k in Image(moved.Keys, q, p) {
        assert Under(p, k);
      }
    }
  }

  /** Dropping the destination first makes no difference unless it is below the source. */
  lemma DroppedMoves(m: Nodes, p: Path, q: Path, now: Nodes)
    requires !Under(p, q)
    ensures IsMoved(m - {q}, p, q, now) <==> IsMoved(m, p, q, now)
  {
    forall k ensures Moved(m - {q}, p, q, k) == Moved(m, p, q, k) {
      assert Under(p, p + k[if Under(q, k) then |q| else 0..]);
    }
  }

  /** A directory moved below itself has no way to it any more. */
  lemma MovedBelowItself(m: Nodes, p: Path, q: Path, now: Nodes)
    requires p in m && p != q && Under(p, q) && IsMoved(m - {q}, p, q, now)
    ensures !Rooted(now)
  {
    assert Get(now, q) == Moved(m - {q}, p, q, q) && p + q[|q|..] == p;
    assert Get(now, Parent(q)) == Moved(m - {q}, p, q, Parent(q));
    assert Under(p, Parent(q)) && !Under(q, Parent(q));
  }

  /** Only a directory has a directory below it. */
  lemma LeafHasNoneBelow(m: Nodes, p: Path, q: Path)
    requires Rooted(m) && p in m && !m[p].Dir? && p != q && q != [] && IsDir(m, Parent(q))
    ensures !Under(p, q)
  {
    if Under(p, q) {
      assert Under(p, Parent(q));
      if p != Parent(q) { AncestorIn(m, p, Parent(q)); }
    }
  }

  lemma LeafMoved(m: Nodes, p: Path, q: Path, now: Nodes)
    requires p in m && p != [] && q != [] && !Under(p, q)
    requires (forall x :: x in m && Under(q, x) ==> x == q) && (forall x :: x in m && Under(p, x) ==> x == p)
    requires now == (m - {q})[q := m[p]] - {p}
    ensures IsMoved(m, p, q, now)
  {
    forall k ensures Get(now, k) == Moved(m, p, q, k) {
      if Under(q, k) {
        assert k == q + k[|q|..];
        assert p + k[|q|..] == p <==> k == q;
        assert Under(p, p + k[|q|..]);
      }
    }
  }

  method CountKids(m: Nodes, dir: Path) returns (count: nat)
    ensures count == |Kids(m, dir)|
  {
    hide Kids;
    count := 0;
    var left := m.Keys;
    ghost var seen: set<Path> := {};
    assert Kids(m, dir) - left == {} by { KidsAreKeys(m, dir); }
    while left != {}
      invariant left <= m.Keys && seen == Kids(m, dir) - left && count == |seen|
      decreases |left|
    {
      var p :| p in left;
      ghost var was := left;
      left := left - {p};
      assert left + {p} == was;
      KidsCounted(m, dir, left, p);
      if p != [] && Parent(p) == dir {
        count := count + 1;
        seen := seen + {p};
      }
    }
    assert Kids(m, dir) - {} == Kids(m, dir);
  }

  lemma KidsAreKeys(m: Nodes, dir: Path)
    ensures Kids(m, dir) <= m.Keys
  {
  }

  class MemFS {
    var nodes: Nodes

    constructor ()
      ensures nodes == map[[] := Dir(0x1ed, 2)] && Sound(nodes)
    {
      nodes := map[[] := Dir(0x1ed, 2)];
    }

    /** `updateDirSize`: count the keys that are direct children. */
    method UpdateDirSize(dir: Path)
      modifies this
      ensures nodes == Resized(old(nodes), dir)
      ensures nodes.Keys == old(nodes).Keys && forall k :: k in nodes && k != dir ==> nodes[k] == old(nodes)[k]
      ensures dir in nodes && nodes[dir].Dir? ==>
        nodes[dir].size == 2 + |set k | k in nodes && k != [] && k[..|k| - 1] == dir|
    {
      if dir !in nodes || !nodes[dir].Dir? {
        return;
      }
      var count := CountKids(nodes, dir);
      ghost var kids := Kids(nodes, dir);
      nodes := nodes[dir := nodes[dir].(size := 2 + count)];
      assert kids == set k | k in nodes && k != [] && k[..|k| - 1] == dir;
    }

    /** `Exists`. */
    method Has(p: Path) returns (r: bool)
      ensures r == There(nodes, p)
    {
      r := p == [] || p in nodes || exists k :: k in nodes && Under(p, k) && k != p;
    }

    /** A node is set and its directory counted again. */
    method Put(p: Path, node: Node)
      requires node.Dir? ==> p !in nodes && node.size == 2
      modifies this
      ensures OnlyAt(old(nodes), nodes, p, Some(node))
      ensures Sound(old(nodes)) ==> (Sound(nodes) <==> Free(old(nodes), p))
    {
      ResizedBare(nodes[p := node], Up(p));
      if Sound(nodes) {
        PutExactly(nodes, p, node);
      }
      nodes := nodes[p := node];
      UpdateDirSize(Up(p));
    }

    /** `Create`: an empty file, over whatever is there. */
    method Create(p: Path) returns (r: Result)
      modifies this
      ensures r == if There(old(nodes), Up(p)) then Ok else NotExist
      ensures r == NotExist ==> nodes == old(nodes)
      ensures r == Ok ==> OnlyAt(old(nodes), nodes, p, Some(File(0x1a4, [])))
      ensures Sound(old(nodes)) ==> (Sound(nodes) <==> r == NotExist || Free(old(nodes), p))
    {
      var ok := Has(Up(p));
      if !ok {
        return NotExist;
      }
      Put(p, File(0x1a4, []));
      r := Ok;
    }

    method Mkdir(p: Path, perm: Perm) returns (r: Result)
      modifies this
      ensures r == if There(old(nodes), p) then Exists else if There(old(nodes), Up(p)) then Ok else NotExist
      ensures r != Ok ==> nodes == old(nodes)
      ensures r == Ok ==> OnlyAt(old(nodes), nodes, p, Some(Dir(perm, 2)))
      ensures Sound(old(nodes)) ==> (Sound(nodes) <==> r != Ok || Free(old(nodes), p))
    {
      var there := Has(p);
      if there {
        return Exists;
      }
      var ok := Has(Up(p));
      if !ok {
        return NotExist;
      }
      Put(p, Dir(perm, 2));
      r := Ok;
    }

    method Symlink(target: string, p: Path) returns (r: Result)
      modifies this
      ensures r == if There(old(nodes), Up(p)) then Ok else NotExist
      ensures r == NotExist ==> nodes == old(nodes)
      ensures r == Ok ==> OnlyAt(old(nodes), nodes, p, Some(Link(0x1ff, target)))
      ensures Sound(old(nodes)) ==> (Sound(nodes) <==> r == NotExist || Free(old(nodes), p))
    {
      var ok := Has(Up(p));
      if !ok {
        return NotExist;
      }
      Put(p, Link(0x1ff, target));
      r := Ok;
    }

    /** `Remove`: a directory that looks empty goes, and with it the way to what it hides. */
    method Remove(p: Path) returns (r: Result)
      modifies this
      ensures r == if p == [] then Invalid else if !There(old(nodes), p) then NotExist
                   else if (p in old(nodes) ==> old(nodes)[p].Dir?) && Listed(old(nodes), p) != {} then NotEmpty else Ok
      ensures r != Ok ==> nodes == old(nodes)
      ensures r == Ok ==> OnlyAt(old(nodes), nodes, p, None)
      ensures Sound(old(nodes)) ==> (Sound(nodes) <==> r != Ok || Kids(old(nodes), p) == {})
    {
      if p == [] {
        return Invalid;
      }
      var ok := Has(p);
      if !ok {
        return NotExist;
      }
      if p !in nodes || nodes[p].Dir? {
        if Listed(nodes, p) != {} {
          return NotEmpty;
        }
      }
      RemoveExactly(nodes, p);
      nodes := nodes - {p};
      UpdateDirSize(Parent(p));
      r := Ok;
    }

    method Chmod(p: Path, perm: Perm) returns (r: Result)
      modifies this
      ensures Sound(old(nodes)) ==> Sound(nodes)
      ensures r == if p in old(nodes) then Ok else NotExist
      ensures r == NotExist ==> nodes == old(nodes)
      ensures r == Ok ==> nodes == old(nodes)[p := WithPerm(old(nodes)[p], perm)]
    {
      var ok := Has(p);
      if !ok || p !in nodes {
        return NotExist;
      }
      if Sound(nodes) {
        SameKindIsSound(nodes, p, WithPerm(nodes[p], perm));
      }
      nodes := nodes[p := WithPerm(nodes[p], perm)];
      r := Ok;
    }

    /** Closing a written handle puts its bytes in the node. */
    method SetData(p: Path, data: seq<int>)
      requires Sound(nodes) && p in nodes && nodes[p].File?
      modifies this
      ensures Sound(nodes) && nodes == old(nodes)[p := old(nodes)[p].(data := data)]
    {
      SameKindIsSound(nodes, p, nodes[p].(data := data));
      nodes := nodes[p := nodes[p].(data := data)];
    }

    /** The keys at and below `p`, rewritten. */
    method Collect(p: Path, q: Path) returns (toRename: Nodes)
      ensures toRename.Keys == Image(Subtree(nodes, p), p, q)
      ensures forall k :: k in toRename ==> Under(q, k) && p + k[|q|..] in nodes && toRename[k] == nodes[p + k[|q|..]]
    {
      toRename := map[];
      var left := nodes.Keys;
      while left != {}
        invariant left <= nodes.Keys
        invariant toRename.Keys == Image(Subtree(nodes, p) - left, p, q)
        invariant forall k :: k in toRename ==> Under(q, k) && p + k[|q|..] in nodes && toRename[k] == nodes[p + k[|q|..]]
        decreases |left|
      {
        var k :| k in left;
        ghost var before := Subtree(nodes, p) - left;
        left := left - {k};
        if Under(p, k) {
          var np := q + k[|p|..];
          assert p + np[|q|..] == k;
          ImageGrows(before, k, p, q);
          toRename := toRename[np := nodes[k]];
          assert Subtree(nodes, p) - left == before + {k};
        } else {
          assert Subtree(nodes, p) - left == before;
        }
      }
      assert Subtree(nodes, p) - {} == Subtree(nodes, p);
    }

    /** The old keys of what was collected are deleted. */
    method DeleteOld(p: Path, q: Path, toRename: Nodes)
      requires forall k :: k in toRename ==> Under(q, k)
      modifies this
      ensures nodes == old(nodes) - Image(toRename.Keys, q, p)
    {
      var left := toRename.Keys;
      ghost var was := nodes;
      assert Image({}, q, p) == {} && toRename.Keys - left == {};
      while left != {}
        invariant left <= toRename.Keys
        invariant nodes == was - Image(toRename.Keys - left, q, p)
        decreases |left|
      {
        var k :| k in left;
        ghost var done := toRename.Keys - left;
        ImageGrows(done, k, q, p);
        left := left - {k};
        assert toRename.Keys - left == done + {k};
        nodes := nodes - {p + k[|q|..]};
      }
      assert toRename.Keys - {} == toRename.Keys;
    }

    /** And set under their new ones. */
    method AddNew(toRename: Nodes)
      modifies this
      ensures nodes == old(nodes) + toRename
    {
      var left := toRename.Keys;
      ghost var was := nodes;
      while left != {}
        invariant left <= toRename.Keys
        invariant nodes == was + (toRename - left)
        decreases |left|
      {
        var k :| k in left;
        OneMoreAdded(was, toRename, left, k);
        left := left - {k};
        nodes := nodes[k := toRename[k]];
      }
      assert toRename - {} == toRename;
    }

    method Rename(p: Path, q: Path) returns (r: Result)
      requires Sound(nodes) && p != [] && q != []
      modifies this
      ensures Sound(nodes) <==> r != Ok || p == q || !Under(p, q)
      ensures r == if p == q then Ok else if p !in old(nodes) || !IsDir(old(nodes), Parent(q)) then NotExist
                   else if IsDir(old(nodes), q) && Kids(old(nodes), q) != {} then Exists else Ok
      ensures r != Ok || p == q ==> nodes == old(nodes)
      ensures r == Ok && p != q ==> forall k :: Bare(Get(nodes, k)) == Bare(Moved(old(nodes) - {q}, p, q, k))
    {
      if p == q {
        return Ok;
      }
      ghost var m := nodes;
      if p !in nodes {
        return NotExist;
      }
      var oldNode := nodes[p];
      if !IsDir(nodes, Parent(q)) {
        return NotExist;
      }
      if q in nodes {
        if nodes[q].Dir? {
          NoneBelow(nodes, q);
          if exists k :: k in nodes && Under(q, k) && k != q {
            return Exists;
          }
        } else {
          LeafHasNoKids(nodes, q);
        }
        nodes := nodes - {q};
      } else {
        AbsentHasNoKids(nodes, q);
      }
      assert nodes == m - {q};
      NoneBelow(m, q);
      if oldNode.Dir? {
        var toRename := Collect(p, q);
        DeleteOld(p, q, toRename);
        AddNew(toRename);
        DirMoved(m, p, q, toRename, nodes);
      } else {
        nodes := nodes[q := oldNode] - {p};
        LeafHasNoKids(m, p);
        NoneBelow(m, p);
        LeafHasNoneBelow(m, p, q);
        LeafMoved(m, p, q, nodes);
        DroppedMoves(m, p, q, nodes);
      }
      ghost var moved := nodes;
      MoveExactly(m, p, q, moved);
      ResizedBare(moved, Parent(p));
      ResizedBare(Resized(moved, Parent(p)), Parent(q));
      UpdateDirSize(Parent(p));
      if Parent(p) != Parent(q) {
        UpdateDirSize(Parent(q));
      } else {
        ResizedTwice(moved, Parent(p));
      }
      r := Ok;
    }
  }
  /** A rename to where nothing is, and back, leaves the very same map, sizes and all. */
  method RenameThereAndBack(fsys: MemFS, p: Path, q: Path) returns (r: Result)
    requires Sound(fsys.nodes) && p in fsys.nodes && p != [] && !Under(p, q)
    requires q != [] && q !in fsys.nodes && IsDir(fsys.nodes, Parent(q))
    modifies fsys
    ensures r == Ok && fsys.nodes == old(fsys.nodes)
  {
    hide Rooted, Sized, Kids, Moved, Bare;
    ghost var m := fsys.nodes;
    ThereToMove(m, p, q);
    r := fsys.Rename(p, q);
    ghost var there := fsys.nodes;
    ThereToMoveBack(m, p, q, there);
    r := fsys.Rename(q, p);
    MovedBack(m, p, q, there, fsys.nodes);
    SizesFollow(m, fsys.nodes);
  }

  lemma ThereToMove(m: Nodes, p: Path, q: Path)
    requires Sound(m) && p in m && p != [] && q != [] && q !in m && !Under(p, q)
    ensures IsDir(m, Parent(p)) && !Under(q, p) && p != q && forall k :: k in m ==> !Under(q, k)
  {
    AbsentHasNoKids(m, q);
    NoneBelow(m, q);
  }

  lemma ThereToMoveBack(m: Nodes, p: Path, q: Path, there: Nodes)
    requires p in m && p != [] && IsDir(m, Parent(p)) && !Under(p, q) && !Under(q, p)
    requires forall k :: k in m ==> !Under(q, k)
    requires forall k :: Bare(Get(there, k)) == Bare(Moved(m - {q}, p, q, k))
    ensures q in there && p !in there && IsDir(there, Parent(p))
  {
    assert Under(q, q + []) && q + [] == q && p + [] == p && q[|q|..] == [];
    assert q !in m;
    assert Bare(Get(there, q)) == Bare(Moved(m - {q}, p, q, q));
    assert Bare(Get(there, p)) == Bare(Moved(m - {q}, p, q, p));
    var up := Parent(p);
    assert !Under(q, up) && !Under(p, up);
    assert Bare(Get(there, up)) == Bare(Moved(m - {q}, p, q, up));
  }
}
