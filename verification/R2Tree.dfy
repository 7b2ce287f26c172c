/** The tree of objects in a bucket: recursive rename and remove, entry by entry, in any order.

    A directory is held as the entries its text parses to; every update goes through the text. */
module R2Tree {
  import opened R2Listing
  import opened Paths

  const DEFAULT_MODE := "33188"

  datatype Object =
    | Dir(entries: Entries, mode: string)
    | Leaf(symlink: bool, content: string, mode: string)

  type Bucket = map<Path, Object>

  datatype Option<T> = None | Some(value: T)
  datatype Status = Done | NotExist | NoParent

  /** What a parent's listing says of an object put there now. */
  function ModeOf(o: Object): string { if o.mode == "" then DEFAULT_MODE else o.mode }

  function Get(b: Bucket, k: Path): Option<Object> { if k in b then Some(b[k]) else None }

  function Subtree(b: Bucket, p: Path): set<Path> { set k | k in b && Under(p, k) }

  // ------------------------------------------------------------------- well-formed trees

  ghost predicate ListsChildren(b: Bucket, d: Path)
    requires d in b
  {
    && (b[d].Dir? ==> Clean(b[d].entries) && forall n :: n in b[d].entries <==> d + [n] in b)
    && (!b[d].Dir? ==> forall n :: d + [n] !in b)
    && (b[d].mode == "" || Word(b[d].mode))
  }

  /** At and below `p`: an object other than `p` has its parent, and is listed there exactly if it
      exists. */
  ghost predicate TreeOk(b: Bucket, p: Path) {
    && (forall d :: d in b && Under(p, d) ==> ListsChildren(b, d))
    && (forall k :: k in b && Under(p, k) && k != p ==> Parent(k) in b)
  }

  ghost predicate WellFormed(b: Bucket) {
    [] in b && b[[]].Dir? && TreeOk(b, [])
  }

  predicate IsDir(b: Bucket, p: Path) { p in b && b[p].Dir? && Clean(b[p].entries) }

  // --------------------------------------------------------------------- what rename means

  /** An object whose listing carries the modes the children have themselves. */
  function Refreshed(b: Bucket, k: Path): Object
    requires k in b
  {
    match b[k]
    case Leaf(_, _, _) => b[k]
    case Dir(entries, mode) =>
      Dir(map n | n in entries :: if k + [n] in b then ModeOf(b[k + [n]]) else entries[n], mode)
  }

  function Listing(o: Object, add: bool, name: Name, mode: string): Object {
    if o.Dir? && add then o.(entries := o.entries[name := mode]) else o
  }

  function Unlisting(o: Object, drop: bool, name: Name): Object {
    if o.Dir? && drop then o.(entries := o.entries - {name}) else o
  }

  /** What is at `k` once `p` was renamed to `q`.  What was below `q`, and is not below `p`, stays. */
  function Renamed(b: Bucket, p: Path, q: Path, k: Path): Option<Object>
    requires p in b && p != [] && q != []
  {
    if Under(q, k) then
      var src := p + k[|q|..];
      if src in b then Some(Refreshed(b, src)) else Get(b, k)
    else if Under(p, k) then None
    else if k in b then
      Some(Unlisting(Listing(b[k], k == Parent(q), Base(q), ModeOf(b[p])), k == Parent(p), Base(p)))
    else None
  }

  /** What the code relies on: sound listings below `p`, neither path below the other, and parents that are
      directories. */
  ghost predicate Movable(b: Bucket, p: Path, q: Path) {
    && p != [] && q != [] && !Under(p, q) && !Under(q, p)
    && TreeOk(b, p) && IsDir(b, Parent(p)) && IsDir(b, Parent(q)) && Word(Base(q))
  }

  /** What is at `k` when the entries `done` of the directory `p` have been moved. */
  function Halfway(b: Bucket, p: Path, q: Path, done: set<Name>, k: Path): Option<Object>
    requires p in b && p != [] && q != [] && b[p].Dir?
  {
    if Under(q, k) then
      var src := p + k[|q|..];
      if k == q then
        Some(b[p].(entries := map n | n in b[p].entries ::
          if n in done && p + [n] in b then ModeOf(b[p + [n]]) else b[p].entries[n]))
      else if src in b && k[|q|] in done then Some(Refreshed(b, src))
      else Get(b, k)
    else if Under(p, k) then
      if k == p then Some(b[p].(entries := b[p].entries - done))
      else if k in b && k[|p|] !in done then Some(b[k])
      else None
    else if k in b then Some(Listing(b[k], k == Parent(q), Base(q), ModeOf(b[p])))
    else None
  }

  ghost predicate IsHalfway(b: Bucket, p: Path, q: Path, done: set<Name>, now: Bucket)
    requires p in b && p != [] && q != [] && b[p].Dir?
  {
    forall k :: Get(now, k) == Halfway(b, p, q, done, k)
  }

  ghost predicate IsRenamed(b: Bucket, p: Path, q: Path, now: Bucket)
    requires p in b && p != [] && q != []
  {
    forall k :: Get(now, k) == Renamed(b, p, q, k)
  }

  // ------------------------------------------------------------------------ about paths

  /** Where an object below `q` came from. */
  lemma Source(p: Path, q: Path, k: Path)
    requires Under(q, k)
    ensures var src := p + k[|q|..];
            && Under(p, src) && (src == p <==> k == q)
            && (k != q ==> |src| > |p| && src[|p|] == k[|q|] && (p + [k[|q|]]) + k[|q| + 1..] == src)
            && (forall n :: src + [n] == p + (k + [n])[|q|..])
  {
    assert k == q + k[|q|..];
    var src := p + k[|q|..];
    forall n ensures src + [n] == p + (k + [n])[|q|..] {
      assert (k + [n])[|q|..] == k[|q|..] + [n];
    }
    assert k != q ==> k[|q|..] == [k[|q|]] + k[|q| + 1..];
  }

  /** The two subtrees are apart, and so are the parents. */
  lemma Apart(p: Path, q: Path, k: Path)
    requires p != [] && q != [] && !Under(p, q) && !Under(q, p)
    ensures !(Under(p, k) && Under(q, k))
    ensures !Under(p, Parent(p)) && !Under(q, Parent(p)) && !Under(p, Parent(q)) && !Under(q, Parent(q))
  {
    if Under(p, k) && Under(q, k) {
      Prefixes(p, q, k);
    }
    assert Under(q, Parent(p)) ==> Under(q, p);
    assert Under(p, Parent(q)) ==> Under(p, q);
  }

  /** An object below `p` has all its ancestors down from `p`, each listed in the one above. */
  lemma {:induction false} Ancestors(b: Bucket, p: Path, k: Path)
    requires TreeOk(b, p) && k in b && Under(p, k) && k != p
    ensures p in b && p + [k[|p|]] in b && b[p].Dir? && k[|p|] in b[p].entries
    decreases |k|
  {
    var up := Parent(k);
    assert k == up + [Base(k)];
    assert Under(p, up);
    assert ListsChildren(b, up);
    if up != p {
      Ancestors(b, p, up);
    }
  }

  // --------------------------------------------------------------------- the loop of rename

  /** After the put and before any entry has moved. */
  lemma NothingMoved(b: Bucket, p: Path, q: Path, now: Bucket)
    requires p in b && Movable(b, p, q) && b[p].Dir?
    requires now == b[Parent(q) := Listing(b[Parent(q)], true, Base(q), ModeOf(b[p]))][q := b[p]]
    ensures IsHalfway(b, p, q, {}, now)
  {
    hide TreeOk, Clean;
    forall k ensures Get(now, k) == Halfway(b, p, q, {}, k) {
      Apart(p, q, k);
      if Under(q, k) { Source(p, q, k); }
      if k == q {
        assert Halfway(b, p, q, {}, q).value.entries == b[p].entries;
      }
      assert b[p].entries - {} == b[p].entries;
    }
  }

  /** An entry that has not moved yet is as it was, all the way down. */
  lemma Unmoved(b: Bucket, p: Path, q: Path, done: set<Name>, e: Name, now: Bucket, k: Path)
    requires p in b && Movable(b, p, q) && b[p].Dir? && e !in done
    requires IsHalfway(b, p, q, done, now) && Under(p + [e], k)
    ensures Get(now, k) == Get(b, k)
    ensures forall n :: Get(now, k + [n]) == Get(b, k + [n])
  {
    hide TreeOk, Clean;
    UnderChild(p, e, k);
    Apart(p, q, k);
    forall n ensures Get(now, k + [n]) == Get(b, k + [n]) {
      UnderChild(p, e, k + [n]);
      Apart(p, q, k + [n]);
    }
  }

  /** The call for one entry may be made. */
  lemma ChildMovable(b: Bucket, p: Path, q: Path, done: set<Name>, e: Name, now: Bucket)
    requires p in b && Movable(b, p, q) && b[p].Dir? && e in b[p].entries && e !in done
    requires IsHalfway(b, p, q, done, now)
    ensures p + [e] in now && Movable(now, p + [e], q + [e])
    ensures Subtree(now, p + [e]) < Subtree(b, p)
  {
    ChildStays(b, p, q, done, e, now);
    ChildTreeOk(b, p, q, done, e, now);
    ChildDirs(b, p, q, done, e, now);
    hide IsHalfway, Halfway, TreeOk, Clean, Word;
    assert Parent(p + [e]) == p && Parent(q + [e]) == q && Base(q + [e]) == e;
    UnderChild(p, e, q + [e]);
    UnderChild(q, e, p + [e]);
    Apart(p, q, q + [e]);
    Apart(p, q, p + [e]);
    assert p in Subtree(b, p) && p !in Subtree(now, p + [e]);
  }

  /** The entry is still where it was, with all below it. */
  lemma ChildStays(b: Bucket, p: Path, q: Path, done: set<Name>, e: Name, now: Bucket)
    requires p in b && Movable(b, p, q) && b[p].Dir? && e in b[p].entries && e !in done
    requires IsHalfway(b, p, q, done, now)
    ensures p + [e] in now
    ensures forall k :: Under(p + [e], k) ==> Under(p, k) && Get(now, k) == Get(b, k)
    ensures forall k :: k in now && Under(p + [e], k) ==> k in b
  {
    forall k | Under(p + [e], k) ensures Get(now, k) == Get(b, k) && Under(p, k) {
      Unmoved(b, p, q, done, e, now, k);
      UnderChild(p, e, k);
    }
    assert ListsChildren(b, p) && Under(p + [e], p + [e]);
    assert p + [e] in b && Get(now, p + [e]) == Get(b, p + [e]);
    assert forall k :: k in now && Under(p + [e], k) ==> Get(now, k) == Get(b, k);
  }

  lemma ChildDirs(b: Bucket, p: Path, q: Path, done: set<Name>, e: Name, now: Bucket)
    requires p in b && Movable(b, p, q) && b[p].Dir? && e in b[p].entries && e !in done
    requires IsHalfway(b, p, q, done, now)
    ensures IsDir(now, p) && IsDir(now, q) && Word(e)
  {
    assert ListsChildren(b, p);
    Apart(p, q, p);
    assert Get(now, p) == Halfway(b, p, q, done, p) && Get(now, q) == Halfway(b, p, q, done, q);
    ListingsStayClean(b, p, done);
  }

  lemma ListingsStayClean(b: Bucket, p: Path, done: set<Name>)
    requires p in b && b[p].Dir? && TreeOk(b, p)
    ensures Clean(b[p].entries - done)
    ensures Clean(map n | n in b[p].entries :: if n in done && p + [n] in b then ModeOf(b[p + [n]]) else b[p].entries[n])
  {
    assert ListsChildren(b, p);
    forall n | n in b[p].entries && p + [n] in b ensures Word(ModeOf(b[p + [n]])) {
      assert ListsChildren(b, p + [n]);
    }
  }

  lemma ChildTreeOk(b: Bucket, p: Path, q: Path, done: set<Name>, e: Name, now: Bucket)
    requires p in b && Movable(b, p, q) && b[p].Dir? && e in b[p].entries && e !in done
    requires IsHalfway(b, p, q, done, now)
    ensures TreeOk(now, p + [e])
  {
    assert TreeOk(b, p);
    forall d | d in now && Under(p + [e], d) ensures ListsChildren(now, d) {
      hide Halfway, IsHalfway, Movable, Clean;
      Unmoved(b, p, q, done, e, now, d);
      UnderChild(p, e, d);
      assert Get(now, d) == Get(b, d);
      assert TreeOk(b, p) && ListsChildren(b, d);
      forall n ensures d + [n] in now <==> d + [n] in b {
        assert Get(now, d + [n]) == Get(b, d + [n]);
      }
    }
    forall k | k in now && Under(p + [e], k) && k != p + [e] ensures Parent(k) in now {
      hide Halfway, IsHalfway, Movable, Clean;
      Unmoved(b, p, q, done, e, now, k);
      UnderChild(p, e, k);
      assert Get(now, k) == Get(b, k);
      assert k != p && Parent(k) in b;
      UnderChild(p, e, Parent(k));
      assert k[|p|] == Parent(k)[|p|];
      Unmoved(b, p, q, done, e, now, Parent(k));
      assert Get(now, Parent(k)) == Get(b, Parent(k));
    }
  }

  lemma SameRefreshed(b: Bucket, now: Bucket, k: Path)
    requires k in b && Get(now, k) == Get(b, k) && forall n :: Get(now, k + [n]) == Get(b, k + [n])
    ensures k in now && Refreshed(now, k) == Refreshed(b, k)
  {
    if b[k].Dir? {
      forall n ensures (k + [n] in now <==> k + [n] in b) && (k + [n] in b ==> now[k + [n]] == b[k + [n]]) {
        assert Get(now, k + [n]) == Get(b, k + [n]);
      }
      assert Refreshed(now, k).entries == Refreshed(b, k).entries;
    }
  }

  /** Objects below the entry's new place. */
  lemma MovedAt(b: Bucket, p: Path, q: Path, done: set<Name>, e: Name, now: Bucket, k: Path)
    requires p in b && Movable(b, p, q) && b[p].Dir? && e in b[p].entries && e !in done
    requires IsHalfway(b, p, q, done, now) && p + [e] in now && Under(q + [e], k)
    ensures Renamed(now, p + [e], q + [e], k) == Halfway(b, p, q, done + {e}, k)
  {
    hide TreeOk, Clean, Halfway, IsHalfway, Refreshed;
    UnderChild(q, e, k);
    Source(p, q, k);
    var src := p + k[|q|..];
    assert (p + [e]) + k[|q + [e]|..] == src;
    UnderChild(p, e, src);
    Unmoved(b, p, q, done, e, now, src);
    if src in b {
      SameRefreshed(b, now, src);
    }
    BelowNew(b, p, q, done, k);
    BelowNew(b, p, q, done + {e}, k);
    RestIs(b, p, q, done, now, k);
    assert src in now <==> Get(now, src).Some?;
  }

  lemma BelowNew(b: Bucket, p: Path, q: Path, done: set<Name>, k: Path)
    requires p in b && p != [] && q != [] && b[p].Dir? && Under(q, k) && k != q
    ensures var src := p + k[|q|..];
            Halfway(b, p, q, done, k) == if src in b && k[|q|] in done then Some(Refreshed(b, src)) else Get(b, k)
  {
  }

  /** Everything else while one entry moves: the listings of the two directories change. */
  lemma RestAt(b: Bucket, p: Path, q: Path, done: set<Name>, e: Name, now: Bucket, k: Path)
    requires p in b && Movable(b, p, q) && b[p].Dir? && e in b[p].entries && e !in done
    requires IsHalfway(b, p, q, done, now) && p + [e] in now && !Under(q + [e], k)
    ensures Renamed(now, p + [e], q + [e], k) == Halfway(b, p, q, done + {e}, k)
  {
    hide TreeOk, Clean, Halfway, IsHalfway;
    UnderChild(p, e, k);
    UnderChild(q, e, k);
    Apart(p, q, k);
    assert Parent(p + [e]) == p && Parent(q + [e]) == q && Base(q + [e]) == e && Base(p + [e]) == e;
    assert Get(now, k) == Halfway(b, p, q, done, k) by { assert IsHalfway(b, p, q, done, now); RestIs(b, p, q, done, now, k); }
    Unmoved(b, p, q, done, e, now, p + [e]);
    assert Get(now, p + [e]) == Get(b, p + [e]);
    hide Movable;
    if k == q {
      ListingOfNew(b, p, q, done, e);
    } else if k == p {
      ListingOfOld(b, p, q, done, e);
    } else if Under(p + [e], k) {
      GoneFromOld(b, p, q, done + {e}, k);
    } else {
      ElsewhereSame(b, p, q, done, e, k);
    }
  }

  lemma GoneFromOld(b: Bucket, p: Path, q: Path, done: set<Name>, k: Path)
    requires p in b && p != [] && q != [] && b[p].Dir? && Under(p, k) && !Under(q, k) && k != p && k[|p|] in done
    ensures Halfway(b, p, q, done, k) == None
  {
  }

  lemma RestIs(b: Bucket, p: Path, q: Path, done: set<Name>, now: Bucket, k: Path)
    requires p in b && p != [] && q != [] && b[p].Dir? && IsHalfway(b, p, q, done, now)
    ensures Get(now, k) == Halfway(b, p, q, done, k)
  {
  }

  lemma ListingOfNew(b: Bucket, p: Path, q: Path, done: set<Name>, e: Name)
    requires p in b && p != [] && q != [] && b[p].Dir? && e in b[p].entries && p + [e] in b
    ensures var old', new' := Halfway(b, p, q, done, q), Halfway(b, p, q, done + {e}, q);
            old'.Some? && old'.value.Dir? && new' == Some(old'.value.(entries := old'.value.entries[e := ModeOf(b[p + [e]])]))
  {
    var old', new' := Halfway(b, p, q, done, q), Halfway(b, p, q, done + {e}, q);
    assert new'.value.entries == old'.value.entries[e := ModeOf(b[p + [e]])];
  }

  lemma ListingOfOld(b: Bucket, p: Path, q: Path, done: set<Name>, e: Name)
    requires p in b && p != [] && q != [] && b[p].Dir? && !Under(q, p)
    ensures var old', new' := Halfway(b, p, q, done, p), Halfway(b, p, q, done + {e}, p);
            old'.Some? && old'.value.Dir? && new' == Some(old'.value.(entries := old'.value.entries - {e}))
  {
    assert (b[p].entries - done) - {e} == b[p].entries - (done + {e});
  }

  lemma ElsewhereSame(b: Bucket, p: Path, q: Path, done: set<Name>, e: Name, k: Path)
    requires p in b && p != [] && q != [] && b[p].Dir? && k != p && k != q
    requires (Under(p, k) ==> k[|p|] != e) && (Under(q, k) ==> k[|q|] != e)
    ensures Halfway(b, p, q, done + {e}, k) == Halfway(b, p, q, done, k)
  {
  }

  /** One more entry has moved. */
  lemma OneMoved(b: Bucket, p: Path, q: Path, done: set<Name>, e: Name, now: Bucket, next: Bucket)
    requires p in b && Movable(b, p, q) && b[p].Dir? && e in b[p].entries && e !in done
    requires IsHalfway(b, p, q, done, now) && p + [e] in now
    requires IsRenamed(now, p + [e], q + [e], next)
    ensures IsHalfway(b, p, q, done + {e}, next)
  {
    assert p != [] && q != [];
    hide Movable, Halfway, Renamed;
    forall k ensures Get(next, k) == Halfway(b, p, q, done + {e}, k) {
      if Under(q + [e], k) { MovedAt(b, p, q, done, e, now, k); } else { RestAt(b, p, q, done, e, now, k); }
    }
  }

  /** All entries have moved; the old listing entry and the old object go. */
  lemma AllMoved(b: Bucket, p: Path, q: Path, now: Bucket, next: Bucket)
    requires p in b && Movable(b, p, q) && b[p].Dir?
    requires IsHalfway(b, p, q, b[p].entries.Keys, now) && IsDir(now, Parent(p))
    requires next == now[Parent(p) := Unlisting(now[Parent(p)], true, Base(p))] - {p}
    ensures IsRenamed(b, p, q, next)
  {
    hide TreeOk, ListsChildren, Clean;
    AllListed(b, p, q);
    forall k ensures Get(next, k) == Renamed(b, p, q, k) {
      Apart(p, q, k);
      assert Get(now, k) == Halfway(b, p, q, b[p].entries.Keys, k);
      if Under(q, k) {
        Source(p, q, k);
        var src := p + k[|q|..];
        if k != q && src in b {
          Ancestors(b, p, src);
        }
      } else if Under(p, k) && k != p && k in b {
        Ancestors(b, p, k);
      }
    }
  }

  lemma AllListed(b: Bucket, p: Path, q: Path)
    requires p in b && p != [] && q != [] && TreeOk(b, p) && b[p].Dir?
    ensures Halfway(b, p, q, b[p].entries.Keys, q) == Some(Refreshed(b, p))
  {
    assert ListsChildren(b, p);
    assert Refreshed(b, p).entries == Halfway(b, p, q, b[p].entries.Keys, q).value.entries;
  }

  /** Anything but a directory moves in one go. */
  lemma LeafMoved(b: Bucket, p: Path, q: Path, next: Bucket)
    requires p in b && Movable(b, p, q) && !b[p].Dir?
    requires var put := b[Parent(q) := Listing(b[Parent(q)], true, Base(q), ModeOf(b[p]))][q := b[p]];
             Parent(p) in put && next == put[Parent(p) := Unlisting(put[Parent(p)], true, Base(p))] - {p}
    ensures IsRenamed(b, p, q, next)
  {
    forall k ensures Get(next, k) == Renamed(b, p, q, k) {
      Apart(p, q, k);
      if Under(q, k) {
        Source(p, q, k);
        var src := p + k[|q|..];
        if k != q && src in b {
          NoneBelow(b, p, src);
        }
      } else if Under(p, k) && k != p && k in b {
        NoneBelow(b, p, k);
      }
    }
  }

  lemma NoneBelow(b: Bucket, p: Path, k: Path)
    requires TreeOk(b, p) && p in b && !b[p].Dir? && Under(p, k) && k in b
    ensures k == p
  {
    if k != p {
      Ancestors(b, p, k);
    }
  }

  // ----------------------------------------------------------------------------- remove

  /** What is at `k` once `p` was removed. */
  function Removed(b: Bucket, p: Path, k: Path): Option<Object> {
    if Under(p, k) then None
    else if k in b then Some(Unlisting(b[k], p != [] && k == Parent(p), if p != [] then Base(p) else ""))
    else None
  }

  ghost predicate IsRemoved(b: Bucket, p: Path, now: Bucket) {
    forall k :: Get(now, k) == Removed(b, p, k)
  }

  /** Sound listings below `p`, in a directory. */
  ghost predicate Removable(b: Bucket, p: Path) {
    TreeOk(b, p) && (p != [] ==> IsDir(b, Parent(p)))
  }

  /** What is at `k` when the entries `done` of the directory `p` have been removed. */
  function Emptied(b: Bucket, p: Path, done: set<Name>, k: Path): Option<Object>
    requires p in b && b[p].Dir?
  {
    if k == p then Some(b[p].(entries := b[p].entries - done))
    else if Under(p, k) && k[|p|] in done then None
    else Get(b, k)
  }

  ghost predicate IsEmptied(b: Bucket, p: Path, done: set<Name>, now: Bucket)
    requires p in b && b[p].Dir?
  {
    forall k :: Get(now, k) == Emptied(b, p, done, k)
  }

  lemma NothingEmptied(b: Bucket, p: Path)
    requires p in b && b[p].Dir?
    ensures IsEmptied(b, p, {}, b)
  {
    assert b[p].entries - {} == b[p].entries;
  }

  lemma ChildRemovable(b: Bucket, p: Path, done: set<Name>, e: Name, now: Bucket)
    requires p in b && Removable(b, p) && b[p].Dir? && e in b[p].entries && e !in done
    requires IsEmptied(b, p, done, now)
    ensures p + [e] in now && Removable(now, p + [e])
    ensures Subtree(now, p + [e]) < Subtree(b, p)
  {
    assert ListsChildren(b, p);
    forall k | Under(p + [e], k) ensures Get(now, k) == Get(b, k) && Under(p, k) && k != p {
      UnderChild(p, e, k);
    }
    assert p in Subtree(b, p) && p !in Subtree(now, p + [e]);
    assert Get(now, p + [e]) == Get(b, p + [e]);
    assert Parent(p + [e]) == p && Get(now, p) == Emptied(b, p, done, p);
    forall d | d in now && Under(p + [e], d) ensures ListsChildren(now, d) {
      assert Get(now, d) == Get(b, d) && ListsChildren(b, d);
      forall n ensures d + [n] in now <==> d + [n] in b {
        UnderChild(p, e, d);
        UnderChild(p, e, d + [n]);
        assert Get(now, d + [n]) == Get(b, d + [n]);
      }
    }
    forall k | k in now && Under(p + [e], k) && k != p + [e] ensures Parent(k) in now {
      assert Get(now, k) == Get(b, k) && Parent(k) in b;
      UnderChild(p, e, k);
      UnderChild(p, e, Parent(k));
      assert Get(now, Parent(k)) == Get(b, Parent(k));
    }
  }

  lemma OneEmptied(b: Bucket, p: Path, done: set<Name>, e: Name, now: Bucket, next: Bucket)
    requires p in b && b[p].Dir? && e !in done
    requires IsEmptied(b, p, done, now) && IsRemoved(now, p + [e], next)
    ensures IsEmptied(b, p, done + {e}, next)
  {
    forall k ensures Get(next, k) == Emptied(b, p, done + {e}, k) {
      UnderChild(p, e, k);
      assert Parent(p + [e]) == p && Base(p + [e]) == e;
      assert Get(now, k) == Emptied(b, p, done, k);
      assert (b[p].entries - done) - {e} == b[p].entries - (done + {e});
    }
  }

  lemma AllEmptied(b: Bucket, p: Path, now: Bucket, next: Bucket)
    requires p in b && Removable(b, p)
    requires if b[p].Dir? then IsEmptied(b, p, b[p].entries.Keys, now) else now == b
    requires p != [] ==> Parent(p) in now
    requires next == (if p == [] then now else now[Parent(p) := Unlisting(now[Parent(p)], true, Base(p))]) - {p}
    ensures IsRemoved(b, p, next)
  {
    forall k ensures Get(next, k) == Removed(b, p, k) {
      if k in b && Under(p, k) && k != p {
        Ancestors(b, p, k);
      }
      if b[p].Dir? {
        assert Get(now, k) == Emptied(b, p, b[p].entries.Keys, k);
      }
    }
  }

  // ------------------------------------------------------------------------- the operations

  class Store {
    var objects: Bucket

    constructor (b: Bucket)
      ensures objects == b
    {
      objects := b;
    }

    /** `updateParentDirectoryListing`, undisturbed: the listing goes through its text. */
    method UpdateParent(path: Path, mode: string, isDelete: bool) returns (ok: bool)
      requires path != [] && Parent(path) in objects ==> IsDir(objects, Parent(path))
      requires path != [] && Parent(path) in objects && !isDelete ==> Word(Base(path)) && Word(mode)
      modifies this
      ensures ok == (path == [] || Parent(path) in old(objects))
      ensures !ok || path == [] ==> objects == old(objects)
      ensures ok && path != [] ==>
        var o := old(objects)[Parent(path)];
        objects == old(objects)[Parent(path) :=
          if isDelete then Unlisting(o, true, Base(path)) else Listing(o, true, Base(path), mode)]
    {
      if path == [] {
        return true;
      }
      if Parent(path) !in objects {
        return false;
      }
      var o := objects[Parent(path)];
      var entries := if isDelete then o.entries - {Base(path)} else o.entries[Base(path) := mode];
      CleanComesBack(entries);
      var text := FormatDirectoryEntries(entries);
      entries := ParseDirectoryEntries(text);
      objects := objects[Parent(path) := o.(entries := entries)];
      ok := true;
    }

    /** `rename`: list at the destination, copy, move the entries one by one in any order, unlist and
        delete at the source. */
    method Rename(p: Path, q: Path) returns (r: Status)
      requires p != [] && q != []
      requires p in objects && Parent(q) in objects ==> Movable(objects, p, q)
      modifies this
      ensures r == if p !in old(objects) then NotExist else if Parent(q) !in old(objects) then NoParent else Done
      ensures r != Done ==> objects == old(objects)
      ensures r == Done ==> IsRenamed(old(objects), p, q, objects)
      decreases Subtree(objects, p)
    {
      hide TreeOk, ListsChildren, Clean, Renamed, Halfway, Movable, IsHalfway, IsRenamed;
      if p !in objects {
        return NotExist;
      }
      ghost var b := objects;
      if Parent(q) in objects {
        MovableFacts(b, p, q);
      }
      var o := objects[p];
      var ok := UpdateParent(q, ModeOf(o), false);
      if !ok {
        return NoParent;
      }
      objects := objects[q := o];
      if o.Dir? {
        NothingMoved(b, p, q, objects);
        var left := o.entries.Keys;
        assert o.entries.Keys - left == {};
        while left != {}
          invariant left <= o.entries.Keys && IsHalfway(b, p, q, o.entries.Keys - left, objects)
          decreases |left|
        {
          var e :| e in left;
          ghost var done, now := o.entries.Keys - left, objects;
          ChildMovable(b, p, q, done, e, now);
          assert Parent(q + [e]) in now by { ChildParent(now, p + [e], q, e); }
          var child := Rename(p + [e], q + [e]);
          OneMoved(b, p, q, done, e, now, objects);
          left := left - {e};
          assert o.entries.Keys - left == done + {e};
        }
        assert o.entries.Keys - left == o.entries.Keys;
        ParentStays(b, p, q, o.entries.Keys, objects);
      }
      ghost var now := objects;
      ok := UpdateParent(p, "", true);
      objects := objects - {p};
      if o.Dir? {
        AllMoved(b, p, q, now, objects);
      } else {
        LeafMoved(b, p, q, objects);
      }
      r := Done;
    }

    /** `remove`: the entries one by one in any order, then the listing entry and the object. */
    method Remove(p: Path) returns (r: Status)
      requires p in objects ==> Removable(objects, p)
      modifies this
      ensures r == if p !in old(objects) then NotExist else Done
      ensures r == NotExist ==> objects == old(objects)
      ensures r == Done ==> IsRemoved(old(objects), p, objects)
      decreases Subtree(objects, p)
    {
      hide TreeOk, ListsChildren, Clean, Removed, Emptied, Removable, IsEmptied, IsRemoved;
      if p !in objects {
        return NotExist;
      }
      ghost var b := objects;
      var o := objects[p];
      if o.Dir? {
        NothingEmptied(b, p);
        var left := o.entries.Keys;
        assert o.entries.Keys - left == {};
        while left != {}
          invariant left <= o.entries.Keys && IsEmptied(b, p, o.entries.Keys - left, objects)
          decreases |left|
        {
          var e :| e in left;
          ghost var done, now := o.entries.Keys - left, objects;
          ChildRemovable(b, p, done, e, now);
          var child := Remove(p + [e]);
          OneEmptied(b, p, done, e, now, objects);
          left := left - {e};
          assert o.entries.Keys - left == done + {e};
        }
        assert o.entries.Keys - left == o.entries.Keys;
      }
      ParentStaysDir(b, p, objects);
      ghost var now := objects;
      var ok := UpdateParent(p, "", true);
      objects := objects - {p};
      AllEmptied(b, p, now, objects);
      r := Done;
    }
  }

  lemma MovableFacts(b: Bucket, p: Path, q: Path)
    requires p in b && Movable(b, p, q)
    ensures IsDir(b, Parent(q)) && Word(Base(q)) && Word(ModeOf(b[p]))
    ensures var put := b[Parent(q) := Listing(b[Parent(q)], true, Base(q), ModeOf(b[p]))][q := b[p]]; IsDir(put, Parent(p))
  {
    assert ListsChildren(b, p);
    Apart(p, q, p);
  }

  lemma ChildParent(now: Bucket, p: Path, q: Path, e: Name)
    requires Movable(now, p, q + [e])
    ensures Parent(q + [e]) in now
  {
  }

  lemma ParentStays(b: Bucket, p: Path, q: Path, done: set<Name>, now: Bucket)
    requires p in b && Movable(b, p, q) && b[p].Dir? && IsHalfway(b, p, q, done, now)
    ensures IsDir(now, Parent(p))
  {
    Apart(p, q, p);
    MovableFacts(b, p, q);
    assert Get(now, Parent(p)) == Halfway(b, p, q, done, Parent(p));
  }

  lemma ParentStaysDir(b: Bucket, p: Path, now: Bucket)
    requires p in b && Removable(b, p)
    requires if b[p].Dir? then IsEmptied(b, p, b[p].entries.Keys, now) else now == b
    ensures p != [] ==> IsDir(now, Parent(p))
  {
    if p != [] && b[p].Dir? {
      assert Get(now, Parent(p)) == Emptied(b, p, b[p].entries.Keys, Parent(p));
    }
  }

  // --------------------------------------------------------------------------- theorems

  /** A destination in a directory, apart from the source. */
  ghost predicate GoodTarget(b: Bucket, p: Path, q: Path) {
    q != [] && !Under(p, q) && !Under(q, p) && IsDir(b, Parent(q)) && Word(Base(q))
  }

  /** Whatever is below the destination is overwritten. */
  ghost predicate Covered(b: Bucket, p: Path, q: Path) {
    forall k :: k in b && Under(q, k) ==> p + k[|q|..] in b
  }

  /** Nothing is there. */
  ghost predicate NewTarget(b: Bucket, p: Path, q: Path) {
    GoodTarget(b, p, q) && forall k :: Under(q, k) ==> k !in b
  }

  lemma WellFormedMovable(b: Bucket, p: Path, q: Path)
    requires WellFormed(b) && p in b && p != [] && GoodTarget(b, p, q)
    ensures Movable(b, p, q)
  {
    SubtreeOk(b, p);
    hide TreeOk;
    ParentLists(b, p);
  }

  lemma ParentLists(b: Bucket, p: Path)
    requires WellFormed(b) && p in b && p != []
    ensures IsDir(b, Parent(p)) && Base(p) in b[Parent(p)].entries
  {
    hide TreeOk, Word, Clean, WellFormed;
    ParentThere(b, p);
    Splits(p);
    Lists(b, Parent(p));
  }

  lemma ParentThere(b: Bucket, p: Path)
    requires WellFormed(b) && p in b && p != []
    ensures Parent(p) in b
  {
  }

  lemma Lists(b: Bucket, d: Path)
    requires WellFormed(b) && d in b
    ensures ListsChildren(b, d)
  {
  }

  lemma ModeIsWord(b: Bucket, d: Path)
    requires d in b && ListsChildren(b, d)
    ensures Word(ModeOf(b[d]))
  {
  }

  lemma SubtreeOk(b: Bucket, p: Path)
    requires WellFormed(b)
    ensures TreeOk(b, p)
  {
  }

  /** A child of a directory outside both subtrees. */
  lemma ChildOutside(b: Bucket, p: Path, q: Path, now: Bucket, d: Path, n: Name)
    requires p in b && p != [] && q != [] && IsRenamed(b, p, q, now) && !Under(p, q)
    requires !Under(p, d) && !Under(q, d)
    ensures d + [n] in now <==> d + [n] == q || (d + [n] != p && d + [n] in b)
    ensures p == d + [n] <==> d == Parent(p) && n == Base(p)
    ensures q == d + [n] <==> d == Parent(q) && n == Base(q)
  {
    assert Get(now, d + [n]) == Renamed(b, p, q, d + [n]);
    hide Refreshed, Listing, Unlisting;
    Outside(p, d, n);
    Outside(q, d, n);
    assert p + q[|q|..] == p;
  }

  /** A listing after the rename, for a directory outside both subtrees. */
  lemma ListsOutside(b: Bucket, p: Path, q: Path, now: Bucket, d: Path)
    requires WellFormed(b) && p in b && p != [] && GoodTarget(b, p, q) && IsRenamed(b, p, q, now)
    requires d in now && !Under(q, d)
    ensures ListsChildren(now, d)
  {
    hide WellFormed, ListsChildren, TreeOk, Refreshed, Listing, Unlisting, Clean, Word;
    assert Get(now, d) == Renamed(b, p, q, d);
    Lists(b, d);
    Lists(b, p);
    ModeIsWord(b, p);
    Splits(p);
    Splits(q);
    forall n ensures d + [n] in now <==> Now(d, n, q) || (!Now(d, n, p) && d + [n] in b) {
      ChildOutside(b, p, q, now, d, n);
    }
    StillLists(b, p, q, now, d, ModeOf(b[p]));
  }

  /** `d/n` is `p`. */
  predicate Now(d: Path, n: Name, p: Path) { p != [] && d == Parent(p) && n == Base(p) }

  lemma StillLists(b: Bucket, p: Path, q: Path, now: Bucket, d: Path, mode: string)
    requires p != [] && q != [] && p != q && d in b && d in now && ListsChildren(b, d)
    requires Word(Base(q)) && Word(mode) && (d == Parent(q) ==> b[d].Dir?)
    requires now[d] == Unlisting(Listing(b[d], d == Parent(q), Base(q), mode), d == Parent(p), Base(p))
    requires forall n :: d + [n] in now <==> Now(d, n, q) || (!Now(d, n, p) && d + [n] in b)
    ensures ListsChildren(now, d)
  {
    assert p == Parent(p) + [Base(p)] && q == Parent(q) + [Base(q)];
    if b[d].Dir? {
      forall n ensures n in now[d].entries <==> d + [n] in now {
        assert n in b[d].entries <==> d + [n] in b;
      }
    }
  }

  /** A listing in the moved subtree. */
  lemma ListsInside(b: Bucket, p: Path, q: Path, now: Bucket, d: Path)
    requires WellFormed(b) && p in b && p != [] && GoodTarget(b, p, q) && IsRenamed(b, p, q, now)
    requires Covered(b, p, q) && d in now && Under(q, d)
    ensures ListsChildren(now, d)
  {
    hide WellFormed, ListsChildren, TreeOk, Refreshed, Clean, Word;
    assert Get(now, d) == Renamed(b, p, q, d);
    var src := p + d[|q|..];
    Lists(b, src);
    forall n ensures d + [n] in now <==> src + [n] in b {
      Source(p, q, d);
      assert Under(q, d + [n]);
      assert Get(now, d + [n]) == Renamed(b, p, q, d + [n]);
    }
    forall n | src + [n] in b ensures Word(ModeOf(b[src + [n]])) {
      Lists(b, src + [n]);
      ModeIsWord(b, src + [n]);
    }
    CopyLists(b, src, now, d);
  }

  lemma CopyLists(b: Bucket, src: Path, now: Bucket, d: Path)
    requires src in b && d in now && now[d] == Refreshed(b, src) && ListsChildren(b, src)
    requires forall n :: d + [n] in now <==> src + [n] in b
    requires forall n :: src + [n] in b ==> Word(ModeOf(b[src + [n]]))
    ensures ListsChildren(now, d)
  {
    if b[src].Dir? {
      assert forall n :: n in now[d].entries <==> n in b[src].entries;
    }
  }

  /** Rename leaves a bucket in which again everything is listed in its parent exactly if it exists, if and
      only if nothing of the old destination is left over. */
  lemma RenameExactly(b: Bucket, p: Path, q: Path, now: Bucket)
    requires WellFormed(b) && p in b && p != [] && GoodTarget(b, p, q) && IsRenamed(b, p, q, now)
    ensures WellFormed(now) <==> Covered(b, p, q)
  {
    hide WellFormed, IsRenamed;
    if Covered(b, p, q) {
      RenameRestores(b, p, q, now);
    } else {
      var k :| k in b && Under(q, k) && p + k[|q|..] !in b;
      LeftOver(b, p, q, now, k);
    }
  }

  /** Two directories, the second with an entry. */
  function TwoDirs(x: Name, y: Name, z: Name, mode: string): Bucket {
    map[[] := Dir(map[x := mode, y := mode], ""), [x] := Dir(map[], ""), [y] := Dir(map[z := mode], ""),
        [y, z] := Leaf(false, "", "")]
  }

  lemma InTwoDirs(x: Name, y: Name, z: Name, mode: string, d: Path, n: Name)
    requires x != y
    ensures d + [n] in TwoDirs(x, y, z, mode) <==> (d == [] && (n == x || n == y)) || (d == [y] && n == z)
  {
    var k := d + [n];
    assert k[..|d|] == d && k[|d|] == n;
    assert k == [x] ==> k[..0] == [] && |d| == 0;
    assert k == [y] ==> |d| == 0;
    assert k == [y, z] ==> |d| == 1 && k[..1] == [y];
    assert [] + [n] == [n];
    assert [y] + [z] == [y, z];
  }

  lemma TwoDirsListed(x: Name, y: Name, z: Name, mode: string, d: Path)
    requires x != y && Word(x) && Word(y) && Word(z) && Word(mode) && d in TwoDirs(x, y, z, mode)
    ensures ListsChildren(TwoDirs(x, y, z, mode), d)
  {
    hide Word;
    var b := TwoDirs(x, y, z, mode);
    assert [x][0] != [y][0];
    forall n ensures d + [n] in b <==> b[d].Dir? && n in b[d].entries {
      InTwoDirs(x, y, z, mode, d, n);
    }
  }

  lemma TwoDirsParents(x: Name, y: Name, z: Name, mode: string, k: Path)
    requires k in TwoDirs(x, y, z, mode) && k != []
    ensures Parent(k) in TwoDirs(x, y, z, mode)
  {
    assert Parent([x]) == [] && Parent([y]) == [] && Parent([y, z]) == [y];
  }

  lemma TwoDirsApart(x: Name, y: Name, z: Name, mode: string)
    requires x != y && Word(y) && Word(x) && Word(mode)
    ensures GoodTarget(TwoDirs(x, y, z, mode), [x], [y])
  {
    hide Word;
    assert [x][0] != [y][0] && Parent([y]) == [];
  }

  lemma TwoDirsUncovered(x: Name, y: Name, z: Name, mode: string)
    requires x != y
    ensures !Covered(TwoDirs(x, y, z, mode), [x], [y])
  {
    var k: Path := [y, z];
    assert Under([y], k) && [x] + k[|[y]|..] == [x] + [z];
    InTwoDirs(x, y, z, mode, [x], z);
    assert [x][0] != [y][0] && k in TwoDirs(x, y, z, mode);
  }

  /** An empty directory renamed onto one with an entry leaves that entry in no listing. */
  lemma EntryLeftOver(x: Name, y: Name, z: Name, mode: string)
    requires x != y && Word(x) && Word(y) && Word(z) && Word(mode)
    ensures var b := TwoDirs(x, y, z, mode);
            WellFormed(b) && [x] in b && GoodTarget(b, [x], [y]) && !Covered(b, [x], [y])
  {
    var b := TwoDirs(x, y, z, mode);
    TwoDirsApart(x, y, z, mode);
    TwoDirsUncovered(x, y, z, mode);
    assert [] in b && b[[]].Dir? && [x] in b;
    hide Word, ListsChildren, GoodTarget, Covered, TwoDirs;
    forall d | d in b ensures ListsChildren(b, d) {
      TwoDirsListed(x, y, z, mode, d);
    }
    forall k | k in b && k != [] ensures Parent(k) in b {
      TwoDirsParents(x, y, z, mode, k);
    }
  }

  /** A left-over object, or one above it, is not listed. */
  lemma {:induction false} LeftOver(b: Bucket, p: Path, q: Path, now: Bucket, k: Path)
    requires WellFormed(b) && p in b && p != [] && GoodTarget(b, p, q) && IsRenamed(b, p, q, now)
    requires k in b && Under(q, k) && p + k[|q|..] !in b
    ensures !WellFormed(now)
    decreases |k|
  {
    assert p + q[|q|..] == p && k != q;
    var up := Parent(k);
    Splits(k);
    assert Under(q, up);
    Source(p, q, up);
    assert up in b;
    RenamedAt(b, p, q, now, k);
    RenamedAt(b, p, q, now, up);
    var src := p + up[|q|..];
    assert p + k[|q|..] == src + [Base(k)] by { assert k == up + [Base(k)]; }
    if src in b {
      Lists(b, src);
      hide WellFormed;
      NotListedThere(b, src, now, up, Base(k));
    } else {
      LeftOver(b, p, q, now, up);
    }
  }

  lemma NotListedThere(b: Bucket, src: Path, now: Bucket, d: Path, n: Name)
    requires src in b && ListsChildren(b, src) && src + [n] !in b
    requires d in now && now[d] == Refreshed(b, src) && d + [n] in now
    ensures !WellFormed(now)
  {
    if WellFormed(now) {
      Lists(now, d);
      hide WellFormed;
    }
  }

  lemma RenameRestores(b: Bucket, p: Path, q: Path, now: Bucket)
    requires WellFormed(b) && p in b && p != [] && GoodTarget(b, p, q) && IsRenamed(b, p, q, now) && Covered(b, p, q)
    ensures WellFormed(now)
  {
    hide ListsChildren;
    forall d | d in now ensures ListsChildren(now, d) {
      if Under(q, d) { ListsInside(b, p, q, now, d); } else { ListsOutside(b, p, q, now, d); }
    }
    forall k | k in now && k != [] ensures Parent(k) in now {
      ParentMoved(b, p, q, now, k);
    }
    assert Get(now, []) == Renamed(b, p, q, []);
  }

  lemma ParentMoved(b: Bucket, p: Path, q: Path, now: Bucket, k: Path)
    requires WellFormed(b) && p in b && p != [] && GoodTarget(b, p, q) && IsRenamed(b, p, q, now)
    requires Covered(b, p, q) && k in now && k != []
    ensures Parent(k) in now
  {
    hide ListsChildren, Clean, Refreshed;
    var up := Parent(k);
    assert k == up + [Base(k)];
    assert Get(now, k) == Renamed(b, p, q, k) && Get(now, up) == Renamed(b, p, q, up);
    Apart(p, q, k);
    if k == q {
    } else if Under(q, k) {
      assert Under(q, up);
      Source(p, q, up);
      assert p + k[|q|..] == (p + up[|q|..]) + [Base(k)];
      assert Parent(p + k[|q|..]) == p + up[|q|..];
    } else {
      assert !Under(p, k) && up in b;
    }
  }

  /** What a rename does, object by object: contents and modes arrive as they were, every moved directory has the
      names it had, each of them and the new name itself listed with the mode its object has, and elsewhere only
      the two listings change, by the one name each. */
  lemma RenameIs(b: Bucket, p: Path, q: Path, now: Bucket)
    requires WellFormed(b) && p in b && p != [] && GoodTarget(b, p, q) && IsRenamed(b, p, q, now)
    ensures forall k :: k in b && Under(p, k) ==>
              var k' := q + k[|p|..];
              && k !in now && k' in now && now[k'].mode == b[k].mode
              && (b[k].Leaf? ==> now[k'] == b[k])
              && (b[k].Dir? ==> now[k'].Dir? && now[k'].entries.Keys == b[k].entries.Keys)
    ensures forall k, n :: k in b && Under(p, k) && b[k].Dir? && n in b[k].entries ==>
              var k' := q + k[|p|..];
              k' in now && now[k'].Dir? && n in now[k'].entries && k' + [n] in now && OwnMode(now, k', n)
    ensures var up := Parent(q);
            up in now && now[up].Dir? && Base(q) in now[up].entries && up + [Base(q)] == q && q in now && OwnMode(now, up, Base(q))
    ensures forall k :: k in b && !Under(p, k) && !Under(q, k) ==>
              && k in now && now[k].mode == b[k].mode && (b[k].Leaf? ==> now[k] == b[k]) && (b[k].Dir? ==> now[k].Dir?)
              && (b[k].Dir? ==> forall n :: n in now[k].entries <==>
                    if k == Parent(q) && n == Base(q) then true
                    else if k == Parent(p) && n == Base(p) then false else n in b[k].entries)
              && (b[k].Dir? ==> forall n :: n in b[k].entries && n in now[k].entries && !(k == Parent(q) && n == Base(q)) ==>
                    now[k].entries[n] == b[k].entries[n])
    ensures forall k :: k in b && Under(q, k) && p + k[|q|..] !in b ==> k in now && now[k] == b[k]
    ensures forall k :: k in now ==> (k in b && !Under(p, k)) || (Under(q, k) && p + k[|q|..] in b)
  {
    hide WellFormed, GoodTarget, IsRenamed;
    TargetParts(b, p, q);
    forall k | k in b && Under(p, k) {
      MovedIs(b, p, q, now, k);
    }
    forall k, n | k in b && Under(p, k) && b[k].Dir? && n in b[k].entries
      ensures var k' := q + k[|p|..];
              k' in now && now[k'].Dir? && n in now[k'].entries && k' + [n] in now && OwnMode(now, k', n)
    {
      MovedLists(b, p, q, now, k, n);
    }
    NewEntry(b, p, q, now);
    forall k | k in b && !Under(p, k) && !Under(q, k) {
      ElsewhereIs(b, p, q, now, k);
    }
    forall k ensures k in b && Under(q, k) && p + k[|q|..] !in b ==> k in now && now[k] == b[k]
      ensures k in now ==> (k in b && !Under(p, k)) || (Under(q, k) && p + k[|q|..] in b)
    {
      NothingElse(b, p, q, now, k);
    }
  }

  lemma NothingElse(b: Bucket, p: Path, q: Path, now: Bucket, k: Path)
    requires p in b && p != [] && q != [] && !Under(p, q) && !Under(q, p) && IsRenamed(b, p, q, now)
    ensures k in b && Under(q, k) && p + k[|q|..] !in b ==> k in now && now[k] == b[k]
    ensures k in now ==> (k in b && !Under(p, k)) || (Under(q, k) && p + k[|q|..] in b)
  {
    RenamedAt(b, p, q, now, k);
    Apart(p, q, k);
    hide IsRenamed;
  }

  lemma TargetParts(b: Bucket, p: Path, q: Path)
    requires GoodTarget(b, p, q)
    ensures q != [] && !Under(p, q) && !Under(q, p) && Parent(q) in b && b[Parent(q)].Dir?
  {
  }

  lemma MovedIs(b: Bucket, p: Path, q: Path, now: Bucket, k: Path)
    requires p in b && p != [] && q != [] && !Under(p, q) && !Under(q, p) && IsRenamed(b, p, q, now)
    requires k in b && Under(p, k)
    ensures var k' := q + k[|p|..];
            && k !in now && k' in now && now[k'].mode == b[k].mode
            && (b[k].Leaf? ==> now[k'] == b[k])
            && (b[k].Dir? ==> now[k'].Dir? && now[k'].entries.Keys == b[k].entries.Keys)
  {
    var k' := q + k[|p|..];
    assert Under(q, k') && p + k'[|q|..] == k;
    RenamedAt(b, p, q, now, k');
    RenamedAt(b, p, q, now, k);
    Apart(p, q, k);
    hide IsRenamed;
  }

  lemma MovedLists(b: Bucket, p: Path, q: Path, now: Bucket, k: Path, n: Name)
    requires WellFormed(b) && p in b && p != [] && q != [] && !Under(p, q) && !Under(q, p) && IsRenamed(b, p, q, now)
    requires k in b && Under(p, k) && b[k].Dir? && n in b[k].entries
    ensures var k' := q + k[|p|..];
            k' in now && now[k'].Dir? && n in now[k'].entries && k' + [n] in now && OwnMode(now, k', n)
  {
    hide IsRenamed;
    Lists(b, k);
    assert k + [n] in b && Under(p, k + [n]);
    hide WellFormed;
    MovedIs(b, p, q, now, k);
    MovedIs(b, p, q, now, k + [n]);
    var k' := q + k[|p|..];
    assert q + (k + [n])[|p|..] == k' + [n];
    assert Under(q, k') && p + k'[|q|..] == k;
    RenamedAt(b, p, q, now, k');
  }

  lemma NewEntry(b: Bucket, p: Path, q: Path, now: Bucket)
    requires p in b && p != [] && q != [] && !Under(p, q) && !Under(q, p) && IsRenamed(b, p, q, now)
    requires Parent(q) in b && b[Parent(q)].Dir?
    ensures var up := Parent(q);
            up in now && now[up].Dir? && Base(q) in now[up].entries && up + [Base(q)] == q && q in now && OwnMode(now, up, Base(q))
  {
    hide IsRenamed;
    Splits(p);
    Splits(q);
    MovedIs(b, p, q, now, p);
    assert q + p[|p|..] == q;
    Apart(p, q, q);
    RenamedAt(b, p, q, now, Parent(q));
    RenamedAt(b, p, q, now, q);
    assert p != q && (Parent(p) == Parent(q) ==> Base(p) != Base(q));
  }

  lemma ElsewhereIs(b: Bucket, p: Path, q: Path, now: Bucket, k: Path)
    requires p in b && p != [] && q != [] && !Under(p, q) && !Under(q, p) && IsRenamed(b, p, q, now)
    requires k in b && !Under(p, k) && !Under(q, k) && (k == Parent(q) ==> b[k].Dir?)
    ensures k in now && now[k].mode == b[k].mode && (b[k].Leaf? ==> now[k] == b[k]) && (b[k].Dir? ==> now[k].Dir?)
    ensures b[k].Dir? ==> forall n :: n in now[k].entries <==>
              if k == Parent(q) && n == Base(q) then true
              else if k == Parent(p) && n == Base(p) then false else n in b[k].entries
    ensures b[k].Dir? ==> forall n :: n in b[k].entries && n in now[k].entries && !(k == Parent(q) && n == Base(q)) ==>
              now[k].entries[n] == b[k].entries[n]
  {
    Splits(p);
    Splits(q);
    RenamedAt(b, p, q, now, k);
    hide IsRenamed;
  }

  /** What a removal does, object by object: the subtree goes, and of the rest only the one listing changes, by the
      one name. */
  lemma RemoveIs(b: Bucket, p: Path, now: Bucket)
    requires IsRemoved(b, p, now)
    ensures forall k :: Under(p, k) ==> k !in now
    ensures forall k :: k in now ==> k in b
    ensures forall k :: k in b && !Under(p, k) ==>
              k in now && now[k] == if p != [] && k == Parent(p) && b[k].Dir? then b[k].(entries := b[k].entries - {Base(p)}) else b[k]
  {
    forall k ensures Get(now, k) == Removed(b, p, k) {
    }
    hide IsRemoved;
    forall k | k in b && !Under(p, k) ensures Get(now, k).Some? {
      assert Get(now, k) == Removed(b, p, k);
    }
    forall k | k in now ensures Get(now, k) == Removed(b, p, k) {
    }
  }

  /** Remove does the same. */
  lemma RemoveRestores(b: Bucket, p: Path, now: Bucket)
    requires WellFormed(b) && p in b && p != [] && IsRemoved(b, p, now)
    ensures WellFormed(now)
  {
    hide ListsChildren;
    assert Get(now, []) == Removed(b, p, []);
    forall d | d in now ensures ListsChildren(now, d) {
      ListsAfterRemove(b, p, now, d);
    }
    forall k | k in now && k != [] ensures Parent(k) in now {
      assert Get(now, k) == Removed(b, p, k) && Get(now, Parent(k)) == Removed(b, p, Parent(k));
      assert k == Parent(k) + [Base(k)];
    }
  }

  lemma ListsAfterRemove(b: Bucket, p: Path, now: Bucket, d: Path)
    requires WellFormed(b) && p in b && p != [] && IsRemoved(b, p, now) && d in now
    ensures ListsChildren(now, d)
  {
    assert Get(now, d) == Removed(b, p, d);
    assert !Under(p, d) && d in b && ListsChildren(b, d);
    forall n ensures d + [n] in now <==> d + [n] in b && d + [n] != p {
      assert Get(now, d + [n]) == Removed(b, p, d + [n]);
      Outside(p, d, n);
    }
    hide WellFormed, IsRemoved;
    if b[d].Dir? {
      forall n ensures n in now[d].entries <==> d + [n] in now {
        Outside(p, d, n);
      }
    }
  }

  lemma WellFormedRemovable(b: Bucket, p: Path)
    requires WellFormed(b) && p in b
    ensures Removable(b, p)
  {
    SubtreeOk(b, p);
    if p != [] {
      hide TreeOk;
      ParentLists(b, p);
    }
  }

  /** The directory `d` lists `n` with the mode the object itself has, and one without a mode as a regular file of
      mode 0644, which is 33188. */
  predicate OwnMode(b: Bucket, d: Path, n: Name)
    requires d in b && b[d].Dir? && n in b[d].entries && d + [n] in b
  {
    b[d].entries[n] == if b[d + [n]].mode != "" then b[d + [n]].mode else "33188"
  }

  /** Every listing carries the modes its children have. */
  ghost predicate ModesAgree(b: Bucket) {
    forall d, n :: d in b && b[d].Dir? && n in b[d].entries && d + [n] in b ==> OwnMode(b, d, n)
  }

  /** Renaming back gives the bucket back, object for object and listing for listing. */
  lemma RenameBack(b: Bucket, p: Path, q: Path, now: Bucket, back: Bucket)
    requires WellFormed(b) && ModesAgree(b) && p in b && p != [] && NewTarget(b, p, q)
    requires IsRenamed(b, p, q, now) && q in now && IsRenamed(now, q, p, back)
    ensures back == b
  {
    hide WellFormed, ModesAgree, IsRenamed, GoodTarget, NewTarget;
    forall k ensures Get(back, k) == Get(b, k) {
      if Under(p, k) { BackInside(b, p, q, now, back, k); } else { BackOutside(b, p, q, now, back, k); }
    }
    assert forall k :: k in back ==> Get(back, k) == Get(b, k) && k in b && back[k] == b[k];
    assert forall k :: k in b ==> Get(back, k) == Get(b, k) && k in back;
  }

  lemma RenamedAt(b: Bucket, p: Path, q: Path, now: Bucket, k: Path)
    requires p in b && p != [] && q != [] && IsRenamed(b, p, q, now)
    ensures Get(now, k) == Renamed(b, p, q, k)
  {
  }

  lemma RefreshedAgrees(b: Bucket, k: Path)
    requires k in b && ModesAgree(b)
    ensures Refreshed(b, k) == b[k]
  {
    if b[k].Dir? {
      assert Refreshed(b, k).entries == b[k].entries;
    }
  }

  lemma BackInside(b: Bucket, p: Path, q: Path, now: Bucket, back: Bucket, k: Path)
    requires WellFormed(b) && ModesAgree(b) && p in b && p != [] && NewTarget(b, p, q)
    requires IsRenamed(b, p, q, now) && q in now && IsRenamed(now, q, p, back) && Under(p, k)
    ensures Get(back, k) == Get(b, k)
  {
    hide ListsChildren, Clean, ModesAgree, WellFormed, TreeOk, IsRenamed;
    RenamedAt(b, p, q, now, q + k[|p|..]);
    RenamedAt(now, q, p, back, k);
    RenamedAt(b, p, q, now, k);
    Apart(p, q, k);
    var mid := q + k[|p|..];
    Source(q, p, k);
    Source(p, q, mid);
    assert p + mid[|q|..] == k;
    assert Get(back, k) == Renamed(now, q, p, k) && Get(now, mid) == Renamed(b, p, q, mid);
    if k in b {
      RefreshedAgrees(b, k);
      assert now[mid] == b[k];
      if b[k].Dir? {
        forall n | n in b[k].entries && mid + [n] in now ensures ModeOf(now[mid + [n]]) == b[k].entries[n] {
          MidMode(b, p, q, now, k, n);
        }
        assert Refreshed(now, mid).entries == b[k].entries;
      }
    }
  }

  lemma MidMode(b: Bucket, p: Path, q: Path, now: Bucket, k: Path, n: Name)
    requires ModesAgree(b) && p in b && p != [] && q != [] && IsRenamed(b, p, q, now) && Under(p, k)
    requires forall x :: Under(q, x) ==> x !in b
    requires k in b && b[k].Dir? && n in b[k].entries && (q + k[|p|..]) + [n] in now
    ensures ModeOf(now[(q + k[|p|..]) + [n]]) == b[k].entries[n]
  {
    var m := (q + k[|p|..]) + [n];
    assert Under(q, m) && p + m[|q|..] == k + [n];
    assert Get(now, m) == Renamed(b, p, q, m);
    RefreshedAgrees(b, k + [n]);
  }

  lemma BackOutside(b: Bucket, p: Path, q: Path, now: Bucket, back: Bucket, k: Path)
    requires WellFormed(b) && ModesAgree(b) && p in b && p != [] && NewTarget(b, p, q)
    requires IsRenamed(b, p, q, now) && q in now && IsRenamed(now, q, p, back) && !Under(p, k)
    ensures Get(back, k) == Get(b, k)
  {
    hide Clean, Refreshed, WellFormed, ModesAgree;
    assert Under(q, k) ==> k !in b;
    assert Get(back, k) == Renamed(now, q, p, k) && Get(now, k) == Renamed(b, p, q, k) && Get(now, q) == Renamed(b, p, q, q);
    assert p + q[|q|..] == p;
    RefreshedAgrees(b, p);
    assert now[q] == b[p];
    if k in b {
      assert !Under(q, k);
      ListedOnce(b, p, q, k);
    }
  }

  /** Listing `q` and dropping `p`, then the other way round. */
  lemma ListedOnce(b: Bucket, p: Path, q: Path, k: Path)
    requires WellFormed(b) && ModesAgree(b) && p in b && p != [] && NewTarget(b, p, q) && k in b
    ensures var o := Unlisting(Listing(b[k], k == Parent(q), Base(q), ModeOf(b[p])), k == Parent(p), Base(p));
            Unlisting(Listing(o, k == Parent(p), Base(p), ModeOf(b[p])), k == Parent(q), Base(q)) == b[k]
  {
    hide WellFormed, ListsChildren, TreeOk, Clean;
    ParentLists(b, p);
    Splits(p);
    Splits(q);
    if b[k].Dir? {
      assert k == Parent(q) ==> Base(q) !in b[k].entries by { NotListed(b, q); }
      ListedTwice(b[k].entries, k == Parent(p), Base(p), k == Parent(q), Base(q), ModeOf(b[p]));
    }
  }

  lemma NotListed(b: Bucket, q: Path)
    requires WellFormed(b) && q != [] && q !in b && Parent(q) in b && b[Parent(q)].Dir?
    ensures Base(q) !in b[Parent(q)].entries
  {
    Splits(q);
    Lists(b, Parent(q));
  }

  lemma ListedTwice(m: Entries, drop: bool, n: Name, add: bool, n': Name, mode: string)
    requires drop ==> n in m && m[n] == mode
    requires add ==> n' !in m
    ensures var m1 := if add then m[n' := mode] else m;
            var m2 := if drop then m1 - {n} else m1;
            var m3 := if drop then m2[n := mode] else m2;
            (if add then m3 - {n'} else m3) == m
  {
  }

  // ----------------------------------------------------------- operations on sound buckets

  /** `Rename` on a bucket where everything is listed in its parent exactly if it exists: the subtree is
      re-keyed and that is so again. */
  method Rename(s: Store, p: Path, q: Path) returns (r: Status)
    requires WellFormed(s.objects) && p != [] && q != []
    requires p in s.objects && Parent(q) in s.objects ==> GoodTarget(s.objects, p, q)
    modifies s
    ensures r == if p !in old(s.objects) then NotExist else if Parent(q) !in old(s.objects) then NoParent else Done
    ensures WellFormed(s.objects) <==> r != Done || Covered(old(s.objects), p, q)
    ensures if r == Done then IsRenamed(old(s.objects), p, q, s.objects) else s.objects == old(s.objects)
  {
    hide WellFormed, GoodTarget, Movable, IsRenamed, Covered;
    ghost var b := s.objects;
    if p in b && Parent(q) in b {
      WellFormedMovable(b, p, q);
    }
    r := s.Rename(p, q);
    if r == Done {
      RenameExactly(b, p, q, s.objects);
    }
  }

  /** The same for `Remove`. */
  method Remove(s: Store, p: Path) returns (r: Status)
    requires WellFormed(s.objects) && p != []
    modifies s
    ensures r == if p in old(s.objects) then Done else NotExist
    ensures WellFormed(s.objects)
    ensures if r == Done then IsRemoved(old(s.objects), p, s.objects) else s.objects == old(s.objects)
  {
    hide WellFormed, Removable, IsRemoved;
    ghost var b := s.objects;
    if p in b {
      WellFormedRemovable(b, p);
    }
    r := s.Remove(p);
    if r == Done {
      RemoveRestores(b, p, s.objects);
    }
  }

  /** Nothing is left at the old name, nor anything above it moved. */
  lemma OldIsFree(b: Bucket, p: Path, q: Path, now: Bucket, k: Path)
    requires p in b && p != [] && q != [] && !Under(p, q) && !Under(q, p) && IsRenamed(b, p, q, now) && Under(p, k)
    ensures k !in now
  {
    assert Get(now, k) == Renamed(b, p, q, k);
    if Under(q, k) { Prefixes(p, q, k); }
  }

  lemma OldParentStays(b: Bucket, p: Path, q: Path, now: Bucket)
    requires p in b && p != [] && IsDir(b, Parent(p)) && q != [] && !Under(q, p) && IsRenamed(b, p, q, now)
    ensures Parent(p) in now && now[Parent(p)].Dir?
  {
    var up := Parent(p);
    assert !Under(q, up) && !Under(p, up);
    assert Get(now, up) == Renamed(b, p, q, up);
  }

  lemma NewIsThere(b: Bucket, p: Path, q: Path, now: Bucket)
    requires p in b && p != [] && q != [] && !Under(p, q) && IsRenamed(b, p, q, now)
    ensures q in now
  {
    assert Get(now, q) == Renamed(b, p, q, q);
    assert p + q[|q|..] == p;
  }

  lemma ListedIsClean(b: Bucket, d: Path, n: Name)
    requires d in b && ListsChildren(b, d) && b[d].Dir?
    ensures Clean(b[d].entries) && (n in b[d].entries ==> Word(n))
  {
  }

  /** What was moved to a new name can be moved back. */
  lemma BackIsGood(b: Bucket, p: Path, q: Path, now: Bucket)
    requires WellFormed(b) && p in b && p != [] && NewTarget(b, p, q) && IsRenamed(b, p, q, now) && WellFormed(now)
    ensures q in now && NewTarget(now, q, p)
  {
    ParentLists(b, p);
    NewIsThere(b, p, q, now);
    assert !Under(q, p);
    var up := Parent(p);
    Lists(b, up);
    ListedIsClean(b, up, Base(p));
    hide WellFormed, ListsChildren, Clean, Word;
    OldParentStays(b, p, q, now);
    Lists(now, up);
    ListedIsClean(now, up, Base(p));
    hide IsRenamed, Renamed;
    forall k | k in now ensures !Under(p, k) {
      if Under(p, k) { OldIsFree(b, p, q, now, k); }
    }
  }

  /** There and back again leaves every object and every listing as it was. */
  method RenameAndBack(s: Store, p: Path, q: Path)
    requires WellFormed(s.objects) && ModesAgree(s.objects) && p in s.objects && p != []
    requires NewTarget(s.objects, p, q)
    modifies s
    ensures s.objects == old(s.objects)
  {
    hide Covered;
    ghost var b := s.objects;
    NewIsGood(b, p, q);
    hide WellFormed, ModesAgree, IsRenamed, GoodTarget, NewTarget;
    var r := Rename(s, p, q);
    ghost var now := s.objects;
    BackIsGood(b, p, q, now);
    NewIsGood(now, q, p);
    r := Rename(s, q, p);
    RenameBack(b, p, q, now, s.objects);
  }

  lemma NewIsGood(b: Bucket, p: Path, q: Path)
    requires NewTarget(b, p, q)
    ensures q != [] && Parent(q) in b && GoodTarget(b, p, q) && Covered(b, p, q)
  {
  }
}
