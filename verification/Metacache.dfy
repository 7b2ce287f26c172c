/** The metadata cache over another file system.  What that file system does is a parameter of each
    operation: the tree after it, within what the operation may change. */
module Metacache {
  import opened Paths
  import opened MetaKeys
  import opened MetaAnswers

  /** A new entry: that a path is missing is kept half as long, and never refreshed. */
  function Fresh(answer: Answer, now: int, ttl: nat): Entry {
    if answer == Missing then Entry(answer, None, now + ttl / 2)
    else Entry(answer, Some(now + ttl / 2), now + ttl)
  }

  /** The entry of a key lasts for another time to live, and is refreshed halfway, whatever it says. */
  function Extended(c: Cache, key: string, now: int, ttl: nat): Cache {
    if key in c then c[key := c[key].(renews := Some(now + ttl / 2), expires := now + ttl)] else c
  }

  // -------------------------------------------------------------------------------- the cache

  class FS {
    var cache: Cache
    var ttl: nat
    ghost var under: Tree           // the file system that is wrapped
    ghost var writing: set<Handle>  // handles written to and not closed

    ghost function Dirty(): set<Path>
      reads this
    {
      set h | h in writing :: h.name
    }

    ghost predicate Valid()
      reads this
    {
      Coherent(cache, under, Dirty())
    }

    constructor (t: nat, ghost tree: Tree)
      ensures Valid() && cache == map[] && under == tree && writing == {} && ttl == t
    {
      cache, ttl, under, writing := map[], t, tree, {};
    }

    method Invalidate(p: Path)
      requires Clean(p)
      modifies this`cache
      ensures Kept(old(cache), cache, OfPath(p))
      ensures cache == old(cache) - {Text(p), Text(p) + ":lstat", Text(p) + ":readdir"}
    {
      NameOf(p);
      DropsPath(cache, p);
      var path := Normalize(Text(p));
      assert path + "" == path;
      ThreeKeys(cache, path);
      cache := cache - {path};
      cache := cache - {path + ":lstat"};
      cache := cache - {path + ":readdir"};
    }

    method InvalidateParent(p: Path)
      requires Clean(p)
      modifies this`cache
      ensures Kept(old(cache), cache, OfParent(p))
      ensures cache == old(cache) - {Text(if p == [] then [] else p[..|p| - 1]) + ":readdir"}
    {
      NameOf(p);
      DirIsUp(p);
      DropsList(cache, p);
      var path := Normalize(Text(p));
      var parent := DirName(path);
      if parent == "." || parent == "" {
        parent := ".";
      }
      assert parent == Text(Up(p)) by { NameOf(Up(p)); }
      cache := cache - {parent + ":readdir"};
    }

    /** Everything below goes as well, but not if the directory is the root. */
    method InvalidateDir(p: Path)
      requires Clean(p)
      modifies this`cache
      ensures Kept(old(cache), cache, if p == [] then OfPath([]) else Below(p))
      ensures p == [] ==> cache == old(cache) - {".", ".:lstat", ".:readdir"}
      ensures p != [] ==> forall key :: key in cache <==>
        key in old(cache) && key !in {Text(p), Text(p) + ":lstat", Text(p) + ":readdir"} && !(Text(p) + "/" <= key)
    {
      NameOf(p);
      DropsPath(cache, p);
      ghost var c := cache;
      var path := Normalize(Text(p));
      assert path + "" == path;
      ThreeKeys(cache, path);
      cache := cache - {path};
      cache := cache - {path + ":lstat"};
      cache := cache - {path + ":readdir"};
      var prefix := path + "/";
      if path == "." || path == "" {
        prefix := "";
      }
      ghost var mid := cache;
      DropPrefix(prefix);
      hide Kept, Clean, KeyOf, Text;
      if p != [] {
        assert prefix == Text(p) + "/";
        DropsBelow(mid, cache, p);
        KeptTwice(c, mid, cache, OfPath(p), iset x: (Path, Kind) | Inside(p, x.0));
        assert OfPath(p) + (iset x: (Path, Kind) | Inside(p, x.0)) == Below(p);
      } else {
        assert cache == mid;
        RootText();
        assert path + ":lstat" == ".:lstat" && path + ":readdir" == ".:readdir";
      }
    }

    method DropPrefix(prefix: string)
      modifies this`cache
      ensures cache == if prefix == "" then old(cache) else map key | key in old(cache) && !(prefix <= key) :: old(cache)[key]
    {
      ghost var mid := cache;
      var left := cache.Keys;
      while left != {}
        invariant left <= mid.Keys
        invariant cache == map key | key in mid && (key in left || prefix == "" || !(prefix <= key)) :: mid[key]
        decreases |left|
      {
        var key :| key in left;
        left := left - {key};
        if prefix != "" && prefix <= key {
          cache := cache - {key};
        }
      }
    }

    /** The entry of a key, unless it has expired; then it is dropped. */
    method GetCached(key: string, now: int) returns (entry: Option<Entry>, needsRefresh: bool)
      modifies this`cache
      ensures key in old(cache) && now <= old(cache)[key].expires ==> entry == Some(old(cache)[key]) && cache == old(cache)
      ensures !(key in old(cache) && now <= old(cache)[key].expires) ==> entry == None && cache == old(cache) - {key}
      ensures needsRefresh <==> entry.Some? && entry.value.renews.Some? && entry.value.renews.value < now
    {
      if key !in cache {
        assert cache - {key} == cache;
        return None, false;
      }
      var e := cache[key];
      if now > e.expires {
        cache := cache - {key};
        return None, false;
      }
      return Some(e), e.renews.Some? && now > e.renews.value;
    }

    method SetCached(key: string, answer: Answer, now: int)
      modifies this`cache
      ensures cache == old(cache)[key := Fresh(answer, now, ttl)]
    {
      if answer == Missing {
        cache := cache[key := Entry(answer, None, now + ttl / 2)];
      } else {
        cache := cache[key := Entry(answer, Some(now + ttl / 2), now + ttl)];
      }
    }

    method ExtendExpiry(key: string, now: int)
      modifies this`cache
      ensures cache == Extended(old(cache), key, now, ttl)
    {
      if key !in cache {
        return;
      }
      cache := cache[key := cache[key].(renews := Some(now + ttl / 2), expires := now + ttl)];
    }

    // ------------------------------------------------------------------------- fetching

    /** `Stat`, `Lstat` and `ReadDir`: the entry, or what the file system answers, which is kept if it is
        no other error; a missing root is not kept, where the code sees that it is the root. */
    method Fetch(p: Path, k: Kind, now: int, answer: Answer) returns (r: Answer)
      requires Clean(p) && answer == Answers(under, p, k)
      modifies this`cache
      ensures old(Valid()) ==> Valid()
      ensures old(Valid()) && (k == List || forall h :: h in writing ==> h.name != p) ==> Same(r, Answers(under, p, k))
      ensures var e, key := old(cache), KeyOf(p, k);
              if key in e && now <= e[key].expires then r == e[key].answer && cache == e
              else r == answer && cache == match answer
                case Failed => e - {key}
                case Missing => if p == [] && k != Lstat then e - {key} else e[key := Entry(Missing, None, now + ttl / 2)]
                case _ => e[key := Entry(answer, Some(now + ttl / 2), now + ttl)]
    {
      hide Answers;
      NameOf(p);
      var name := Normalize(Text(p));
      var key := name + Suffix(k);
      assert key == KeyOf(p, k);
      ghost var e := cache;
      if Valid() { FewerAreCoherent(cache, under, Dirty(), KeyOf(p, k)); }
      var entry, needsRefresh := GetCached(key, now);
      if entry.Some? {
        return entry.value.answer;
      }
      r := answer;
      var isRoot := if k == List then name == "." else key == ".";
      RootKey(p, k);
      if answer == Failed || (answer == Missing && isRoot) {
        return;
      }
      ghost var c := cache;
      SetCached(key, answer, now);
      assert (e - {key})[key := Fresh(answer, now, ttl)] == e[key := Fresh(answer, now, ttl)];
      if old(Valid()) { OneMoreIsCoherent(c, under, Dirty(), p, k, cache[key]); }
    }

    /** A refresh, when nothing comes between its question and its answer. */
    method Refresh(p: Path, k: Kind, now: int, answer: Answer)
      requires Clean(p) && answer == Answers(under, p, k)
      modifies this`cache
      ensures old(Valid()) ==> Valid()
      ensures var e, key := old(cache), KeyOf(p, k);
              cache == if answer != Missing && answer != Failed then e[key := Entry(answer, Some(now + ttl / 2), now + ttl)]
                       else if key in e then e[key := Entry(e[key].answer, Some(now + ttl / 2), now + ttl)] else e
    {
      hide Answers;
      NameOf(p);
      var key := Normalize(Text(p)) + Suffix(k);
      assert key == KeyOf(p, k);
      if answer == Missing || answer == Failed {
        ghost var c := cache;
        ExtendExpiry(key, now);
        if old(Valid()) { SameAnswersAreCoherent(c, cache, under, Dirty()); }
        return;
      }
      ghost var c := cache;
      SetCached(key, answer, now);
      if old(Valid()) { OneMoreIsCoherent(c, under, Dirty(), p, k, cache[key]); }
    }

    // ------------------------------------------------------------------------- writing

    /** `Create`, `Symlink`, `Remove`, and `OpenFile` with create or truncate: the node at `p` is another
        one after it, or none. */
    method Replace(p: Path, ok: bool, ghost now: Tree)
      requires Clean(p) && Valid() && if ok then OnlyAt(under, now, p) else now == under
      modifies this`cache, this`under
      ensures under == now && if ok then Kept(old(cache), cache, OfPath(p) + OfParent(p)) else cache == old(cache)
      ensures ok ==> cache == old(cache) - {Text(p), Text(p) + ":lstat", Text(p) + ":readdir"} - {Text(Up(p)) + ":readdir"}
      ensures Valid() <==> LinksClear(old(cache), old(under), now, Dirty(), OfPath(p) + OfParent(p), p)
      ensures LinkFree(old(under)) ==> Valid()
    {
      hide Coherent, Kept, OnlyAt, UpToDate, LinksClear;
      ghost var gone := OfPath(p) + OfParent(p);
      ghost var c := cache;
      if !ok {
        NothingShown(cache, under, Dirty(), gone, p);
        return;
      }
      under := now;
      Invalidate(p);
      ghost var mid := cache;
      InvalidateParent(p);
      KeptTwice(c, mid, cache, OfPath(p), OfParent(p));
      KeptExactly(c, old(under), cache, now, Dirty(), gone);
      ReplacedExactly(c, old(under), now, Dirty(), p);
      NoLinks(c, old(under), now, Dirty(), gone, p);
    }

    /** `Truncate`, `Chmod`, `Chown` and `Chtimes`: the info at `p` is another one after it. */
    method Alter(p: Path, ok: bool, ghost now: Tree)
      requires Clean(p) && Valid()
      requires if ok then OnlyAt(under, now, p) && p in under && p in now && TypeOf(under[p]) == TypeOf(now[p]) else now == under
      modifies this`cache, this`under
      ensures under == now && if ok then Kept(old(cache), cache, OfPath(p)) else cache == old(cache)
      ensures ok ==> cache == old(cache) - {Text(p), Text(p) + ":lstat", Text(p) + ":readdir"}
      ensures Valid() <==> InfoClear(old(cache), old(under), now, Dirty(), OfPath(p), p)
      ensures LinkFree(old(under)) ==> Valid()
    {
      hide Coherent, Kept, OnlyAt, UpToDate, InfoClear;
      ghost var c := cache;
      if !ok {
        NothingShown(cache, under, Dirty(), OfPath(p), p);
        return;
      }
      under := now;
      Invalidate(p);
      KeptExactly(c, old(under), cache, now, Dirty(), OfPath(p));
      AlteredExactly(c, old(under), now, Dirty(), p);
      NoLinks(c, old(under), now, Dirty(), OfPath(p), p);
    }

    /** `Mkdir` drops the parent's listing only: coherent exactly if nothing was cached of the name. */
    method Mkdir(p: Path, ok: bool, ghost now: Tree)
      requires Clean(p) && Valid()
      requires if ok then OnlyAt(under, now, p) && p != [] && p !in under && p in now && now[p].Dir? else now == under
      modifies this`cache, this`under
      ensures under == now && if ok then Kept(old(cache), cache, OfParent(p)) else cache == old(cache)
      ensures ok ==> cache == old(cache) - {Text(Up(p)) + ":readdir"}
      ensures ok ==>
        (Valid() <==> LinksClear(old(cache), old(under), now, Dirty(), OfParent(p), p)
                      && forall k :: Holds(old(cache), p, k) ==> !Counts(Dirty(), p, k))
      ensures ok && LinkFree(old(under)) ==> (Valid() <==> forall k :: Holds(old(cache), p, k) ==> !Counts(Dirty(), p, k))
    {
      hide Coherent, Kept, OnlyAt, UpToDate, LinksClear;
      ghost var c := cache;
      if !ok {
        return;
      }
      under := now;
      InvalidateParent(p);
      KeptExactly(c, old(under), cache, now, Dirty(), OfParent(p));
      MadeExactly(c, old(under), now, Dirty(), p);
      NoLinks(c, old(under), now, Dirty(), OfParent(p), p);
    }

    /** `MkdirAll`: every prefix is dropped, with the listing it is in. */
    method MkdirAll(p: Path, ok: bool, ghost now: Tree)
      requires Clean(p) && Valid() && if ok then MadeAll(under, now, p) else now == under
      modifies this`cache, this`under
      ensures under == now && if ok then Kept(old(cache), cache, OfPrefixes(p)) else cache == old(cache)
      ensures ok ==> forall q, k :: Clean(q) && KeyOf(q, k) in old(cache) ==>
        (KeyOf(q, k) in cache <==> !(q <= p) || (q == [] && (k != List || p == [])))
      ensures ok ==> (Valid() <==> LinksClearAll(old(cache), old(under), Dirty(), OfPrefixes(p), p))
      ensures LinkFree(old(under)) ==> Valid()
    {
      hide Coherent, Kept, MadeAll, UpToDate, LinksClearAll;
      ghost var c := cache;
      if !ok {
        return;
      }
      under := now;
      InvalidatePrefixes(p);
      PrefixesGone(c, cache, p);
      KeptExactly(c, old(under), cache, now, Dirty(), OfPrefixes(p));
      MadeAllExactly(c, old(under), now, Dirty(), p);
      NoLinksAll(c, old(under), Dirty(), OfPrefixes(p), p);
    }

    /** One turn of the loop. */
    method InvalidateWithParent(p: Path)
      requires Clean(p)
      modifies this`cache
      ensures Kept(old(cache), cache, OfPath(p) + OfParent(p))
    {
      ghost var c := cache;
      Invalidate(p);
      ghost var mid := cache;
      InvalidateParent(p);
      hide Kept, Text;
      KeptTwice(c, mid, cache, OfPath(p), OfParent(p));
    }

    method InvalidatePrefixes(p: Path)
      requires Clean(p)
      modifies this`cache
      ensures Kept(old(cache), cache, OfPrefixes(p))
    {
      hide Kept;
      ghost var c := cache;
      var q := p;
      ghost var gone: Keys := iset{};
      KeptAll(c);
      while q != []
        invariant Clean(q) && Under(q, p) && Kept(c, cache, gone)
        invariant gone == iset x: (Path, Kind) | Under(x.0, p) && ((!Under(x.0, q)) || (x.1 == List && x.0 == q && q != p))
        decreases |q|
      {
        ghost var c0 := cache;
        InvalidateWithParent(q);
        KeptTwice(c, c0, cache, gone, OfPath(q) + OfParent(q));
        DirIsUp(q);
        gone := gone + (OfPath(q) + OfParent(q));
        q := Parent(q);
      }
      assert gone == OfPrefixes(p);
    }

    /** `RemoveAll`: the directory, what is below it and its parent's listing are dropped; of the root,
        its own entries only. */
    method RemoveAll(p: Path, ok: bool, ghost now: Tree)
      requires Clean(p) && Valid() && if ok then Removed(under, now, p) else now == under
      modifies this`cache, this`under
      ensures under == now && if ok then Kept(old(cache), cache, if p == [] then OfPath([]) else Below(p) + OfParent(p)) else cache == old(cache)
      ensures ok && p != [] ==> (Valid() <==> LinksClearBelow(old(cache), old(under), Dirty(), Below(p) + OfParent(p), p))
      ensures ok && p == [] ==> (Valid() <==> NothingBelowRoot(old(cache), old(under), Dirty()))
      ensures LinkFree(old(under)) && (!ok || p != [] || NothingBelowRoot(old(cache), old(under), Dirty())) ==> Valid()
    {
      hide Coherent, Kept, Removed, UpToDate, LinksClearBelow, NothingBelowRoot;
      ghost var c := cache;
      if !ok {
        return;
      }
      under := now;
      InvalidateDir(p);
      ghost var mid := cache;
      InvalidateParent(p);
      ghost var gone := if p == [] then OfPath([]) else Below(p);
      KeptTwice(c, mid, cache, gone, OfParent(p));
      if p == [] {
        assert gone + OfParent(p) == OfPath([]);
        KeptExactly(c, old(under), cache, now, Dirty(), OfPath([]));
        RemovedRootExactly(c, old(under), now, Dirty());
      } else {
        KeptExactly(c, old(under), cache, now, Dirty(), gone + OfParent(p));
        RemovedAllExactly(c, old(under), now, Dirty(), p);
        NoLinksBelow(c, old(under), Dirty(), gone + OfParent(p), p);
      }
    }

    /** `Rename` drops both names and both listings they are in: coherent exactly if nothing inside a
        directory is cached, at its old place or its new one, and no answer for a link elsewhere to what
        changes. */
    method Rename(o: Path, n: Path, ok: bool, ghost now: Tree)
      requires Clean(o) && Clean(n) && Valid() && if ok then Renamed(under, now, o, n) else now == under
      modifies this`cache, this`under
      ensures under == now && if ok then Kept(old(cache), cache, OfBoth(o, n)) else cache == old(cache)
      ensures ok ==> forall q, k :: Clean(q) && KeyOf(q, k) in old(cache) ==>
        (KeyOf(q, k) in cache <==> q != o && q != n && (k != List || (q != Up(o) && q != Up(n))))
      ensures ok ==> o in old(under) && o != [] && n != []
      ensures ok ==>
        (Valid() <==> NothingInside(old(cache), old(under), Dirty(), o, n) && LinksClearRename(old(cache), old(under), Dirty(), o, n))
      ensures ok && LinkFree(old(under)) ==> (Valid() <==> NothingInside(old(cache), old(under), Dirty(), o, n))
    {
      hide Coherent, Kept, UpToDate, NothingInside, LinksClearRename, OfBoth;
      ghost var c := cache;
      if !ok {
        return;
      }
      under := now;
      InvalidateBoth(o, n);
      BothGone(c, cache, o, n);
      KeptExactly(c, old(under), cache, now, Dirty(), OfBoth(o, n));
      RenamedExactly(c, old(under), now, Dirty(), o, n);
      NoLinksRename(c, old(under), Dirty(), o, n);
    }

    method InvalidateBoth(o: Path, n: Path)
      requires Clean(o) && Clean(n)
      modifies this`cache
      ensures Kept(old(cache), cache, OfBoth(o, n))
    {
      hide Kept;
      ghost var c := cache;
      Invalidate(o);
      ghost var c1 := cache;
      Invalidate(n);
      KeptTwice(c, c1, cache, OfPath(o), OfPath(n));
      ghost var c2 := cache;
      InvalidateParent(o);
      KeptTwice(c, c2, cache, OfPath(o) + OfPath(n), OfParent(o));
      ghost var c3 := cache;
      InvalidateParent(n);
      KeptTwice(c, c3, cache, OfPath(o) + OfPath(n) + OfParent(o), OfParent(n));
    }
  }

  // ------------------------------------------------------------------------------------ steps

  lemma NoLinks(c: Cache, t: Tree, t': Tree, dirty: set<Path>, gone: Keys, p: Path)
    ensures LinkFree(t) ==> LinksClear(c, t, t', dirty, gone, p) && InfoClear(c, t, t', dirty, gone, p)
  {
  }

  lemma NoLinksAll(c: Cache, t: Tree, dirty: set<Path>, gone: Keys, p: Path)
    ensures LinkFree(t) ==> LinksClearAll(c, t, dirty, gone, p)
  {
  }

  lemma NoLinksBelow(c: Cache, t: Tree, dirty: set<Path>, gone: Keys, p: Path)
    requires p != []
    ensures LinkFree(t) ==> LinksClearBelow(c, t, dirty, gone, p)
  {
  }

  lemma NoLinksRename(c: Cache, t: Tree, dirty: set<Path>, o: Path, n: Path)
    requires o in t && o != [] && n != []
    ensures LinkFree(t) ==> LinksClearRename(c, t, dirty, o, n)
  {
  }

  lemma NothingShown(c: Cache, t: Tree, dirty: set<Path>, gone: Keys, p: Path)
    ensures LinksClear(c, t, t, dirty, gone, p) && InfoClear(c, t, t, dirty, gone, p)
  {
  }

  lemma ThreeKeys(c: Cache, path: string)
    ensures c - {path} - {path + ":lstat"} - {path + ":readdir"} == c - {path, path + ":lstat", path + ":readdir"}
  {
  }

  lemma PrefixesGone(c: Cache, c': Cache, p: Path)
    requires Kept(c, c', OfPrefixes(p))
    ensures forall q, k :: Clean(q) && KeyOf(q, k) in c ==>
      (KeyOf(q, k) in c' <==> !(q <= p) || (q == [] && (k != List || p == [])))
  {
    hide KeyOf, Clean;
  }

  lemma BothGone(c: Cache, c': Cache, o: Path, n: Path)
    requires Kept(c, c', OfBoth(o, n))
    ensures forall q, k :: Clean(q) && KeyOf(q, k) in c ==>
      (KeyOf(q, k) in c' <==> q != o && q != n && (k != List || (q != Up(o) && q != Up(n))))
  {
    hide KeyOf, Clean;
  }

  lemma FewerAreCoherent(c: Cache, t: Tree, dirty: set<Path>, key: string)
    requires Coherent(c, t, dirty)
    ensures Coherent(c - {key}, t, dirty)
  {
    hide Answers, KeyOf, Clean;
  }

  lemma SameAnswersAreCoherent(c: Cache, c': Cache, t: Tree, dirty: set<Path>)
    requires Coherent(c, t, dirty) && c'.Keys == c.Keys && forall key :: key in c ==> c'[key].answer == c[key].answer
    ensures Coherent(c', t, dirty)
  {
    hide Answers, KeyOf, Clean;
  }

  lemma OneMoreIsCoherent(c: Cache, t: Tree, dirty: set<Path>, p: Path, k: Kind, e: Entry)
    requires Coherent(c, t, dirty) && Clean(p) && Same(e.answer, Answers(t, p, k))
    ensures Coherent(c[KeyOf(p, k) := e], t, dirty)
  {
    hide Answers, KeyOf, Clean;
    var c' := c[KeyOf(p, k) := e];
    forall q, j | Holds(c', q, j) && Counts(dirty, q, j) ensures Same(c'[KeyOf(q, j)].answer, Answers(t, q, j)) {
      if KeyOf(q, j) == KeyOf(p, k) {
        OneKey(q, j, p, k);
      } else {
        assert Holds(c, q, j);
      }
    }
  }

  lemma RootKey(p: Path, k: Kind)
    requires Clean(p)
    ensures KeyOf(p, k) == "." <==> p == [] && k == Stat
    ensures Text(p) == "." <==> p == []
  {
    NameOf(p);
    assert KeyOf([], Stat) == ".";
    assert Clean([]);
    if KeyOf(p, k) == "." {
      OneKey(p, k, [], Stat);
    }
  }

  // ---------------------------------------------------------------------------------- handles

  /** An open file. */
  class Handle {
    const fsys: FS
    const name: Path
    var written: bool

    ghost predicate Valid()
      reads this, fsys
    {
      Clean(name) && (written <==> this in fsys.writing) && fsys.Valid()
    }

    constructor (f: FS, n: Path)
      requires Clean(n) && f.Valid()
      ensures fsys == f && name == n && !written
      ensures f.Valid() && Valid()
    {
      fsys, name, written := f, n, false;
    }

    /** `Write` and `WriteAt` of `n` bytes: from then on until `Close` the info of the name does not count. */
    method Write(n: nat, ghost now: Tree)
      requires Valid()
      requires now == fsys.under || (n > 0 && OnlyAt(fsys.under, now, name) && BothFiles(fsys.under, now, name))
      modifies this, fsys`under, fsys`writing
      ensures fsys.under == now && written == (old(written) || n > 0)
      ensures fsys.writing == if n > 0 then old(fsys.writing) + {this} else old(fsys.writing)
      ensures Valid() <==> InfoClear(fsys.cache, old(fsys.under), now, fsys.Dirty(), iset{}, name)
      ensures LinkFree(old(fsys.under)) ==> Valid()
    {
      hide Coherent, Kept, OnlyAt, UpToDate, InfoClear;
      ghost var t, dirty := fsys.under, fsys.Dirty();
      fsys.under := now;
      if n > 0 {
        written := true;
        fsys.writing := fsys.writing + {this};
      }
      WiderIsCoherent(fsys.cache, t, dirty, fsys.Dirty());
      KeptAll(fsys.cache);
      KeptExactly(fsys.cache, t, fsys.cache, now, fsys.Dirty(), iset{});
      if now == t {
        NothingShown(fsys.cache, t, fsys.Dirty(), iset{}, name);
        NothingChanged(fsys.cache, t, fsys.Dirty());
      } else {
        assert this in fsys.writing && name in fsys.Dirty();
        WrittenExactly(fsys.cache, t, now, fsys.Dirty(), name);
      }
      NoLinks(fsys.cache, t, now, fsys.Dirty(), iset{}, name);
    }

    /** `Close`, which may still change the file: what was cached of the name goes, and its info counts
        again. */
    method Close(ghost now: Tree)
      requires Valid()
      requires now == fsys.under || (written && OnlyAt(fsys.under, now, name))
      modifies this, fsys`cache, fsys`under, fsys`writing
      ensures fsys.under == now && !written && fsys.writing == old(fsys.writing) - {this}
      ensures fsys.cache == if !old(written) then old(fsys.cache) else
        old(fsys.cache) - {Text(name), Text(name) + ":lstat", Text(name) + ":readdir"} - {Text(Up(name)) + ":readdir"}
      ensures Valid() <==> LinksClear(old(fsys.cache), old(fsys.under), now, fsys.Dirty(), OfPath(name) + OfParent(name), name)
      ensures LinkFree(old(fsys.under)) ==> Valid()
    {
      hide Coherent, Kept, OnlyAt, UpToDate, LinksClear;
      ghost var t, c, dirty, gone := fsys.under, fsys.cache, fsys.Dirty(), OfPath(name) + OfParent(name);
      fsys.under := now;
      if written {
        fsys.Invalidate(name);
        ghost var mid := fsys.cache;
        fsys.InvalidateParent(name);
        KeptTwice(c, mid, fsys.cache, OfPath(name), OfParent(name));
        written := false;
        fsys.writing := fsys.writing - {this};
        OnlyAtSelf(t, name);
        Closed(c, fsys.cache, t, now, dirty, fsys.Dirty(), name);
        SameLinks(c, fsys.cache, t, now, fsys.Dirty(), gone, name);
      } else {
        assert fsys.writing == fsys.writing - {this};
        NothingShown(fsys.cache, t, fsys.Dirty(), gone, name);
      }
      NoLinks(fsys.cache, t, now, fsys.Dirty(), gone, name);
    }

    /** `Stat` of an open file keeps the info of the file under the name it was opened by: coherent exactly
        if a hit, or that name's info does not count, or is still this one. */
    method Stat(now: int, node: Node) returns (r: Answer)
      requires Valid()
      modifies fsys`cache
      ensures r.Found?
      ensures var e := old(fsys.cache); var key := KeyOf(name, Kind.Stat);
              var hit := key in e && now <= e[key].expires && e[key].answer.Found?;
              && (hit ==> r == e[key].answer && fsys.cache == e)
              && (!hit ==> r == Found(node))
              && (Valid() <==> hit || !Counts(fsys.Dirty(), name, Kind.Stat) || Same(Found(node), Answers(fsys.under, name, Kind.Stat)))
    {
      hide Answers, KeyOf;
      ghost var e := fsys.cache;
      NameOf(name);
      var key := Normalize(Text(name));
      StatKey(name);
      FewerAreCoherent(fsys.cache, fsys.under, fsys.Dirty(), key);
      var entry, needsRefresh := fsys.GetCached(key, now);
      if entry.Some? && entry.value.answer.Found? {
        return entry.value.answer;
      }
      r := Found(node);
      ghost var c := fsys.cache;
      fsys.SetCached(key, r, now);
      if Same(r, Answers(fsys.under, name, Kind.Stat)) {
        OneMoreIsCoherent(c, fsys.under, fsys.Dirty(), name, Kind.Stat, fsys.cache[key]);
      } else {
        StrangerIsCoherent(c, fsys.under, fsys.Dirty(), name, fsys.cache[key]);
      }
    }
  }

  predicate BothFiles(t: Tree, t': Tree, p: Path) { p in t && p in t' && t[p].File? && t'[p].File? }

  /** What is dropped was not asked about. */
  lemma SameLinks(c: Cache, c': Cache, t: Tree, t': Tree, dirty: set<Path>, gone: Keys, p: Path)
    requires Kept(c, c', gone)
    ensures LinksClear(c', t, t', dirty, gone, p) <==> LinksClear(c, t, t', dirty, gone, p)
  {
    hide KeyOf, Clean, Counts, SameAt, SameListing, SameEntry;
    forall q, k ensures LinkKept(c', t, dirty, gone, q, k) <==> LinkKept(c, t, dirty, gone, q, k) {
      assert forall l :: (l, k) !in gone ==> (Holds(c', l, k) <==> Holds(c, l, k));
    }
    hide LinkKept;
  }

  lemma NothingChanged(c: Cache, t: Tree, dirty: set<Path>)
    ensures UpToDate(c, t, t, dirty, iset{})
  {
  }

  lemma OnlyAtSelf(t: Tree, p: Path)
    ensures OnlyAt(t, t, p)
  {
  }

  lemma StatKey(p: Path)
    ensures KeyOf(p, Stat) == Text(p)
  {
  }

  lemma WiderIsCoherent(c: Cache, t: Tree, dirty: set<Path>, dirty': set<Path>)
    requires Coherent(c, t, dirty) && dirty <= dirty'
    ensures Coherent(c, t, dirty')
  {
    hide Answers, KeyOf, Clean, Same;
  }

  lemma Closed(c: Cache, c': Cache, t: Tree, t': Tree, dirty: set<Path>, dirty': set<Path>, p: Path)
    requires Coherent(c, t, dirty) && Kept(c, c', OfPath(p) + OfParent(p)) && dirty <= dirty' + {p}
    requires OnlyAt(t, t', p)
    ensures Coherent(c', t', dirty') <==> LinksClear(c', t, t', dirty', OfPath(p) + OfParent(p), p)
  {
    var gone := OfPath(p) + OfParent(p);
    ClosedBefore(c, c', t, dirty, dirty', p);
    hide Coherent, OnlyAt, UpToDate, LinksClear, KeyOf, Clean;
    assert Kept(c', c', gone);
    KeptExactly(c', t, c', t', dirty', gone);
    ReplacedExactly(c', t, t', dirty', p);
  }

  lemma ClosedBefore(c: Cache, c': Cache, t: Tree, dirty: set<Path>, dirty': set<Path>, p: Path)
    requires Coherent(c, t, dirty) && Kept(c, c', OfPath(p) + OfParent(p)) && dirty <= dirty' + {p}
    ensures Coherent(c', t, dirty')
  {
    hide Answers, KeyOf, Clean, Same;
    forall q, k | Holds(c', q, k) && Counts(dirty', q, k) ensures Same(c'[KeyOf(q, k)].answer, Answers(t, q, k)) {
      assert Holds(c, q, k) && q != p;
    }
  }

  /** Info that is not the name's. */
  lemma StrangerIsCoherent(c: Cache, t: Tree, dirty: set<Path>, p: Path, e: Entry)
    requires Coherent(c, t, dirty) && Clean(p) && !Same(e.answer, Answers(t, p, Stat))
    ensures Coherent(c[KeyOf(p, Stat) := e], t, dirty) <==> !Counts(dirty, p, Stat)
  {
    hide Answers, KeyOf, Clean, Same;
    var c' := c[KeyOf(p, Stat) := e];
    if !Counts(dirty, p, Stat) {
      forall q, j | Holds(c', q, j) && Counts(dirty, q, j) ensures Same(c'[KeyOf(q, j)].answer, Answers(t, q, j)) {
        if KeyOf(q, j) == KeyOf(p, Stat) {
          OneKey(q, j, p, Stat);
        }
        assert Holds(c, q, j);
      }
    } else {
      assert Holds(c', p, Stat);
    }
  }

  // -------------------------------------------------------------------------- stale answers

  /** A name that was missing when it was asked for is missing still after it was made a directory, until
      half the time to live has passed. */
  method MadeButMissing(n: Name, ttl: nat, later: int) returns (fsys: FS, r: Answer)
    requires CleanName(n) && 0 <= later <= ttl / 2
    ensures Answers(fsys.under, [n], Stat) == Found(Dir(0, 0, 2, 0)) && r == Missing
  {
    ghost var t: Tree := map[[] := Dir(0, 0, 2, 0)];
    fsys := new FS(ttl, t);
    var q := fsys.Fetch([n], Stat, 0, Missing);
    ghost var made := t[[n] := Dir(0, 0, 2, 0)];
    fsys.Mkdir([n], true, made);
    r := fsys.Fetch([n], Stat, later, Found(Dir(0, 0, 2, 0)));
  }

  /** `Stat` of a link to a file whose mode is changed afterwards still gives the old mode. */
  method StaleThroughLink(l: Name, f: Name, before: nat, after: nat, ttl: nat, later: int) returns (fsys: FS, r: Answer)
    requires CleanName(l) && CleanName(f) && l != f && before != after && 0 <= later <= ttl
    ensures Answers(fsys.under, [l], Stat) == Found(File(after, 0, 0, 0)) && r == Found(File(before, 0, 0, 0))
  {
    ghost var t: Tree := map[[] := Dir(0, 0, 2, 0), [l] := Link([f], 0, 0), [f] := File(before, 0, 0, 0)];
    fsys := new FS(ttl, t);
    var q := fsys.Fetch([l], Stat, 0, Found(File(before, 0, 0, 0)));
    fsys.Alter([f], true, t[[f] := File(after, 0, 0, 0)]);
    r := fsys.Fetch([l], Stat, later, Found(File(after, 0, 0, 0)));
  }
}
