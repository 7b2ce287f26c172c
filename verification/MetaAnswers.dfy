/** When a metadata cache is coherent: every entry, expired or not, is what the file system under it
    would answer now, up to the times and sizes of directories, except for the info of a path that a
    handle has written to and not yet closed.  For each kind of change to that file system, with the
    entries the cache drops then, this says exactly when coherence is kept. */
module MetaAnswers {
  import opened Paths
  import opened MetaKeys

  datatype Option<T> = None | Some(value: T)

  datatype Node =
    | File(mode: nat, owner: nat, size: nat, time: int)
    | Dir(mode: nat, owner: nat, size: nat, time: int)
    | Link(target: Path, owner: nat, time: int)

  type Tree = map<Path, Node>

  datatype Type = IsFile | IsDir | IsLink

  function TypeOf(n: Node): Type {
    match n
    case File(_, _, _, _) => IsFile
    case Dir(_, _, _, _) => IsDir
    case Link(_, _, _) => IsLink
  }

  /** What a file system answers, and what the cache keeps.  `Failed` is any error but a missing path. */
  datatype Answer = Missing | Failed | Found(node: Node) | Names(types: map<Name, Type>)

  datatype Entry = Entry(answer: Answer, renews: Option<int>, expires: int)

  type Cache = map<string, Entry>

  // ------------------------------------------------------------- what the file system answers

  function ChildNames(t: Tree, d: Path): set<Name> { set k | k in t && k != [] && Parent(k) == d :: Base(k) }

  function Listing(t: Tree, d: Path): map<Name, Type> {
    map n | n in ChildNames(t, d) && d + [n] in t :: TypeOf(t[d + [n]])
  }

  lemma ListingIs(t: Tree, d: Path, n: Name)
    ensures n in Listing(t, d) <==> d + [n] in t
    ensures n in Listing(t, d) ==> Listing(t, d)[n] == TypeOf(t[d + [n]])
  {
    if d + [n] in t {
      assert Parent(d + [n]) == d && Base(d + [n]) == n;
    }
  }

  function Direct(t: Tree, p: Path, k: Kind): Answer {
    if p !in t then Missing
    else if k != List then Found(t[p])
    else if t[p].Dir? then Names(Listing(t, p))
    else Failed
  }

  predicate LinkAt(t: Tree, p: Path) { p in t && t[p].Link? }

  /** `Stat` and listings follow a link. */
  function Answers(t: Tree, p: Path, k: Kind): Answer {
    if LinkAt(t, p) && k != Lstat then Direct(t, t[p].target, k) else Direct(t, p, k)
  }

  /** Equal up to the time and size of a directory, which change with its children. */
  predicate SameNode(a: Node, b: Node) {
    a == b || (a.Dir? && b.Dir? && a.mode == b.mode && a.owner == b.owner)
  }

  predicate Same(a: Answer, b: Answer) { a == b || (a.Found? && b.Found? && SameNode(a.node, b.node)) }

  /** The node at `p` is the same in both trees. */
  predicate SameAt(t: Tree, t': Tree, p: Path) { (p in t <==> p in t') && (p in t ==> SameNode(t[p], t'[p])) }

  /** What an answer that is right says: `Lstat` gives what is at the path, a link itself; `Stat` and listings give
      what is at the link's target, a listing every child of a directory with its type; of a directory time and
      size may differ. */
  lemma AnswersSay(t: Tree, p: Path, k: Kind, r: Answer)
    requires Same(r, Answers(t, p, k))
    ensures var q := if k != Lstat && p in t && t[p].Link? then t[p].target else p;
            && (q !in t ==> r == Missing)
            && (q in t && k != List && !t[q].Dir? ==> r == Found(t[q]))
            && (q in t && k != List && t[q].Dir? ==>
                  r.Found? && r.node.Dir? && r.node.mode == t[q].mode && r.node.owner == t[q].owner)
            && (q in t && k == List && !t[q].Dir? ==> r == Failed)
            && (q in t && k == List && t[q].Dir? ==>
                  && r.Names?
                  && (forall n :: n in r.types <==> q + [n] in t)
                  && (forall n :: n in r.types ==> match t[q + [n]]
                        case File(_, _, _, _) => r.types[n] == IsFile
                        case Dir(_, _, _, _) => r.types[n] == IsDir
                        case Link(_, _, _) => r.types[n] == IsLink))
  {
    var q := if k != Lstat && p in t && t[p].Link? then t[p].target else p;
    assert Answers(t, p, k) == Direct(t, q, k);
    forall n ensures n in Listing(t, q) <==> q + [n] in t ensures n in Listing(t, q) ==> Listing(t, q)[n] == TypeOf(t[q + [n]]) {
      ListingIs(t, q, n);
    }
    hide Listing;
  }

  // -------------------------------------------------------------------------------- coherence

  /** Entries that are answerable for: not the info of a path being written. */
  predicate Counts(dirty: set<Path>, p: Path, k: Kind) { p !in dirty || k == List }

  predicate Holds(c: Cache, p: Path, k: Kind) { Clean(p) && KeyOf(p, k) in c }

  ghost predicate Coherent(c: Cache, t: Tree, dirty: set<Path>) {
    forall p, k :: Holds(c, p, k) && Counts(dirty, p, k) ==> Same(c[KeyOf(p, k)].answer, Answers(t, p, k))
  }

  type Keys = iset<(Path, Kind)>

  /** Of `c`, exactly what is not in `gone` is kept. */
  ghost predicate Kept(c: Cache, c': Cache, gone: Keys) {
    forall p, k :: Clean(p) ==>
      (KeyOf(p, k) in c' <==> KeyOf(p, k) in c && (p, k) !in gone) && (KeyOf(p, k) in c' ==> c'[KeyOf(p, k)] == c[KeyOf(p, k)])
  }

  ghost function OfPath(p: Path): Keys { iset x: (Path, Kind) | x.0 == p }
  ghost function OfParent(p: Path): Keys { iset{(Up(p), List)} }
  ghost function Below(p: Path): Keys { iset x: (Path, Kind) | Under(p, x.0) }
  ghost function OfPrefixes(p: Path): Keys {
    iset x: (Path, Kind) | Under(x.0, p) && (x.0 != [] || (x.1 == List && p != []))
  }

  /** No entry is kept whose answer changed. */
  ghost predicate UpToDate(c: Cache, t: Tree, t': Tree, dirty: set<Path>, gone: Keys) {
    forall p, k :: Holds(c, p, k) && (p, k) !in gone && Counts(dirty, p, k) ==> Same(Answers(t, p, k), Answers(t', p, k))
  }

  /** The same of links only: an entry of a link depends on another path than its own. */
  ghost predicate LinksUpToDate(c: Cache, t: Tree, t': Tree, dirty: set<Path>, gone: Keys) {
    forall p, k :: LinkAt(t, p) && Holds(c, p, k) && (p, k) !in gone && Counts(dirty, p, k) ==>
      Same(Answers(t, p, k), Answers(t', p, k))
  }

  predicate LinkFree(t: Tree) { forall p :: p in t ==> !t[p].Link? }

  /** Coherence is kept exactly if no entry is kept whose answer changed. */
  lemma KeptExactly(c: Cache, t: Tree, c': Cache, t': Tree, dirty: set<Path>, gone: Keys)
    requires Coherent(c, t, dirty) && Kept(c, c', gone)
    ensures Coherent(c', t', dirty) <==> UpToDate(c, t, t', dirty, gone)
  {
    hide Answers, KeyOf, Clean;
    if Coherent(c', t', dirty) {
      forall p, k | Holds(c, p, k) && (p, k) !in gone && Counts(dirty, p, k) ensures Same(Answers(t, p, k), Answers(t', p, k)) {
        assert Holds(c', p, k);
        assert Same(c[KeyOf(p, k)].answer, Answers(t, p, k));
      }
    }
    if UpToDate(c, t, t', dirty, gone) {
      forall p, k | Holds(c', p, k) && Counts(dirty, p, k) ensures Same(c'[KeyOf(p, k)].answer, Answers(t', p, k)) {
        assert Holds(c, p, k);
        assert Same(c[KeyOf(p, k)].answer, Answers(t, p, k));
      }
    }
  }

  lemma KeptTwice(c: Cache, c1: Cache, c2: Cache, g1: Keys, g2: Keys)
    requires Kept(c, c1, g1) && Kept(c1, c2, g2)
    ensures Kept(c, c2, g1 + g2)
  {
    hide KeyOf, Clean;
  }

  // --------------------------------------------------------------- what operations change

  /** What is found at a path is the same if its node is, and for a listing those of its children are. */
  lemma SameDirect(t: Tree, t': Tree, p: Path, k: Kind)
    requires SameAt(t, t', p)
    requires k == List ==> forall n :: p + [n] in t <==> p + [n] in t'
    requires k == List ==> forall n :: p + [n] in t ==> TypeOf(t[p + [n]]) == TypeOf(t'[p + [n]])
    ensures Same(Direct(t, p, k), Direct(t', p, k))
  {
    if k == List && p in t && t[p].Dir? {
      forall n ensures n in Listing(t, p) <==> n in Listing(t', p)
        ensures n in Listing(t, p) ==> Listing(t, p)[n] == Listing(t', p)[n]
      {
        ListingIs(t, p, n);
        ListingIs(t', p, n);
      }
      hide Listing;
      assert Listing(t, p) == Listing(t', p);
    }
  }

  lemma SameAnswer(t: Tree, t': Tree, p: Path, k: Kind)
    requires !LinkAt(t, p) && SameAt(t, t', p)
    requires k == List ==> forall n :: p + [n] in t <==> p + [n] in t'
    requires k == List ==> forall n :: p + [n] in t ==> TypeOf(t[p + [n]]) == TypeOf(t'[p + [n]])
    ensures Same(Answers(t, p, k), Answers(t', p, k))
  {
    SameDirect(t, t', p, k);
    hide Listing;
  }

  /** Nothing but `p` is another node. */
  ghost predicate OnlyAt(t: Tree, t': Tree, p: Path) { forall q :: q != p ==> SameAt(t, t', q) }

  /** A change at `p` shows in the answers at `p` and in its parent's listing, if it is not just one of
      the info. */
  lemma ChangeAt(t: Tree, t': Tree, p: Path, q: Path, k: Kind)
    requires OnlyAt(t, t', p) && !LinkAt(t, q) && q != p
    requires (q, k) != (Up(p), List) || ((p in t <==> p in t') && (p in t ==> TypeOf(t[p]) == TypeOf(t'[p])))
    ensures Same(Answers(t, q, k), Answers(t', q, k))
  {
    assert SameAt(t, t', q);
    if k == List {
      forall n ensures q + [n] in t <==> q + [n] in t'
        ensures q + [n] in t ==> TypeOf(t[q + [n]]) == TypeOf(t'[q + [n]])
      {
        assert q + [n] != p ==> SameAt(t, t', q + [n]);
        assert Up(q + [n]) == q;
      }
    }
    SameAnswer(t, t', q, k);
  }

  // ----------------------------------------------------------------------------------- links

  predicate DirAt(t: Tree, p: Path) { p in t && t[p].Dir? }

  /** Both trees have an entry for `p` in its directory, of one type, or neither has one. */
  predicate SameEntry(t: Tree, t': Tree, p: Path) { (p in t <==> p in t') && (p in t ==> TypeOf(t[p]) == TypeOf(t'[p])) }

  /** `p` can be listed in both trees, or is something else in both, or nothing. */
  predicate SameListing(t: Tree, t': Tree, p: Path) { (p in t <==> p in t') && (DirAt(t, p) <==> DirAt(t', p)) }

  /** An answer of kind `k` is kept for a link to `q`. */
  ghost predicate LinkKept(c: Cache, t: Tree, dirty: set<Path>, gone: Keys, q: Path, k: Kind) {
    exists l :: LinkAt(t, l) && t[l].target == q && Holds(c, l, k) && (l, k) !in gone && Counts(dirty, l, k)
  }

  /** Where the links themselves stay, their answers are right if their targets' are. */
  lemma LinksByTarget(c: Cache, t: Tree, t': Tree, dirty: set<Path>, gone: Keys)
    requires forall l, k :: LinkAt(t, l) && (l, k) !in gone ==> SameAt(t, t', l)
    ensures LinksUpToDate(c, t, t', dirty, gone) <==>
            forall q, k :: k != Lstat && LinkKept(c, t, dirty, gone, q, k) ==> Same(Direct(t, q, k), Direct(t', q, k))
  {
    hide Direct, KeyOf, Clean, Counts;
    if LinksUpToDate(c, t, t', dirty, gone) {
      forall q, k | k != Lstat && LinkKept(c, t, dirty, gone, q, k) ensures Same(Direct(t, q, k), Direct(t', q, k)) {
        var l :| LinkAt(t, l) && t[l].target == q && Holds(c, l, k) && (l, k) !in gone && Counts(dirty, l, k);
        assert SameAt(t, t', l) && Same(Answers(t, l, k), Answers(t', l, k));
      }
    }
    if forall q, k :: k != Lstat && LinkKept(c, t, dirty, gone, q, k) ==> Same(Direct(t, q, k), Direct(t', q, k)) {
      forall l, k | LinkAt(t, l) && Holds(c, l, k) && (l, k) !in gone && Counts(dirty, l, k)
        ensures Same(Answers(t, l, k), Answers(t', l, k))
      {
        LinkItself(t, t', l);
        assert SameAt(t, t', l);
        assert k != Lstat ==> LinkKept(c, t, dirty, gone, t[l].target, k);
      }
    }
  }

  lemma LinkItself(t: Tree, t': Tree, l: Path)
    requires LinkAt(t, l) && SameAt(t, t', l)
    ensures Same(Direct(t, l, Lstat), Direct(t', l, Lstat)) && LinkAt(t', l) && t'[l] == t[l]
  {
  }

  /** What is found at `q` is not what was, after a change at `p`. */
  predicate Shown(t: Tree, t': Tree, p: Path, q: Path, k: Kind) {
    if k != List then q == p && !SameAt(t, t', p)
    else (q == p && !SameListing(t, t', p)) || (p != [] && q == Up(p) && DirAt(t, q) && !SameEntry(t, t', p))
  }

  lemma ShownExactly(t: Tree, t': Tree, p: Path, q: Path, k: Kind)
    requires OnlyAt(t, t', p)
    ensures Same(Direct(t, q, k), Direct(t', q, k)) <==> !Shown(t, t', p, q, k)
  {
    if k != List {
      assert q != p ==> SameAt(t, t', q);
    } else if q == p {
      ShownHere(t, t', p);
    } else if p != [] && q == Up(p) {
      ShownAbove(t, t', p);
    } else {
      ShownElsewhere(t, t', p, q);
    }
  }

  lemma ShownHere(t: Tree, t': Tree, p: Path)
    requires OnlyAt(t, t', p)
    ensures Same(Direct(t, p, List), Direct(t', p, List)) <==> SameListing(t, t', p)
  {
    if DirAt(t, p) && DirAt(t', p) {
      forall n ensures n in Listing(t, p) <==> n in Listing(t', p)
        ensures n in Listing(t, p) ==> Listing(t, p)[n] == Listing(t', p)[n]
      {
        assert p + [n] != p && SameAt(t, t', p + [n]);
        ListingIs(t, p, n);
        ListingIs(t', p, n);
      }
      hide Listing;
      assert Listing(t, p) == Listing(t', p);
    }
  }

  lemma ShownAbove(t: Tree, t': Tree, p: Path)
    requires OnlyAt(t, t', p) && p != []
    ensures Same(Direct(t, Up(p), List), Direct(t', Up(p), List)) <==> (DirAt(t, Up(p)) ==> SameEntry(t, t', p))
  {
    var q, m := Up(p), Base(p);
    Splits(p);
    assert SameAt(t, t', q);
    if DirAt(t, q) {
      ListingIs(t, q, m);
      ListingIs(t', q, m);
      if SameEntry(t, t', p) {
        forall n ensures q + [n] in t <==> q + [n] in t'
          ensures q + [n] in t ==> TypeOf(t[q + [n]]) == TypeOf(t'[q + [n]])
        {
          assert q + [n] != p ==> SameAt(t, t', q + [n]);
        }
        SameDirect(t, t', q, List);
      } else {
        hide Listing;
      }
    }
  }

  lemma ShownElsewhere(t: Tree, t': Tree, p: Path, q: Path)
    requires OnlyAt(t, t', p) && q != p && (p == [] || q != Up(p))
    ensures Same(Direct(t, q, List), Direct(t', q, List))
  {
    assert SameAt(t, t', q);
    forall n ensures q + [n] in t <==> q + [n] in t'
      ensures q + [n] in t ==> TypeOf(t[q + [n]]) == TypeOf(t'[q + [n]])
    {
      assert Up(q + [n]) == q && q + [n] != p;
      assert SameAt(t, t', q + [n]);
    }
    SameDirect(t, t', q, List);
  }

  /** After a change at `p`: no `Stat` is kept for a link to `p` if the info changed, no listing if it can
      be listed no more or now, and no listing for a link to the directory it is in if its entry changed. */
  ghost predicate LinksClear(c: Cache, t: Tree, t': Tree, dirty: set<Path>, gone: Keys, p: Path) {
    && (SameAt(t, t', p) || !LinkKept(c, t, dirty, gone, p, Stat))
    && (SameListing(t, t', p) || !LinkKept(c, t, dirty, gone, p, List))
    && (p == [] || SameEntry(t, t', p) || !DirAt(t, Up(p)) || !LinkKept(c, t, dirty, gone, Up(p), List))
  }

  lemma LinksExactly(c: Cache, t: Tree, t': Tree, dirty: set<Path>, gone: Keys, p: Path)
    requires OnlyAt(t, t', p) && forall k :: LinkAt(t, p) ==> (p, k) in gone
    ensures LinksUpToDate(c, t, t', dirty, gone) <==> LinksClear(c, t, t', dirty, gone, p)
  {
    LinksByTarget(c, t, t', dirty, gone);
    forall q, k ensures Same(Direct(t, q, k), Direct(t', q, k)) <==> !Shown(t, t', p, q, k) {
      ShownExactly(t, t', p, q, k);
    }
    hide Direct, LinkKept, LinksUpToDate, OnlyAt;
    assert Shown(t, t', p, p, Stat) <==> !SameAt(t, t', p);
  }

  // ------------------------------------------------------------------------- one path changed

  lemma ReplacedExactly(c: Cache, t: Tree, t': Tree, dirty: set<Path>, p: Path)
    requires OnlyAt(t, t', p)
    ensures var gone := OfPath(p) + OfParent(p); UpToDate(c, t, t', dirty, gone) <==> LinksClear(c, t, t', dirty, gone, p)
  {
    var gone := OfPath(p) + OfParent(p);
    forall q, k | !LinkAt(t, q) && (q, k) !in gone ensures Same(Answers(t, q, k), Answers(t', q, k)) {
      ChangeAt(t, t', p, q, k);
    }
    LinksExactly(c, t, t', dirty, gone, p);
    hide LinksClear, Answers;
  }

  /** Where only the info of `p` changes, it is links to `p` that matter. */
  ghost predicate InfoClear(c: Cache, t: Tree, t': Tree, dirty: set<Path>, gone: Keys, p: Path) {
    SameAt(t, t', p) || !LinkKept(c, t, dirty, gone, p, Stat)
  }

  lemma AlteredExactly(c: Cache, t: Tree, t': Tree, dirty: set<Path>, p: Path)
    requires OnlyAt(t, t', p) && p in t && p in t' && TypeOf(t[p]) == TypeOf(t'[p])
    ensures UpToDate(c, t, t', dirty, OfPath(p)) <==> InfoClear(c, t, t', dirty, OfPath(p), p)
  {
    forall q, k | !LinkAt(t, q) && (q, k) !in OfPath(p) ensures Same(Answers(t, q, k), Answers(t', q, k)) {
      ChangeAt(t, t', p, q, k);
    }
    LinksExactly(c, t, t', dirty, OfPath(p), p);
    hide Answers;
  }

  /** A write through a handle: only the info at its path, which does not count then. */
  lemma WrittenExactly(c: Cache, t: Tree, t': Tree, dirty: set<Path>, p: Path)
    requires OnlyAt(t, t', p) && p in dirty && p in t && p in t' && t[p].File? && t'[p].File?
    ensures UpToDate(c, t, t', dirty, iset{}) <==> InfoClear(c, t, t', dirty, iset{}, p)
  {
    forall q, k | !LinkAt(t, q) && Counts(dirty, q, k) ensures Same(Answers(t, q, k), Answers(t', q, k)) {
      if q != p {
        ChangeAt(t, t', p, q, k);
      }
    }
    LinksExactly(c, t, t', dirty, iset{}, p);
    hide Answers;
  }

  /** `Mkdir` of a name leaves what was cached of it: that it is missing. */
  lemma MadeExactly(c: Cache, t: Tree, t': Tree, dirty: set<Path>, p: Path)
    requires OnlyAt(t, t', p) && p != [] && p !in t && p in t' && t'[p].Dir?
    ensures UpToDate(c, t, t', dirty, OfParent(p)) <==>
            LinksClear(c, t, t', dirty, OfParent(p), p) && forall k :: Holds(c, p, k) ==> !Counts(dirty, p, k)
  {
    forall q, k | !LinkAt(t, q) && q != p && (q, k) !in OfParent(p) ensures Same(Answers(t, q, k), Answers(t', q, k)) {
      ChangeAt(t, t', p, q, k);
    }
    forall k ensures !Same(Answers(t, p, k), Answers(t', p, k)) {
    }
    LinksExactly(c, t, t', dirty, OfParent(p), p);
    hide LinksClear, Answers;
    assert forall k :: (p, k) !in OfParent(p);
  }

  // ------------------------------------------------------------------------ prefixes of a path

  /** `MkdirAll`: only prefixes of `p` that were missing are new. */
  ghost predicate OnlyPrefixes(t: Tree, t': Tree, p: Path) {
    forall q :: q in t || !Under(q, p) || q == [] ==> SameAt(t, t', q)
  }

  lemma MadeAllAt(t: Tree, t': Tree, p: Path, q: Path, k: Kind)
    requires OnlyPrefixes(t, t', p) && !LinkAt(t, q) && (q, k) !in OfPrefixes(p)
    ensures Same(Answers(t, q, k), Answers(t', q, k))
  {
    assert SameAt(t, t', q);
    if k == List {
      assert !Under(q, p) || p == [];
      forall n ensures q + [n] in t <==> q + [n] in t'
        ensures q + [n] in t ==> TypeOf(t[q + [n]]) == TypeOf(t'[q + [n]])
      {
        assert (q + [n])[..|q|] == q && !Under(q + [n], p);
        assert SameAt(t, t', q + [n]);
      }
    }
    SameAnswer(t, t', q, k);
  }

  /** All of the path is there in the end. */
  ghost predicate MadeAll(t: Tree, t': Tree, p: Path) { OnlyPrefixes(t, t', p) && forall q :: Under(q, p) ==> DirAt(t', q) }

  /** A prefix that is made. */
  predicate IsNew(t: Tree, p: Path, q: Path) { Under(q, p) && q != [] && q !in t }

  /** No answer is kept for a link to a prefix that is made, and no listing for a link to where one is. */
  ghost predicate LinksClearAll(c: Cache, t: Tree, dirty: set<Path>, gone: Keys, p: Path) {
    forall q :: IsNew(t, p, q) ==>
      && !LinkKept(c, t, dirty, gone, q, Stat) && !LinkKept(c, t, dirty, gone, q, List)
      && (DirAt(t, Up(q)) ==> !LinkKept(c, t, dirty, gone, Up(q), List))
  }

  /** What `MkdirAll` shows. */
  predicate MadeShown(t: Tree, p: Path, q: Path, k: Kind) {
    IsNew(t, p, q) || (k == List && DirAt(t, q) && |q| < |p| && Under(q, p) && IsNew(t, p, p[..|q| + 1]))
  }

  lemma MadeShownExactly(t: Tree, t': Tree, p: Path, q: Path, k: Kind)
    requires MadeAll(t, t', p)
    ensures Same(Direct(t, q, k), Direct(t', q, k)) <==> !MadeShown(t, p, q, k)
  {
    if !IsNew(t, p, q) {
      assert SameAt(t, t', q);
      if k == List && DirAt(t, q) && |q| < |p| && Under(q, p) && IsNew(t, p, p[..|q| + 1]) {
        var r := p[..|q| + 1];
        assert r == q + [p[|q|]] && DirAt(t', r);
        ListingIs(t, q, p[|q|]);
        ListingIs(t', q, p[|q|]);
        hide Listing;
      } else if k != List || DirAt(t, q) {
        forall n | k == List ensures q + [n] in t <==> q + [n] in t'
          ensures q + [n] in t ==> TypeOf(t[q + [n]]) == TypeOf(t'[q + [n]])
        {
          assert Under(q + [n], p) ==> p[..|q| + 1] == q + [n];
          assert SameAt(t, t', q + [n]);
        }
        SameDirect(t, t', q, k);
      }
    }
  }

  lemma MadeAllExactly(c: Cache, t: Tree, t': Tree, dirty: set<Path>, p: Path)
    requires MadeAll(t, t', p)
    ensures UpToDate(c, t, t', dirty, OfPrefixes(p)) <==> LinksClearAll(c, t, dirty, OfPrefixes(p), p)
  {
    var gone := OfPrefixes(p);
    forall q, k | !LinkAt(t, q) && (q, k) !in gone ensures Same(Answers(t, q, k), Answers(t', q, k)) {
      MadeAllAt(t, t', p, q, k);
    }
    LinksByTarget(c, t, t', dirty, gone);
    forall q, k ensures Same(Direct(t, q, k), Direct(t', q, k)) <==> !MadeShown(t, p, q, k) {
      MadeShownExactly(t, t', p, q, k);
    }
    hide Answers, Direct, LinkKept, OnlyPrefixes;
    MadeShownAll(c, t, dirty, gone, p);
  }

  lemma MadeShownAll(c: Cache, t: Tree, dirty: set<Path>, gone: Keys, p: Path)
    ensures LinksClearAll(c, t, dirty, gone, p) <==>
            forall q, k :: k != Lstat && LinkKept(c, t, dirty, gone, q, k) ==> !MadeShown(t, p, q, k)
  {
    hide LinkKept;
    if forall q, k :: k != Lstat && LinkKept(c, t, dirty, gone, q, k) ==> !MadeShown(t, p, q, k) {
      forall q | IsNew(t, p, q) && DirAt(t, Up(q)) ensures !LinkKept(c, t, dirty, gone, Up(q), List) {
        assert p[..|Up(q)| + 1] == q;
        assert MadeShown(t, p, Up(q), List);
      }
      assert forall q :: IsNew(t, p, q) ==> MadeShown(t, p, q, Stat) && MadeShown(t, p, q, List);
    }
    if LinksClearAll(c, t, dirty, gone, p) {
      forall q, k | k != Lstat && MadeShown(t, p, q, k) ensures !LinkKept(c, t, dirty, gone, q, k) {
        if !IsNew(t, p, q) {
          assert Up(p[..|q| + 1]) == q;
        }
      }
    }
  }

  /** `RemoveAll`: nothing is left at and below `p`, but perhaps the root itself. */
  ghost predicate Removed(t: Tree, t': Tree, p: Path) {
    forall q :: if !Under(p, q) then SameAt(t, t', q) else q !in t' || (q == [] && SameAt(t, t', q))
  }

  lemma RemovedAllAt(t: Tree, t': Tree, p: Path, q: Path, k: Kind)
    requires Removed(t, t', p) && p != [] && !LinkAt(t, q) && (q, k) !in Below(p) + OfParent(p)
    ensures Same(Answers(t, q, k), Answers(t', q, k))
  {
    assert SameAt(t, t', q);
    if k == List {
      forall n ensures q + [n] in t <==> q + [n] in t'
        ensures q + [n] in t ==> TypeOf(t[q + [n]]) == TypeOf(t'[q + [n]])
      {
        Outside(p, q, n);
        assert SameAt(t, t', q + [n]);
      }
    }
    SameAnswer(t, t', q, k);
  }

  /** No answer is kept for a link to what goes, and no listing for a link to where it was. */
  ghost predicate LinksClearBelow(c: Cache, t: Tree, dirty: set<Path>, gone: Keys, p: Path)
    requires p != []
  {
    && (forall q :: Under(p, q) && q in t ==> !LinkKept(c, t, dirty, gone, q, Stat) && !LinkKept(c, t, dirty, gone, q, List))
    && (p in t && DirAt(t, Up(p)) ==> !LinkKept(c, t, dirty, gone, Up(p), List))
  }

  predicate RemovedShown(t: Tree, p: Path, q: Path, k: Kind)
    requires p != []
  {
    if Under(p, q) then q in t else k == List && q == Up(p) && p in t && DirAt(t, q)
  }

  lemma RemovedShownExactly(t: Tree, t': Tree, p: Path, q: Path, k: Kind)
    requires Removed(t, t', p) && p != []
    ensures Same(Direct(t, q, k), Direct(t', q, k)) <==> !RemovedShown(t, p, q, k)
  {
    if !Under(p, q) {
      assert SameAt(t, t', q);
      if k == List && q == Up(p) && p in t && DirAt(t, q) {
        Splits(p);
        ListingIs(t, q, Base(p));
        ListingIs(t', q, Base(p));
        hide Listing;
      } else if k != List || DirAt(t, q) {
        forall n | k == List ensures q + [n] in t <==> q + [n] in t'
          ensures q + [n] in t ==> TypeOf(t[q + [n]]) == TypeOf(t'[q + [n]])
        {
          Outside(p, q, n);
          assert Under(p, q + [n]) ==> q + [n] == p && q == Up(p);
          assert !Under(p, q + [n]) ==> SameAt(t, t', q + [n]);
        }
        SameDirect(t, t', q, k);
      }
    }
  }

  lemma RemovedAllExactly(c: Cache, t: Tree, t': Tree, dirty: set<Path>, p: Path)
    requires Removed(t, t', p) && p != []
    ensures var gone := Below(p) + OfParent(p); UpToDate(c, t, t', dirty, gone) <==> LinksClearBelow(c, t, dirty, gone, p)
  {
    var gone := Below(p) + OfParent(p);
    forall q, k | !LinkAt(t, q) && (q, k) !in gone ensures Same(Answers(t, q, k), Answers(t', q, k)) {
      RemovedAllAt(t, t', p, q, k);
    }
    LinksByTarget(c, t, t', dirty, gone);
    forall q, k ensures Same(Direct(t, q, k), Direct(t', q, k)) <==> !RemovedShown(t, p, q, k) {
      RemovedShownExactly(t, t', p, q, k);
    }
    hide Answers, Direct, LinkKept, Removed;
    RemovedShownAll(c, t, dirty, gone, p);
  }

  lemma RemovedShownAll(c: Cache, t: Tree, dirty: set<Path>, gone: Keys, p: Path)
    requires p != []
    ensures LinksClearBelow(c, t, dirty, gone, p) <==>
            forall q, k :: k != Lstat && LinkKept(c, t, dirty, gone, q, k) ==> !RemovedShown(t, p, q, k)
  {
    hide LinkKept;
    assert !Under(p, Up(p));
    assert p in t && DirAt(t, Up(p)) ==> RemovedShown(t, p, Up(p), List);
    assert forall q :: Under(p, q) && q in t ==> RemovedShown(t, p, q, Stat) && RemovedShown(t, p, q, List);
  }

  /** What follows a link, and finds nothing. */
  predicate Dangles(t: Tree, p: Path, k: Kind) { LinkAt(t, p) && k != Lstat && t[p].target !in t }

  /** Nothing of what is there is cached but of the root and of links to nothing. */
  ghost predicate NothingBelowRoot(c: Cache, t: Tree, dirty: set<Path>) {
    forall q, k :: q in t && q != [] && Holds(c, q, k) && Counts(dirty, q, k) ==> Dangles(t, q, k)
  }

  /** `RemoveAll` of the root drops only the root's own entries. */
  lemma RemovedRootExactly(c: Cache, t: Tree, t': Tree, dirty: set<Path>)
    requires Removed(t, t', [])
    ensures UpToDate(c, t, t', dirty, OfPath([])) <==> NothingBelowRoot(c, t, dirty)
  {
    forall q, k | q != [] ensures Same(Answers(t, q, k), Answers(t', q, k)) <==> q !in t || Dangles(t, q, k) {
    }
    hide Answers;
  }

  // -------------------------------------------------------------------------------- rename

  /** `k` below `o` moves to below `n`. */
  function Moved(o: Path, n: Path, k: Path): Path
    requires Under(o, k)
  {
    n + k[|o|..]
  }

  /** Strictly below. */
  predicate Inside(o: Path, q: Path) { Under(o, q) && q != o }

  /** A successful rename of `o` to `n`, where nothing was inside: everything at and below `o` is at and
      below `n`. */
  ghost predicate Renamed(t: Tree, t': Tree, o: Path, n: Path) {
    && o in t && !Under(o, n) && !Under(n, o)
    && (forall q :: Inside(n, q) ==> q !in t)
    && (forall q :: Under(o, q) ==> q !in t')
    && (forall q :: Under(n, q) ==> (q in t' <==> Moved(n, o, q) in t) && (q in t' ==> SameNode(t[Moved(n, o, q)], t'[q])))
    && (forall q :: !Under(o, q) && !Under(n, q) ==> SameAt(t, t', q))
  }

  ghost function OfBoth(o: Path, n: Path): Keys { OfPath(o) + OfPath(n) + OfParent(o) + OfParent(n) }

  lemma RenamedAt(t: Tree, t': Tree, o: Path, n: Path, q: Path, k: Kind)
    requires Renamed(t, t', o, n) && !LinkAt(t, q) && (q, k) !in OfBoth(o, n) && !Under(o, q) && !Under(n, q)
    ensures Same(Answers(t, q, k), Answers(t', q, k))
  {
    assert SameAt(t, t', q);
    if k == List {
      forall m ensures q + [m] in t <==> q + [m] in t'
        ensures q + [m] in t ==> TypeOf(t[q + [m]]) == TypeOf(t'[q + [m]])
      {
        Outside(o, q, m);
        Outside(n, q, m);
        assert SameAt(t, t', q + [m]);
      }
    }
    SameAnswer(t, t', q, k);
  }

  lemma MovedBack(o: Path, n: Path, q: Path)
    requires Inside(o, q)
    ensures Inside(n, Moved(o, n, q)) && Moved(n, o, Moved(o, n, q)) == q
  {
    var r := Moved(o, n, q);
    assert r[|n|..] == q[|o|..] && q == o + q[|o|..];
  }

  /** What is at `p` after the rename is there. */
  predicate There(t: Tree, o: Path, n: Path, p: Path) {
    if Under(o, p) then false else if Under(n, p) then Moved(n, o, p) in t else p in t
  }

  /** A link inside `o` that leads to nothing after the rename. */
  predicate DanglesThen(t: Tree, o: Path, n: Path, p: Path, k: Kind) {
    LinkAt(t, p) && k != Lstat && !There(t, o, n, t[p].target)
  }

  /** What is inside `o`, and where it goes, changes its answers, but for links to nothing. */
  lemma InsideChanges(t: Tree, t': Tree, o: Path, n: Path, q: Path, k: Kind)
    requires Renamed(t, t', o, n) && Inside(o, q) && q in t
    ensures Same(Answers(t, q, k), Answers(t', q, k)) <==> Dangles(t, q, k)
    ensures var r := Moved(o, n, q); Inside(n, r) && r in t' && r !in t && Moved(n, o, r) == q
    ensures var r := Moved(o, n, q); Same(Answers(t, r, k), Answers(t', r, k)) <==> DanglesThen(t, o, n, q, k)
  {
    MovedBack(o, n, q);
    var r := Moved(o, n, q);
    assert SameNode(t[q], t'[r]);
    if LinkAt(t, q) {
      assert There(t, o, n, t[q].target) <==> t[q].target in t' by { ThereIs(t, t', o, n, t[q].target); }
    }
  }

  lemma ThereIs(t: Tree, t': Tree, o: Path, n: Path, p: Path)
    requires Renamed(t, t', o, n)
    ensures There(t, o, n, p) <==> p in t'
  {
    if Under(o, p) && Under(n, p) { Prefixes(o, n, p); }
    assert !Under(o, p) && !Under(n, p) ==> SameAt(t, t', p);
  }

  /** What else is inside either is missing before and after. */
  lemma InsideMissing(t: Tree, t': Tree, o: Path, n: Path, q: Path, k: Kind)
    requires Renamed(t, t', o, n)
    requires (Inside(o, q) && q !in t) || (Inside(n, q) && Moved(n, o, q) !in t)
    ensures Same(Answers(t, q, k), Answers(t', q, k))
  {
    if Inside(o, q) && Under(n, q) {
      Prefixes(o, n, q);
    }
  }

  ghost predicate Cached(c: Cache, dirty: set<Path>, p: Path, k: Kind) { Holds(c, p, k) && Counts(dirty, p, k) }

  /** Nothing is cached of what is inside `o`, neither where it is nor where it goes, but for links to
      nothing. */
  ghost predicate NothingInside(c: Cache, t: Tree, dirty: set<Path>, o: Path, n: Path) {
    forall q, k :: Inside(o, q) && q in t ==>
      && (Cached(c, dirty, q, k) ==> Dangles(t, q, k))
      && (Cached(c, dirty, Moved(o, n, q), k) ==> DanglesThen(t, o, n, q, k))
  }

  /** What a rename shows at a path. */
  predicate RenameShown(t: Tree, o: Path, n: Path, q: Path, k: Kind)
    requires o in t && o != [] && n != []
  {
    if Under(o, q) then q in t
    else if Inside(n, q) then Moved(n, o, q) in t
    else if q == n then
      if k != List then !(n in t && SameNode(t[n], t[o])) else !SameNames(t, o, n)
    else k == List && DirAt(t, q) && (q == Up(o) || (q == Up(n) && !(n in t && TypeOf(t[n]) == TypeOf(t[o]))))
  }

  /** `o` lists as `n`, inside which nothing is. */
  predicate SameNames(t: Tree, o: Path, n: Path) {
    n in t && (DirAt(t, n) <==> DirAt(t, o)) && (DirAt(t, o) ==> ChildNames(t, o) == {})
  }

  lemma RenameShownExactly(t: Tree, t': Tree, o: Path, n: Path, q: Path, k: Kind)
    requires Renamed(t, t', o, n)
    ensures Same(Direct(t, q, k), Direct(t', q, k)) <==> !RenameShown(t, o, n, q, k)
  {
    if Under(o, q) {
    } else if Inside(n, q) {
    } else if q == n {
      RenameShownAt(t, t', o, n, k);
    } else if k != List || !DirAt(t, q) {
      assert SameAt(t, t', q);
    } else {
      RenameShownOutside(t, t', o, n, q);
    }
  }

  lemma RenameShownAt(t: Tree, t': Tree, o: Path, n: Path, k: Kind)
    requires Renamed(t, t', o, n)
    ensures Same(Direct(t, n, k), Direct(t', n, k)) <==>
            if k != List then n in t && SameNode(t[n], t[o]) else SameNames(t, o, n)
  {
    assert Under(n, n) && Moved(n, o, n) == o && SameNode(t[o], t'[n]);
    if k == List && n in t && DirAt(t, n) && DirAt(t, o) {
      forall e ensures e in Listing(t, n) <==> false
        ensures e in Listing(t', n) <==> e in Listing(t, o)
      {
        ListingIs(t, n, e);
        ListingIs(t', n, e);
        ListingIs(t, o, e);
        assert Inside(n, n + [e]) && Moved(n, o, n + [e]) == o + [e];
      }
      NamesOf(t, o);
      hide Listing, ChildNames;
      assert Listing(t, n) == map[];
      assert Listing(t', n) == map[] <==> Listing(t, o) == map[];
    }
  }

  lemma NamesOf(t: Tree, o: Path)
    ensures Listing(t, o) == map[] <==> ChildNames(t, o) == {}
  {
    if e :| e in ChildNames(t, o) {
      var k :| k in t && k != [] && Parent(k) == o && Base(k) == e;
      Splits(k);
      ListingIs(t, o, e);
    }
  }

  lemma RenameShownOutside(t: Tree, t': Tree, o: Path, n: Path, q: Path)
    requires Renamed(t, t', o, n) && !Under(o, q) && !Under(n, q) && DirAt(t, q)
    ensures Same(Direct(t, q, List), Direct(t', q, List)) <==>
            !(q == Up(o) || (q == Up(n) && !(n in t && TypeOf(t[n]) == TypeOf(t[o]))))
  {
    assert SameAt(t, t', q);
    assert Under(n, n) && Moved(n, o, n) == o && SameNode(t[o], t'[n]);
    Splits(o);
    Splits(n);
    ListingIs(t, q, Base(o));
    ListingIs(t', q, Base(o));
    ListingIs(t, q, Base(n));
    ListingIs(t', q, Base(n));
    if !(q == Up(o) || (q == Up(n) && !(n in t && TypeOf(t[n]) == TypeOf(t[o])))) {
      forall m ensures q + [m] in t <==> q + [m] in t'
        ensures q + [m] in t ==> TypeOf(t[q + [m]]) == TypeOf(t'[q + [m]])
      {
        Outside(o, q, m);
        Outside(n, q, m);
        assert q + [m] != n ==> SameAt(t, t', q + [m]);
      }
      SameDirect(t, t', q, List);
    }
    hide Listing;
  }

  ghost function OutsideBoth(o: Path, n: Path): Keys { OfBoth(o, n) + Below(o) + Below(n) }

  /** No answer is kept for a link elsewhere to what changes. */
  ghost predicate LinksClearRename(c: Cache, t: Tree, dirty: set<Path>, o: Path, n: Path)
    requires o in t && o != [] && n != []
  {
    forall q, k :: k != Lstat && LinkKept(c, t, dirty, OutsideBoth(o, n), q, k) ==> !RenameShown(t, o, n, q, k)
  }

  /** Links elsewhere. */
  lemma RenamedLinks(c: Cache, t: Tree, t': Tree, dirty: set<Path>, o: Path, n: Path)
    requires Renamed(t, t', o, n)
    ensures LinksUpToDate(c, t, t', dirty, OutsideBoth(o, n)) <==> LinksClearRename(c, t, dirty, o, n)
  {
    forall l, k | LinkAt(t, l) && (l, k) !in OutsideBoth(o, n) ensures SameAt(t, t', l) {
      assert (l, k) !in Below(o) && (l, k) !in Below(n);
    }
    LinksByTarget(c, t, t', dirty, OutsideBoth(o, n));
    forall q, k ensures Same(Direct(t, q, k), Direct(t', q, k)) <==> !RenameShown(t, o, n, q, k) {
      RenameShownExactly(t, t', o, n, q, k);
    }
    hide Direct, LinkKept, LinksUpToDate, Renamed, OutsideBoth, RenameShown;
  }

  /** After a rename coherence is kept exactly if nothing inside is cached at either place, and no answer
      for a link elsewhere to what changes. */
  lemma RenamedExactly(c: Cache, t: Tree, t': Tree, dirty: set<Path>, o: Path, n: Path)
    requires Renamed(t, t', o, n)
    ensures UpToDate(c, t, t', dirty, OfBoth(o, n)) <==> NothingInside(c, t, dirty, o, n) && LinksClearRename(c, t, dirty, o, n)
  {
    RenamedLinks(c, t, t', dirty, o, n);
    hide Renamed, LinksClearRename, Answers, KeyOf, Clean, Counts, Dangles, DanglesThen;
    if UpToDate(c, t, t', dirty, OfBoth(o, n)) {
      RenamedNeeds(c, t, t', dirty, o, n);
    }
    if NothingInside(c, t, dirty, o, n) && LinksClearRename(c, t, dirty, o, n) {
      forall q, k | Holds(c, q, k) && (q, k) !in OfBoth(o, n) && Counts(dirty, q, k) ensures Same(Answers(t, q, k), Answers(t', q, k)) {
        RenamedKeepsAt(c, t, t', dirty, o, n, q, k);
      }
    }
  }

  lemma RenamedKeepsAt(c: Cache, t: Tree, t': Tree, dirty: set<Path>, o: Path, n: Path, q: Path, k: Kind)
    requires Renamed(t, t', o, n) && NothingInside(c, t, dirty, o, n) && LinksUpToDate(c, t, t', dirty, OutsideBoth(o, n))
    requires Holds(c, q, k) && (q, k) !in OfBoth(o, n) && Counts(dirty, q, k)
    ensures Same(Answers(t, q, k), Answers(t', q, k))
  {
    hide Answers, KeyOf, Clean, Counts, Dangles, DanglesThen;
    assert Cached(c, dirty, q, k);
    if Inside(o, q) {
      if q in t { InsideChanges(t, t', o, n, q, k); } else { InsideMissing(t, t', o, n, q, k); }
    } else if Inside(n, q) {
      var r := Moved(n, o, q);
      MovedBack(n, o, q);
      if r in t { InsideChanges(t, t', o, n, r, k); } else { InsideMissing(t, t', o, n, q, k); }
    } else if !LinkAt(t, q) {
      RenamedAt(t, t', o, n, q, k);
    }
  }

  lemma RenamedNeeds(c: Cache, t: Tree, t': Tree, dirty: set<Path>, o: Path, n: Path)
    requires Renamed(t, t', o, n) && UpToDate(c, t, t', dirty, OfBoth(o, n))
    ensures NothingInside(c, t, dirty, o, n) && LinksUpToDate(c, t, t', dirty, OutsideBoth(o, n))
  {
    hide Answers, KeyOf, Clean, Counts, Dangles, DanglesThen;
    forall q, k | Inside(o, q) && q in t
      ensures Cached(c, dirty, q, k) ==> Dangles(t, q, k)
      ensures Cached(c, dirty, Moved(o, n, q), k) ==> DanglesThen(t, o, n, q, k)
    {
      InsideChanges(t, t', o, n, q, k);
      NotGone(o, n, q, k);
      NotGone(n, o, Moved(o, n, q), k);
    }
  }

  lemma NotGone(o: Path, n: Path, q: Path, k: Kind)
    requires Inside(o, q) && !Under(o, n) && !Under(n, o)
    ensures (q, k) !in OfBoth(o, n) && (q, k) !in OfBoth(n, o)
  {
    assert !Under(q, o);
    assert Under(q, n) ==> Under(o, n);
    assert Under(Up(o), o) && Under(Up(n), n);
  }

  // -------------------------------------------------------------------- keys that are dropped

  lemma DropsPath(c: Cache, p: Path)
    requires Clean(p)
    ensures Kept(c, c - {KeyOf(p, Stat)} - {KeyOf(p, Lstat)} - {KeyOf(p, List)}, OfPath(p))
  {
    hide KeyOf, Clean;
    forall q, k | Clean(q) && (KeyOf(q, k) == KeyOf(p, Stat) || KeyOf(q, k) == KeyOf(p, Lstat) || KeyOf(q, k) == KeyOf(p, List)) ensures q == p {
      forall j | KeyOf(q, k) == KeyOf(p, j) ensures q == p { OneKey(q, k, p, j); }
    }
    forall q, k | Clean(q) && q == p ensures KeyOf(q, k) in {KeyOf(p, Stat), KeyOf(p, Lstat), KeyOf(p, List)} {
      match k { case Stat => case Lstat => case List => }
    }
  }

  lemma DropsList(c: Cache, p: Path)
    requires Clean(p)
    ensures Clean(Up(p)) && Kept(c, c - {KeyOf(Up(p), List)}, OfParent(p))
  {
    DirIsUp(p);
    hide KeyOf, Clean;
    forall q, k | Clean(q) && KeyOf(q, k) == KeyOf(Up(p), List) ensures (q, k) == (Up(p), List) {
      OneKey(q, k, Up(p), List);
    }
  }

  lemma DropsBelow(c: Cache, c': Cache, p: Path)
    requires Clean(p) && p != [] && c' == map key | key in c && !(Text(p) + "/" <= key) :: c[key]
    ensures Kept(c, c', iset x: (Path, Kind) | Inside(p, x.0))
  {
    hide KeyOf, Clean;
    forall q, k | Clean(q) ensures KeyOf(q, k) in c' <==> KeyOf(q, k) in c && !Inside(p, q) {
      PrefixOfKey(p, q, k);
    }
  }

  lemma KeptAll(c: Cache)
    ensures Kept(c, c, iset{})
  {
  }
}
