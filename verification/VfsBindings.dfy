/** The bindings of a namespace: a map of slices that is copied, changed and published by writers while
    readers hold earlier ones.  Maps and the arrays behind slices are objects here, so that sharing is
    part of what is proved. */
module VfsBindings {

  /** What is bound: a file system and a path in it. */
  type Target = (nat, string)
  type Bindings = map<string, seq<Target>>

  datatype Mode = ModeAfter | ModeBefore | ModeReplace

  datatype Change =
    | Bind(ref: Target, dst: string, mode: Mode)
    | Unbind(ref: Target, dst: string)
    | UnbindAll

  // ----------------------------------------------------------------- what a change means

  function Without(refs: seq<Target>, ref: Target): seq<Target> {
    if refs == [] then []
    else (if refs[0] == ref then [] else [refs[0]]) + Without(refs[1..], ref)
  }

  function At(b: Bindings, dst: string): seq<Target> { if dst in b then b[dst] else [] }

  predicate Special(k: string) { k != "" && k[0] == '#' }

  function Apply(b: Bindings, c: Change): Bindings {
    match c
    case Bind(ref, dst, ModeAfter) => b[dst := [ref] + At(b, dst)]
    case Bind(ref, dst, ModeBefore) => b[dst := At(b, dst) + [ref]]
    case Bind(ref, dst, ModeReplace) => b[dst := [ref]]
    case Unbind(ref, dst) =>
      var left := Without(At(b, dst), ref);
      if left == [] then b - {dst} else b[dst := left]
    case UnbindAll => map k | k in b && Special(k) :: b[k]
  }

  function Fold(b: Bindings, log: seq<Change>): Bindings {
    if log == [] then b else Apply(Fold(b, log[..|log| - 1]), log[|log| - 1])
  }

  /** No key has an empty list. */
  predicate NoneEmpty(b: Bindings) { forall k :: k in b ==> b[k] != [] }

  lemma ApplyKeepsNoneEmpty(b: Bindings, c: Change)
    requires NoneEmpty(b)
    ensures NoneEmpty(Apply(b, c))
  {
  }

  /** Exactly the targets equal to `ref` are gone, the others are in order. */
  lemma {:induction false} WithoutIs(refs: seq<Target>, ref: Target)
    ensures ref !in Without(refs, ref) && forall x :: x != ref ==> multiset(Without(refs, ref))[x] == multiset(refs)[x]
  {
    if refs != [] {
      WithoutIs(refs[1..], ref);
      assert refs == [refs[0]] + refs[1..];
    }
  }

  /** What is left is in the order it was in: its places in the list, one after the other, are those of all that is
      not `ref`. */
  lemma {:induction false} WithoutInOrder(refs: seq<Target>, ref: Target) returns (at: seq<nat>)
    ensures |at| == |Without(refs, ref)| && forall i :: 0 <= i < |at| ==> at[i] < |refs| && refs[at[i]] == Without(refs, ref)[i]
    ensures forall i, j :: 0 <= i < j < |at| ==> at[i] < at[j]
    ensures forall k :: 0 <= k < |refs| ==> (k in at <==> refs[k] != ref)
  {
    at := [];
    if refs != [] {
      var n := |refs| - 1;
      at := WithoutInOrder(refs[..n], ref);
      assert refs == refs[..n] + [refs[n]];
      WithoutJoins(refs[..n], [refs[n]], ref);
      WithoutOne(refs[n], ref);
      if refs[n] != ref {
        at := at + [n];
      }
    }
  }

  /** Where the target is after a bind: in front of what was there, behind it, or alone; other names keep theirs. */
  lemma BindIs(b: Bindings, ref: Target, dst: string, mode: Mode)
    ensures var b' := Apply(b, Bind(ref, dst, mode));
            var was := if dst in b then b[dst] else [];
            && b'.Keys == b.Keys + {dst} && (forall k :: k in b && k != dst ==> b'[k] == b[k])
            && (mode == ModeAfter ==> b'[dst] != [] && b'[dst][0] == ref && b'[dst][1..] == was)
            && (mode == ModeBefore ==> b'[dst] != [] && b'[dst][|was|] == ref && b'[dst][..|was|] == was && |b'[dst]| == |was| + 1)
            && (mode == ModeReplace ==> b'[dst] == [ref])
  {
  }

  /** After an unbind no such target is left at the name; nothing else changed there or elsewhere. */
  lemma UnbindIs(b: Bindings, ref: Target, dst: string)
    requires NoneEmpty(b)
    ensures var b' := Apply(b, Unbind(ref, dst));
            && (forall k :: k != dst ==> (k in b' <==> k in b) && (k in b ==> b'[k] == b[k]))
            && (dst in b' <==> dst in b && exists x :: x in b[dst] && x != ref)
            && (dst in b' ==> ref !in b'[dst] && forall x :: x != ref ==> multiset(b'[dst])[x] == multiset(b[dst])[x])
  {
    var was := At(b, dst);
    WithoutIs(was, ref);
    var left := Without(was, ref);
    assert forall x :: x in was <==> x in multiset(was);
    assert forall x :: x in left <==> x in multiset(left);
    if x :| x in was && x != ref {
      assert x in left;
    }
    if left != [] {
      assert left[0] in left && left[0] != ref && left[0] in was;
    }
    hide Without;
  }

  /** After unbinding all, exactly the names that start with `#` are left, as they were. */
  lemma UnbindAllIs(b: Bindings)
    ensures var b' := Apply(b, UnbindAll);
            forall k :: (k in b' <==> k in b && k != "" && k[0] == '#') && (k in b' ==> b'[k] == b[k])
  {
  }

  lemma {:induction false} WithoutJoins(a: seq<Target>, b: seq<Target>, ref: Target)
    ensures Without(a + b, ref) == Without(a, ref) + Without(b, ref)
  {
    if a == [] {
      assert a + b == b;
    } else {
      assert (a + b)[1..] == a[1..] + b;
      WithoutJoins(a[1..], b, ref);
    }
  }

  lemma WithoutOne(x: Target, ref: Target)
    ensures Without([x], ref) == if x == ref then [] else [x]
  {
  }

  // -------------------------------------------------------------------- maps and slices

  /** A slice: the first `len` elements of an array. */
  datatype Slice = Slice(items: array<Target>, len: nat)

  /** A Go map from names to slices. */
  class Table {
    var entries: map<string, Slice>

    constructor (m: map<string, Slice>)
      ensures entries == m
    {
      entries := m;
    }

    ghost function Arrays(): set<object>
      reads this
    {
      set k | k in entries :: entries[k].items
    }

    ghost predicate Valid()
      reads this
    {
      forall k :: k in entries ==> entries[k].len <= entries[k].items.Length
    }

    /** What a reader of the map finds. */
    ghost function Contents(): Bindings
      requires Valid()
      reads this, Arrays()
    {
      map k | k in entries :: entries[k].items[..entries[k].len]
    }
  }

  /** `slices.Clone`: a new array. */
  method CloneSlice(s: Slice) returns (t: Slice)
    requires s.len <= s.items.Length
    ensures fresh(t.items) && t.len == t.items.Length == s.len && t.items[..] == s.items[..s.len]
  {
    var a := new Target[s.len](i requires 0 <= i < s.len reads s.items requires s.len <= s.items.Length => s.items[i]);
    assert a[..] == s.items[..s.len];
    t := Slice(a, s.len);
  }

  /** `append` where the array is full, or to nothing: the elements move to a new array. */
  method NewSlice(refs: seq<Target>) returns (t: Slice)
    ensures fresh(t.items) && t.len == t.items.Length == |refs| && t.items[..] == refs
  {
    var a := new Target[|refs|](i requires 0 <= i < |refs| => refs[i]);
    assert a[..] == refs;
    t := Slice(a, |refs|);
  }

  /** `slices.DeleteFunc` of everything equal to `ref`, in place. */
  method DeleteEqual(s: Slice, ref: Target) returns (t: Slice)
    requires s.len <= s.items.Length
    modifies s.items
    ensures t.items == s.items && t.len <= s.len && t.items[..t.len] == Without(old(s.items[..s.len]), ref)
  {
    ghost var was := s.items[..s.len];
    var j := 0;
    for i := 0 to s.len
      invariant j <= i && s.items[..j] == Without(was[..i], ref)
      invariant forall k :: i <= k < s.len ==> s.items[k] == was[k]
    {
      assert was[..i + 1] == was[..i] + [was[i]];
      WithoutJoins(was[..i], [was[i]], ref);
      WithoutOne(was[i], ref);
      hide Without;
      ghost var kept := s.items[..j];
      if s.items[i] != ref {
        s.items[j] := s.items[i];
        assert s.items[..j + 1] == kept + [was[i]];
        j := j + 1;
      } else {
        assert kept + [] == kept;
      }
    }
    assert was[..s.len] == was;
    t := Slice(s.items, j);
  }

  /** A copy no other map shares an array with. */
  ghost predicate Separate(t: Table)
    reads t
  {
    forall k, l :: k in t.entries && l in t.entries && k != l ==> t.entries[k].items != t.entries[l].items
  }

  /** The copying loop of `mutate` and `Clone`, key by key in any order. */
  method CopyEntries(cur: Table) returns (entries: map<string, Slice>)
    requires cur.Valid()
    ensures entries.Keys == cur.entries.Keys
    ensures forall k :: k in entries ==> fresh(entries[k].items) && entries[k].len <= entries[k].items.Length
    ensures forall k :: k in entries ==> entries[k].items[..entries[k].len] == cur.entries[k].items[..cur.entries[k].len]
    ensures forall k, l :: k in entries && l in entries && k != l ==> entries[k].items != entries[l].items
  {
    entries := map[];
    var left := cur.entries.Keys;
    while left != {}
      invariant left <= cur.entries.Keys && entries.Keys == cur.entries.Keys - left
      invariant forall k :: k in entries ==> fresh(entries[k].items)
      invariant forall k :: k in entries ==> entries[k].len <= entries[k].items.Length
      invariant forall k :: k in entries ==> entries[k].items[..entries[k].len] == cur.entries[k].items[..cur.entries[k].len]
      invariant forall k, l :: k in entries && l in entries && k != l ==> entries[k].items != entries[l].items
      decreases left
      modifies {}
    {
      var k :| k in left;
      left := left - {k};
      var s := CloneSlice(cur.entries[k]);
      entries := entries[k := s];
    }
  }

  method Copy(cur: Table) returns (cp: Table)
    requires cur.Valid()
    ensures fresh(cp) && fresh(cp.Arrays()) && cp.Valid() && Separate(cp) && cp.Contents() == cur.Contents()
  {
    var entries := CopyEntries(cur);
    cp := new Table(entries);
    ContentsAre(cp, cur.Contents(), cur.Contents());
  }

  method ApplyBind(t: Table, ref: Target, dst: string, mode: Mode)
    requires t.Valid()
    modifies t
    ensures t.Valid() && t.Contents() == Apply(old(t.Contents()), Bind(ref, dst, mode))
    ensures var was := if dst in old(t.Contents()) then old(t.Contents())[dst] else [];
            dst in t.Contents() && t.Contents()[dst] ==
              match mode case ModeAfter => [ref] + was case ModeBefore => was + [ref] case ModeReplace => [ref]
    ensures forall k :: k in t.entries ==> t.entries[k].items in old(t.Arrays()) || fresh(t.entries[k].items)
  {
    ghost var b := t.Contents();
    var refs := if dst in t.entries then t.entries[dst].items[..t.entries[dst].len] else [];
    assert refs == At(b, dst);
    var s := NewSlice(if mode == ModeAfter then [ref] + refs else if mode == ModeBefore then refs + [ref] else [ref]);
    t.entries := t.entries[dst := s];
    assert s.items[..s.len] == s.items[..];
    assert t.Contents() == b[dst := s.items[..]];
  }

  method ApplyUnbind(t: Table, ref: Target, dst: string)
    requires t.Valid() && Separate(t) && NoneEmpty(t.Contents())
    modifies t, t.Arrays()
    ensures t.Valid() && t.Contents() == Apply(old(t.Contents()), Unbind(ref, dst))
    ensures forall k :: k in t.entries ==> t.entries[k].items in old(t.Arrays())
  {
    ghost var b := t.Contents();
    if dst !in t.entries {
      assert b - {dst} == b;
      return;
    }
    DeleteAt(t, ref, dst);
    hide Without;
    ghost var mid := t.Contents();
    assert t.entries[dst].len == |mid[dst]|;
    if t.entries[dst].len == 0 {
      t.entries := t.entries - {dst};
      ContentsAre(t, b - {dst}, mid);
    }
  }

  /** What a map holds, entry by entry. */
  lemma ContentsAre(t: Table, b: Bindings, mid: Bindings)
    requires t.Valid() && t.entries.Keys == b.Keys
    requires forall k :: k in t.entries ==> k in mid && t.entries[k].items[..t.entries[k].len] == mid[k] && mid[k] == b[k]
    ensures t.Contents() == b
  {
  }

  lemma Apart(t: Table, dst: string)
    requires Separate(t) && dst in t.entries
    ensures forall k :: k in t.entries && k != dst ==> t.entries[k].items != t.entries[dst].items
  {
  }

  lemma ContentsHold(t: Table)
    requires t.Valid()
    ensures t.Contents().Keys == t.entries.Keys
    ensures forall k :: k in t.entries ==> t.Contents()[k] == t.entries[k].items[..t.entries[k].len]
  {
  }

  /** The slice of one name loses its targets, in place. */
  method DeleteAt(t: Table, ref: Target, dst: string)
    requires t.Valid() && Separate(t) && dst in t.entries
    modifies t, t.entries[dst].items
    ensures t.Valid() && t.Contents() == old(t.Contents())[dst := Without(old(t.Contents())[dst], ref)]
    ensures t.entries.Keys == old(t.entries).Keys && t.entries[dst].len == |Without(old(t.Contents())[dst], ref)|
    ensures forall k :: k in t.entries ==> t.entries[k].items == old(t.entries)[k].items
  {
    hide Without, Separate, Table.Contents;
    ghost var b := t.Contents();
    ghost var was := t.entries;
    Apart(t, dst);
    ContentsHold(t);
    var s := DeleteEqual(t.entries[dst], ref);
    t.entries := t.entries[dst := s];
    ghost var want := b[dst := Without(b[dst], ref)];
    assert forall k :: k in t.entries ==> t.entries[k].items[..t.entries[k].len] == want[k];
    ContentsAre(t, want, want);
  }

  method ApplyUnbindAll(t: Table)
    requires t.Valid()
    modifies t
    ensures t.Valid() && t.Contents() == Apply(old(t.Contents()), UnbindAll)
    ensures forall k :: k in t.entries ==> t.entries[k].items in old(t.Arrays())
  {
    ghost var b, was := t.Contents(), t.entries;
    var left := t.entries.Keys;
    while left != {}
      invariant left <= was.Keys && t.entries == map k | k in was && (k in left || Special(k)) :: was[k]
      decreases |left|
    {
      var k :| k in left;
      left := left - {k};
      if k == "" || k[0] != '#' {
        t.entries := t.entries - {k};
      }
    }
    assert t.entries == map k | k in was && Special(k) :: was[k];
  }

  /** A changed private copy; nothing that existed before is written. */
  method Prepare(cur: Table, c: Change) returns (cp: Table)
    requires cur.Valid() && NoneEmpty(cur.Contents())
    ensures fresh(cp) && fresh(cp.Arrays()) && cp.Valid() && cp.Contents() == Apply(old(cur.Contents()), c)
  {
    hide Apply;
    ghost var b := cur.Contents();
    cp := Copy(cur);
    assert cp.Contents() == b;
    hide NoneEmpty, Separate;
    Perform(cp, c);
  }

  method Perform(t: Table, c: Change)
    requires t.Valid() && Separate(t) && NoneEmpty(t.Contents())
    modifies t, t.Arrays()
    ensures t.Valid() && t.Contents() == Apply(old(t.Contents()), c)
    ensures forall k :: k in t.entries ==> t.entries[k].items in old(t.Arrays()) || fresh(t.entries[k].items)
  {
    hide Apply, NoneEmpty, Separate;
    if c.Bind? {
      ApplyBind(t, c.ref, c.dst, c.mode);
    } else if c.Unbind? {
      ApplyUnbind(t, c.ref, c.dst);
    } else {
      ApplyUnbindAll(t);
    }
  }

  lemma FoldNext(b: Bindings, log: seq<Change>, c: Change)
    ensures Fold(b, log + [c]) == Apply(Fold(b, log), c)
    ensures forall i :: 0 <= i <= |log| ==> (log + [c])[..i] == log[..i]
    ensures log[..|log|] == log && (log + [c])[..|log| + 1] == log + [c]
  {
    assert (log + [c])[..|log|] == log;
  }

  /** Each map holds what it is said to hold. */
  ghost predicate Held(ts: seq<Table>, vs: seq<Bindings>)
    reads ts, set t: Table, a: object | t in ts && a in t.Arrays() :: a
  {
    |ts| == |vs| && forall i :: 0 <= i < |ts| ==> ts[i].Valid() && ts[i].Contents() == vs[i]
  }

  /** There is one map for each number of changes: their fold.  The last is the current one. */
  ghost predicate Lined(bindings: Table, first: Bindings, log: seq<Change>, ts: seq<Table>, vs: seq<Bindings>) {
    && |ts| == |vs| == |log| + 1
    && bindings == ts[|log|]
    && (forall i :: 0 <= i < |vs| ==> vs[i] == Fold(first, log[..i]) && NoneEmpty(vs[i]))
  }

  lemma LinedGrows(b: Table, first: Bindings, log: seq<Change>, ts: seq<Table>, vs: seq<Bindings>, c: Change, t: Table, v: Bindings)
    requires Lined(b, first, log, ts, vs) && v == Fold(first, log + [c]) && NoneEmpty(v)
    ensures Lined(t, first, log + [c], ts + [t], vs + [v])
  {
    hide Fold;
    FoldNext(first, log, c);
  }

  lemma HeldGrows(ts: seq<Table>, vs: seq<Bindings>, t: Table)
    requires Held(ts, vs) && t.Valid()
    ensures Held(ts + [t], vs + [t.Contents()])
  {
  }

  class NS {
    var bindings: Table                 // what readers load
    ghost var first: Bindings
    ghost var log: seq<Change>          // committed changes, in the order of the lock
    ghost var published: seq<Table>     // every map ever published
    ghost var values: seq<Bindings>     // and what it held then

    /** Every map ever published still holds what it held then, which is the fold of the changes up to
        it; the current one is the last. */
    ghost predicate Valid()
      reads this, published, Held.reads(published, values)
    {
      Held(published, values) && Lined(bindings, first, log, published, values)
    }

    constructor ()
      ensures Valid() && bindings.Contents() == map[] && log == [] && first == map[]
    {
      var m := new Table(map[]);
      bindings, first, log, published, values := m, map[], [], [m], [map[]];
    }

    /** A namespace whose first map is a copy of another's. */
    constructor From(b: Table)
      requires b.Valid() && NoneEmpty(b.Contents())
      ensures Valid() && bindings == b && first == b.Contents() && log == []
    {
      bindings, first, log, published, values := b, b.Contents(), [], [b], [b.Contents()];
    }

    /** What a reader gets without a lock. */
    method Snapshot() returns (t: Table)
      requires Valid()
      ensures t == bindings && t in published && t.Valid() && t.Contents() == Fold(first, log)
    {
      t := bindings;
      assert log[..|log|] == log;
    }

    /** `mutate` under the writers' lock: only objects made here are written before the new map is
        published, so every map published earlier stays what it was. */
    method Mutate(c: Change)
      requires Valid()
      modifies this
      ensures Valid() && fresh(bindings) && fresh(bindings.Arrays())
      ensures first == old(first) && log == old(log) + [c]
      ensures published == old(published) + [bindings] && values[..|old(values)|] == old(values)
      ensures bindings.Contents() == Apply(old(bindings.Contents()), c) == Fold(first, log)
    {
      hide Fold, Apply, NoneEmpty;
      assert values[|log|] == bindings.Contents() && log[..|log|] == log;
      var cp := Prepare(bindings, c);
      ApplyKeepsNoneEmpty(values[|log|], c);
      FoldNext(first, log, c);
      Publish(cp, c);
    }

    /** The new map becomes the one readers load. */
    method Publish(cp: Table, ghost c: Change)
      requires Valid() && cp.Valid() && cp.Contents() == Fold(first, log + [c]) && NoneEmpty(cp.Contents())
      modifies this
      ensures Valid() && bindings == cp && first == old(first) && log == old(log) + [c]
      ensures published == old(published) + [cp] && values == old(values) + [old(cp.Contents())]
    {
      hide Lined, Held;
      LinedGrows(bindings, first, log, published, values, c, cp, cp.Contents());
      HeldGrows(published, values, cp);
      ghost var tables, held := published + [cp], values + [cp.Contents()];
      assert forall t: Table, a: object :: t in tables && a in t.Arrays() ==> a != this;
      bindings := cp;
      log, published, values := log + [c], tables, held;
      assert Held(tables, held);
    }

    /** `Clone`: nothing is shared with the original. */
    method Clone() returns (out: NS)
      requires Valid()
      ensures fresh(out) && fresh(out.bindings) && fresh(out.bindings.Arrays())
      ensures out.Valid() && out.bindings.Contents() == bindings.Contents()
    {
      assert NoneEmpty(bindings.Contents());
      var b := Copy(bindings);
      out := new NS.From(b);
    }

    /** Any writers, one after the other: whoever holds an earlier map finds in it what was there. */
    method RunWriters(cs: seq<Change>)
      requires Valid()
      modifies this
      ensures Valid() && first == old(first) && log == old(log) + cs
      ensures |published| >= |old(published)| && published[..|old(published)|] == old(published)
      ensures forall i :: 0 <= i < |old(published)| ==> published[i].Contents() == old(published[i].Contents())
      ensures bindings.Contents() == Fold(first, log)
    {
      hide Apply, NoneEmpty, Fold;
      ghost var held := published;
      ghost var was := values;
      for i := 0 to |cs|
        invariant Valid() && first == old(first) && log == old(log) + cs[..i]
        invariant |published| >= |held| && published[..|held|] == held && values[..|held|] == was
      {
        assert cs[..i + 1] == cs[..i] + [cs[i]];
        Mutate(cs[i]);
      }
      assert cs[..|cs|] == cs && log[..|log|] == log;
      assert forall i :: 0 <= i < |held| ==> published[i] == published[..|held|][i] && values[i] == values[..|held|][i];
    }
  }
}
