/** The reference table between Go and JavaScript: values by id, ids by value, counts, and a pool of
    free ids. */
module WasmRefs {

  datatype Js =
    | Undefined | NotANumber | Number(x: real) | Null | Bool(b: bool)
    | Text(s: string) | Object(key: nat) | Symbol(key: nat) | Function(key: nat)

  /** Eight bytes in Go's memory: a number, or a NaN that carries a type and an id. */
  datatype Word = Float(x: real) | Ref(flag: nat, id: nat)

  /** A count, or the infinity of a predefined value. */
  datatype Count = Forever | Times(n: int)

  const PREDEFINED: nat := 7

  /** The values Go has from the start, by id. */
  function Predefined(): seq<Js> {
    [NotANumber, Number(0.0), Null, Bool(true), Bool(false), Object(0), Object(1)]
  }

  function TypeFlag(v: Js): nat {
    match v
    case Object(_) => 1
    case Text(_) => 2
    case Symbol(_) => 3
    case Function(_) => 4
    case _ => 0
  }

  /** Values that need no entry. */
  predicate Inline(v: Js) { v.Undefined? || v.NotANumber? || (v.Number? && v.x != 0.0) }

  /** The tables.  `out` is every reference handed to Go and not finalized, with its value. */
  datatype Refs = Refs(values: seq<Js>, counts: seq<Count>, ids: map<Js, nat>, pool: seq<nat>, out: multiset<(nat, Js)>)

  function Start(): Refs {
    Refs(Predefined(),
         [Forever, Forever, Forever, Forever, Forever, Forever, Forever],
         map[Number(0.0) := 1, Null := 2, Bool(true) := 3, Bool(false) := 4, Object(0) := 5, Object(1) := 6],
         [], multiset{})
  }

  /** The id is the id of its value. */
  predicate Live(r: Refs, i: nat) {
    i < |r.values| && r.values[i] in r.ids && r.ids[r.values[i]] == i
  }

  /** References out for an id. */
  function Out(r: Refs, i: nat): nat
    requires i < |r.values|
  {
    r.out[(i, r.values[i])]
  }

  /** `ids` and `values` are inverse on live ids. */
  predicate Inverse(r: Refs) {
    && |r.counts| == |r.values|
    && (forall v :: v in r.ids ==> 1 <= r.ids[v] < |r.values| && r.values[r.ids[v]] == v && !Inline(v))
  }

  /** The pool holds each dead id exactly once, and no live one. */
  predicate PoolOk(r: Refs) {
    && (forall k :: 0 <= k < |r.pool| ==> PREDEFINED <= r.pool[k] < |r.values|)
    && (forall k, l :: 0 <= k < l < |r.pool| ==> r.pool[k] != r.pool[l])
    && (forall i :: 1 <= i < |r.values| ==> (Live(r, i) <==> i !in r.pool))
  }

  /** The predefined ids are never freed. */
  predicate FixedOk(r: Refs) {
    && |r.values| >= PREDEFINED && |r.counts| >= PREDEFINED
    && (forall i :: 0 <= i < PREDEFINED ==> r.values[i] == Predefined()[i] && r.counts[i] == Forever && (i > 0 ==> Live(r, i)))
  }

  /** A live id counts the references that are out for it, at least one but for those in `made`. */
  predicate CountsOk(r: Refs, made: set<nat>) {
    |r.counts| == |r.values| &&
    forall i :: PREDEFINED <= i < |r.values| && Live(r, i) ==> r.counts[i] == Times(Out(r, i)) && (Out(r, i) > 0 || i in made)
  }

  /** A reference that is out is to a live id with the value it was made from. */
  predicate OutOk(r: Refs) {
    forall x :: x in r.out ==> 1 <= x.0 < |r.values| && r.values[x.0] == x.1 && Live(r, x.0)
  }

  predicate Sound(r: Refs, made: set<nat>) {
    Inverse(r) && PoolOk(r) && FixedOk(r) && CountsOk(r, made) && OutOk(r)
  }

  // ---------------------------------------------------------------------------- operations

  /** A new entry for `v`: a free id, the last of the pool, or the next one. */
  function Make(r: Refs, v: Js): (Refs, nat) {
    if r.pool != [] && r.pool[|r.pool| - 1] < |r.values| && |r.counts| == |r.values| then
      var id := r.pool[|r.pool| - 1];
      (Refs(r.values[id := v], r.counts[id := Times(0)], r.ids[v := id], r.pool[..|r.pool| - 1], r.out), id)
    else
      (Refs(r.values + [v], r.counts + [Times(0)], r.ids[v := |r.values|], r.pool, r.out), |r.values|)
  }

  function Bump(c: Count, delta: int): Count { if c.Times? then Times(c.n + delta) else c }

  /** One more reference to `id`. */
  function Issue(r: Refs, id: nat, v: Js): Refs
    requires id < |r.counts|
  {
    r.(counts := r.counts[id := Bump(r.counts[id], 1)], out := r.out + multiset{(id, v)})
  }

  /** One reference to `id` fewer; the last one frees it. */
  function Finalized(r: Refs, id: nat, v: Js): Refs
    requires id < |r.counts| && id < |r.values|
  {
    var c := Bump(r.counts[id], -1);
    var r1 := r.(counts := r.counts[id := c], out := r.out - multiset{(id, v)});
    if c == Times(0) then r1.(values := r.values[id := Null], ids := r.ids - {r.values[id]}, pool := r.pool + [id]) else r1
  }

  lemma StartIsSound()
    ensures Sound(Start(), {})
  {
    hide Inverse, PoolOk, FixedOk, CountsOk, OutOk;
    StartInverse();
    StartPool();
    StartRest();
  }

  lemma StartInverse()
    ensures Inverse(Start())
  {
    var r := Start();
    assert r.ids.Keys == {Number(0.0), Null, Bool(true), Bool(false), Object(0), Object(1)};
    assert r.values[1] == Number(0.0) && r.values[2] == Null && r.values[3] == Bool(true);
    assert r.values[4] == Bool(false) && r.values[5] == Object(0) && r.values[6] == Object(1);
  }

  lemma StartPool()
    ensures PoolOk(Start())
  {
    var r := Start();
    assert Live(r, 1) && Live(r, 2) && Live(r, 3);
    assert Live(r, 4) && Live(r, 5) && Live(r, 6);
  }

  lemma StartRest()
    ensures FixedOk(Start()) && CountsOk(Start(), {}) && OutOk(Start())
  {
    var r := Start();
    assert Live(r, 1) && Live(r, 2) && Live(r, 3);
    assert Live(r, 4) && Live(r, 5) && Live(r, 6);
  }

  lemma MakeIsSound(r: Refs, v: Js)
    requires Sound(r, {}) && v !in r.ids && !Inline(v)
    ensures var (r', id) := Make(r, v);
            && Sound(r', {id}) && r'.out == r.out && PREDEFINED <= id < |r'.values| && r'.values[id] == v && v in r'.ids && r'.ids[v] == id
  {
    var (r', id) := Make(r, v);
    assert forall i :: 1 <= i < |r.values| && i != id ==> Live(r', i) == Live(r, i);
    assert id < |r.values| ==> id in r.pool && !Live(r, id);
    forall x | x in r.out ensures x.0 != id {
    }
    MakePool(r, v);
    MakeCounts(r, v);
  }

  lemma MakePool(r: Refs, v: Js)
    requires Inverse(r) && PoolOk(r) && FixedOk(r) && v !in r.ids && !Inline(v)
    ensures PoolOk(Make(r, v).0) && Inverse(Make(r, v).0) && FixedOk(Make(r, v).0)
  {
    MakeInverse(r, v);
    MakePooled(r, v);
    MakeFixed(r, v);
    hide Make;
  }

  lemma MakeInverse(r: Refs, v: Js)
    requires Inverse(r) && PoolOk(r) && |r.values| >= PREDEFINED && v !in r.ids && !Inline(v)
    ensures Inverse(Make(r, v).0)
  {
    var (r', id) := Make(r, v);
    assert id < |r.values| ==> id in r.pool && !Live(r, id);
    forall u | u in r.ids ensures r.ids[u] != id {
      assert Live(r, r.ids[u]);
    }
  }

  lemma MakePooled(r: Refs, v: Js)
    requires Inverse(r) && PoolOk(r) && |r.values| >= PREDEFINED && v !in r.ids
    ensures PoolOk(Make(r, v).0)
  {
    var (r', id) := Make(r, v);
    assert forall i :: 1 <= i < |r.values| && i != id ==> Live(r', i) == Live(r, i);
    assert Live(r', id);
    if r.pool != [] {
      assert id == r.pool[|r.pool| - 1] && id in r.pool;
      assert forall i :: i in r'.pool <==> i in r.pool && i != id;
    }
    hide Make, Live;
  }

  lemma MakeFixed(r: Refs, v: Js)
    requires Inverse(r) && PoolOk(r) && FixedOk(r) && v !in r.ids
    ensures FixedOk(Make(r, v).0)
  {
    var (r', id) := Make(r, v);
    assert forall i :: 1 <= i < PREDEFINED ==> Live(r, i);
    hide PoolOk;
  }

  lemma MakeCounts(r: Refs, v: Js)
    requires Sound(r, {}) && v !in r.ids && !Inline(v)
    ensures CountsOk(Make(r, v).0, {Make(r, v).1}) && OutOk(Make(r, v).0)
  {
    hide CountsOk, OutOk;
    var (r', id) := Make(r, v);
    assert id >= 1 && (id < |r.values| ==> id in r.pool && !Live(r, id));
    assert forall i :: 0 <= i < |r.values| && i != id ==> r'.values[i] == r.values[i] && (i >= 1 ==> Live(r', i) == Live(r, i));
    hide Make, PoolOk, Inverse;
    MadeCounts(r, r', id, v);
  }

  lemma MadeCounts(r: Refs, r': Refs, id: nat, v: Js)
    requires CountsOk(r, {}) && OutOk(r) && id <= |r.values| && (1 <= id < |r.values| ==> !Live(r, id)) && id >= 1
    requires |r'.values| == |r'.counts| == if id < |r.values| then |r.values| else |r.values| + 1
    requires forall i :: 0 <= i < |r.values| && i != id ==>
      r'.values[i] == r.values[i] && r'.counts[i] == r.counts[i] && (i >= 1 ==> Live(r', i) == Live(r, i))
    requires r'.values[id] == v && r'.counts[id] == Times(0) && r'.out == r.out
    ensures CountsOk(r', {id}) && OutOk(r')
  {
    assert (id, v) !in r.out;
  }

  lemma IssueIsSound(r: Refs, id: nat, v: Js, made: set<nat>)
    requires Sound(r, made) && made <= {id} && 1 <= id < |r.values| && r.values[id] == v && Live(r, id)
    ensures Sound(Issue(r, id, v), {})
  {
    var r' := Issue(r, id, v);
    assert forall i :: 0 <= i < |r.values| ==> Live(r', i) == Live(r, i);
    assert forall i :: 0 <= i < |r.values| ==> Out(r', i) == Out(r, i) + if i == id then 1 else 0;
  }

  lemma FinalizedIsSound(r: Refs, id: nat, v: Js)
    requires Sound(r, {}) && (id, v) in r.out
    ensures Sound(Finalized(r, id, v), {})
    ensures var r' := Finalized(r, id, v);
            && (id < PREDEFINED ==> r'.values == r.values && r'.ids == r.ids && r'.pool == r.pool)
            && (id >= PREDEFINED ==> (v in r'.ids <==> (id, v) in r'.out))
  {
    assert Live(r, id) && r.values[id] == v;
    if id >= PREDEFINED && Out(r, id) == 1 {
      LastGoes(r, id, v);
    } else {
      MoreStay(r, id, v);
    }
    hide Inverse, PoolOk, CountsOk, OutOk;
  }

  /** While other references to an id are out, or if it is predefined, only the count changes. */
  lemma MoreStay(r: Refs, id: nat, v: Js)
    requires Sound(r, {}) && (id, v) in r.out && Live(r, id) && r.values[id] == v && (id < PREDEFINED || Out(r, id) > 1)
    ensures var r' := Finalized(r, id, v);
            Sound(r', {}) && r'.values == r.values && r'.ids == r.ids && r'.pool == r.pool && (id >= PREDEFINED ==> (id, v) in r'.out)
  {
    var r' := Finalized(r, id, v);
    NotFreed(r, id, v);
    hide Finalized, Inverse, PoolOk, FixedOk, CountsOk, OutOk;
    OneLess(r, r', id, v);
    StayCounts(r, r', id, v);
    StayInOrder(r, r', id);
  }

  lemma NotFreed(r: Refs, id: nat, v: Js)
    requires FixedOk(r) && CountsOk(r, {}) && id < |r.values| && Live(r, id) && r.values[id] == v && (id < PREDEFINED || Out(r, id) > 1)
    requires (id, v) in r.out
    ensures var r' := Finalized(r, id, v);
            r' == r.(counts := r.counts[id := Bump(r.counts[id], -1)], out := r.out - multiset{(id, v)})
    ensures id >= PREDEFINED ==> (id, v) in Finalized(r, id, v).out
  {
  }

  lemma StayInOrder(r: Refs, r': Refs, id: nat)
    requires Inverse(r) && PoolOk(r) && FixedOk(r) && id < |r.counts|
    requires r'.values == r.values && r'.ids == r.ids && r'.pool == r.pool && r'.counts == r.counts[id := Bump(r.counts[id], -1)]
    ensures Inverse(r') && PoolOk(r') && FixedOk(r')
  {
    assert forall i :: 0 <= i < |r.values| ==> Live(r', i) == Live(r, i);
  }

  lemma StayCounts(r: Refs, r': Refs, id: nat, v: Js)
    requires CountsOk(r, {}) && OutOk(r) && FixedOk(r) && id < |r.values| && r.values[id] == v && Live(r, id) && (id, v) in r.out
    requires r'.values == r.values && r'.ids == r.ids && r'.counts == r.counts[id := Bump(r.counts[id], -1)]
    requires id < PREDEFINED || r.out[(id, v)] > 1
    requires forall i :: 0 <= i < |r.values| ==> r.out[(i, r.values[i])] == r'.out[(i, r.values[i])] + if i == id then 1 else 0
    requires forall x :: x in r'.out ==> x in r.out
    ensures CountsOk(r', {}) && OutOk(r')
  {
    assert forall i :: 0 <= i < |r.values| ==> Live(r', i) == Live(r, i);
    hide FixedOk;
  }

  lemma OneLess(r: Refs, r': Refs, id: nat, v: Js)
    requires r'.out == r.out - multiset{(id, v)} && (id, v) in r.out && id < |r.values| && r.values[id] == v
    ensures forall i :: 0 <= i < |r.values| ==> r.out[(i, r.values[i])] == r'.out[(i, r.values[i])] + if i == id then 1 else 0
    ensures forall x :: x in r'.out ==> x in r.out
  {
  }

  /** The last reference to an id frees it. */
  lemma LastGoes(r: Refs, id: nat, v: Js)
    requires Sound(r, {}) && (id, v) in r.out && id >= PREDEFINED && Live(r, id) && r.values[id] == v && Out(r, id) == 1
    ensures Sound(Finalized(r, id, v), {}) && v !in Finalized(r, id, v).ids && (id, v) !in Finalized(r, id, v).out
  {
    hide Inverse, PoolOk, FixedOk, OutOk;
    var r' := Finalized(r, id, v);
    OneLess(r, r', id, v);
    NotNull(r, id, v);
    Freed(r, r', id, v);
    FreedCounts(r, r', id, v);
  }

  lemma NotNull(r: Refs, id: nat, v: Js)
    requires FixedOk(r) && Inverse(r) && PREDEFINED <= id < |r.values| && Live(r, id) && r.values[id] == v
    ensures v != Null && |r.counts| == |r.values|
  {
    assert Live(r, 2) && r.values[2] == Null;
  }

  lemma Freed(r: Refs, r': Refs, id: nat, v: Js)
    requires Inverse(r) && PoolOk(r) && FixedOk(r) && PREDEFINED <= id < |r.values| && Live(r, id) && r.values[id] == v && v != Null
    requires r'.values == r.values[id := Null] && r'.ids == r.ids - {v} && r'.pool == r.pool + [id]
    requires r'.counts == r.counts[id := Times(0)]
    ensures Inverse(r') && PoolOk(r') && FixedOk(r')
    ensures forall i :: 1 <= i < |r.values| && i != id ==> Live(r', i) == Live(r, i)
    ensures !Live(r', id)
  {
    assert Live(r, 2) && r.values[2] == Null;
    assert forall i :: 1 <= i < |r.values| && i != id ==> Live(r', i) == Live(r, i);
    assert !Live(r', id) && id !in r.pool;
    assert forall i :: i in r'.pool <==> i in r.pool || i == id;
  }

  lemma FreedCounts(r: Refs, r': Refs, id: nat, v: Js)
    requires CountsOk(r, {}) && OutOk(r) && PREDEFINED <= id < |r.values| && r.values[id] == v && r.out[(id, v)] == 1
    requires r'.values == r.values[id := Null] && r'.counts == r.counts[id := Times(0)] && r'.out == r.out - multiset{(id, v)}
    requires forall i :: 1 <= i < |r.values| && i != id ==> Live(r', i) == Live(r, i)
    requires !Live(r', id)
    requires forall i :: 0 <= i < |r.values| ==> r.out[(i, r.values[i])] == r'.out[(i, r.values[i])] + if i == id then 1 else 0
    ensures CountsOk(r', {}) && OutOk(r') && (id, v) !in r'.out
  {
    assert r'.out[(id, v)] == 0;
    forall x | x in r'.out ensures x in r.out && x.0 != id {
      assert x in r.out;
    }
  }

  // -------------------------------------------------------------------------------- the class

  class Table {
    var values: seq<Js>
    var counts: seq<Count>
    var ids: map<Js, nat>
    var pool: seq<nat>
    ghost var out: multiset<(nat, Js)>

    ghost function Now(): Refs
      reads this
    {
      Refs(values, counts, ids, pool, out)
    }

    constructor ()
      ensures Now() == Start() && Sound(Now(), {})
      ensures values == [NotANumber, Number(0.0), Null, Bool(true), Bool(false), Object(0), Object(1)]
      ensures pool == [] && out == multiset{} && ids.Keys == set i | 1 <= i < |values| :: values[i]
    {
      values := Predefined();
      counts := [Forever, Forever, Forever, Forever, Forever, Forever, Forever];
      ids := map[Number(0.0) := 1, Null := 2, Bool(true) := 3, Bool(false) := 4, Object(0) := 5, Object(1) := 6];
      pool, out := [], multiset{};
      new;
      StartIsSound();
    }

    method LoadValue(w: Word) returns (v: Js)
      requires w.Ref? ==> w.id < |values|
      ensures v == if w.Float? then (if w.x == 0.0 then Undefined else Number(w.x)) else values[w.id]
    {
      if w.Float? {
        if w.x == 0.0 {
          return Undefined;
        }
        return Number(w.x);
      }
      v := values[w.id];
    }

    method NewId(v: Js) returns (id: nat)
      requires Sound(Now(), {}) && v !in ids && !Inline(v)
      modifies this
      ensures (Now(), id) == Make(old(Now()), v)
      ensures id == if old(pool) != [] then old(pool)[|old(pool)| - 1] else |old(values)|
    {
      if |pool| > 0 {
        id := pool[|pool| - 1];
        pool := pool[..|pool| - 1];
        values := values[id := v];
        counts := counts[id := Times(0)];
      } else {
        id := |values|;
        values := values + [v];
        counts := counts + [Times(0)];
      }
      ids := ids[v := id];
    }

    /** `storeValue`: a word that loads as the value; unless the value is inline, one more reference to its
        id is out. */
    method StoreValue(v: Js) returns (w: Word)
      requires Sound(Now(), {})
      modifies this
      ensures Sound(Now(), {})
      ensures w.Float? ==> v == if w.x == 0.0 then Undefined else Number(w.x)
      ensures w.Ref? ==> w.id < |values| && values[w.id] == v
      ensures w.Ref? ==>
        w.flag == match v case Object(_) => 1 case Text(_) => 2 case Symbol(_) => 3 case Function(_) => 4 case _ => 0
      ensures v.NotANumber? ==> w == Ref(0, 0)
      ensures !Inline(v) && v !in old(ids) ==> w.id == if old(pool) != [] then old(pool)[|old(pool)| - 1] else |old(values)|
      ensures Inline(v) ==> Now() == old(Now())
      ensures !Inline(v) ==> w.Ref? && out == old(out) + multiset{(w.id, v)}
      ensures !Inline(v) && v in old(ids) ==> w.id == old(ids)[v] && Now() == Issue(old(Now()), w.id, v)
      ensures !Inline(v) && v !in old(ids) ==> var (made, id) := Make(old(Now()), v); w.id == id && Now() == Issue(made, id, v)
    {
      hide Sound;
      FixedValues(Now());
      if v.Number? && v.x != 0.0 {
        return Float(v.x);
      }
      if v.NotANumber? {
        return Ref(0, 0);
      }
      if v.Undefined? {
        return Float(0.0);
      }
      var id: nat;
      ghost var made: set<nat> := {};
      if v in ids {
        id := ids[v];
        Known(Now(), v);
      } else {
        MakeIsSound(Now(), v);
        id := NewId(v);
        made := {id};
        MadeIsLive(Now(), id, v);
      }
      IssueIsSound(Now(), id, v, made);
      if counts[id].Times? {
        counts := counts[id := Times(counts[id].n + 1)];
      } else {
        assert counts == counts[id := counts[id]];
      }
      out := out + multiset{(id, v)};
      w := Ref(TypeFlag(v), id);
    }

    /** `finalizeRef` of a reference that is out: the last one frees the id; predefined ids stay. */
    method FinalizeRef(id: nat, ghost v: Js)
      requires Sound(Now(), {}) && (id, v) in out
      modifies this
      ensures Sound(Now(), {}) && Now() == Finalized(old(Now()), id, v)
      ensures id < PREDEFINED ==> ids == old(ids) && values == old(values) && pool == old(pool)
      ensures id >= PREDEFINED ==> (v in ids <==> (id, v) in out)
      ensures out == old(out) - multiset{(id, v)}
      ensures id >= PREDEFINED && (id, v) !in out ==> pool == old(pool) + [id]
    {
      hide Sound;
      ReferenceIsKnown(Now(), id, v);
      FinalizedIsSound(Now(), id, v);
      CountIsOut(Now(), id, v);
      if counts[id].Times? {
        counts := counts[id := Times(counts[id].n - 1)];
      } else {
        assert counts == counts[id := counts[id]];
      }
      out := out - multiset{(id, v)};
      if counts[id] == Times(0) {
        var was := values[id];
        values := values[id := Null];
        ids := ids - {was};
        pool := pool + [id];
      }
    }

    /** Every reference that is out loads the value it was made from. */
    method LoadReference(id: nat, ghost v: Js) returns (u: Js)
      requires Sound(Now(), {}) && (id, v) in out
      ensures u == v
    {
      ReferenceIsKnown(Now(), id, v);
      u := LoadValue(Ref(0, id));
    }
  }

  lemma FixedValues(r: Refs)
    requires Sound(r, {})
    ensures |r.values| >= PREDEFINED && r.values[0] == NotANumber && |r.counts| == |r.values|
  {
  }

  lemma Known(r: Refs, v: Js)
    requires Sound(r, {}) && v in r.ids
    ensures var id := r.ids[v]; 1 <= id < |r.values| && r.values[id] == v && Live(r, id)
  {
  }

  lemma MadeIsLive(r: Refs, id: nat, v: Js)
    requires Sound(r, {id}) && PREDEFINED <= id < |r.values| && r.values[id] == v && v in r.ids && r.ids[v] == id
    ensures Live(r, id) && |r.counts| == |r.values|
  {
  }

  lemma CountIsOut(r: Refs, id: nat, v: Js)
    requires Sound(r, {}) && (id, v) in r.out
    ensures id < |r.counts| && (id >= PREDEFINED ==> r.counts[id] == Times(r.out[(id, v)]))
  {
    assert (id, v) in r.out;
  }

  lemma ReferenceIsKnown(r: Refs, id: nat, v: Js)
    requires Sound(r, {}) && (id, v) in r.out
    ensures 1 <= id < |r.values| && r.values[id] == v && |r.counts| == |r.values|
  {
    assert (id, v) in r.out;
  }
}
