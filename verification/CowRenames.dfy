/** The rename map of the copy-on-write file system and the loop that follows it. */
module CowRenames {
  import opened Paths

  type Renames = map<Path, Path>

  datatype Resolved = At(path: Path) | Invalid

  const MAX_HOPS: nat := 1000

  /** `n` renames can be followed from `p`. */
  predicate Chain(m: Renames, p: Path, n: nat)
    decreases n
  {
    n == 0 || (p in m && Chain(m, m[p], n - 1))
  }

  function Follow(m: Renames, p: Path, n: nat): Path
    requires Chain(m, p, n)
    decreases n
  {
    if n == 0 then p else Follow(m, m[p], n - 1)
  }

  lemma {:induction false} ChainStep(m: Renames, p: Path, n: nat)
    requires Chain(m, p, n)
    ensures Chain(m, p, n + 1) <==> Follow(m, p, n) in m
    ensures Follow(m, p, n) in m ==> Follow(m, p, n + 1) == m[Follow(m, p, n)]
    decreases n
  {
    if n > 0 {
      ChainStep(m, m[p], n - 1);
    }
  }

  lemma {:induction false} ChainShorter(m: Renames, p: Path, n: nat, k: nat)
    requires Chain(m, p, n) && k <= n
    ensures Chain(m, p, k)
    decreases n
  {
    if k > 0 {
      ChainShorter(m, m[p], n - 1, k - 1);
    }
  }

  lemma {:induction false} ChainJoins(m: Renames, p: Path, i: nat, j: nat)
    requires Chain(m, p, i)
    ensures Chain(m, p, i + j) <==> Chain(m, Follow(m, p, i), j)
    ensures Chain(m, p, i + j) ==> Follow(m, p, i + j) == Follow(m, Follow(m, p, i), j)
    decreases i
  {
    if i > 0 {
      ChainJoins(m, m[p], i - 1, j);
    }
  }

  /** A path that comes back never ends. */
  lemma {:induction false} LoopGoesOn(m: Renames, p: Path, c: nat, n: nat)
    requires c > 0 && Chain(m, p, c) && Follow(m, p, c) == p
    ensures Chain(m, p, n)
  {
    if n <= c {
      ChainShorter(m, p, c, n);
    } else {
      LoopGoesOn(m, p, c, n - c);
      ChainJoins(m, p, c, n - c);
    }
  }

  lemma CycleGoesOn(m: Renames, p: Path, i: nat, j: nat, n: nat)
    requires i < j && Chain(m, p, j) && (ChainShorter(m, p, j, i); Follow(m, p, i) == Follow(m, p, j))
    ensures Chain(m, p, n)
  {
    ChainShorter(m, p, j, i);
    var q := Follow(m, p, i);
    ChainJoins(m, p, i, j - i);
    LoopGoesOn(m, q, j - i, n);
    if n >= i {
      LoopGoesOn(m, q, j - i, n - i);
      ChainJoins(m, p, i, n - i);
    } else {
      ChainShorter(m, p, i, n);
    }
  }

  /** The terminal path, or nothing when the renames never end or go on for too long. */
  function Resolve(m: Renames, p: Path, hops: nat): Resolved
    decreases MAX_HOPS - hops
  {
    if hops >= MAX_HOPS then Invalid
    else if p in m then Resolve(m, m[p], hops + 1)
    else At(p)
  }

  lemma {:induction false} ResolveFollows(m: Renames, p: Path, hops: nat, n: nat)
    requires Chain(m, p, n) && hops + n <= MAX_HOPS
    ensures Resolve(m, p, hops) == Resolve(m, Follow(m, p, n), hops + n)
    decreases n
  {
    if n > 0 {
      ResolveFollows(m, m[p], hops + 1, n - 1);
    }
  }

  /** The loop of `resolveTerminal`: it ends on every map, and fails exactly when a thousand renames can
      be followed, which is the case on every cycle. */
  method ResolveTerminal(m: Renames, path: Path) returns (r: Resolved)
    ensures r == Resolve(m, path, 0)
    ensures r.Invalid? <==> Chain(m, path, 1000)
    ensures r.At? ==> r.path !in m && exists n: nat :: n < 1000 && Chain(m, path, n) && Follow(m, path, n) == r.path
  {
    var seen: seq<Path> := [];
    var cur, hops := path, 0;
    while true
      invariant hops == |seen| <= MAX_HOPS
      invariant Chain(m, path, hops) && Follow(m, path, hops) == cur
      invariant forall i :: 0 <= i < hops ==> Chain(m, path, i) && seen[i] == Follow(m, path, i)
      decreases MAX_HOPS - hops
    {
      ResolveFollows(m, path, 0, hops);
      hops := hops + 1;
      if hops > MAX_HOPS {
        return Invalid;
      }
      if cur in seen {
        var i :| 0 <= i < |seen| && seen[i] == cur;
        CycleGoesOn(m, path, i, hops - 1, MAX_HOPS);
        ResolveFollows(m, path, 0, MAX_HOPS);
        return Invalid;
      }
      seen := seen + [cur];
      ChainStep(m, path, hops - 1);
      if cur in m {
        if m[cur] == cur {
          CycleGoesOn(m, path, hops - 1, hops, MAX_HOPS);
          ResolveFollows(m, path, 0, MAX_HOPS);
          return Invalid;
        }
        cur := m[cur];
        continue;
      }
      if Chain(m, path, MAX_HOPS) {
        ChainShorter(m, path, MAX_HOPS, hops);
      }
      return At(cur);
    }
  }

  // ---------------------------------------------------------------------- flat rename maps

  /** No destination is itself renamed, and nothing is renamed to itself. */
  predicate Flat(m: Renames) { forall k :: k in m ==> m[k] !in m }

  /** Where a path leads in a flat map. */
  function Terminal(m: Renames, p: Path): Path { if p in m then m[p] else p }

  lemma FlatResolves(m: Renames, p: Path)
    requires Flat(m)
    ensures Resolve(m, p, 0) == At(Terminal(m, p))
  {
    if p in m {
      assert Resolve(m, p, 0) == Resolve(m, m[p], 1);
    }
  }

  /** The map after `oldname`, which led to `src`, was renamed to `newname`. */
  function Redirected(m: Renames, oldname: Path, src: Path, newname: Path, srcInBase: bool): Renames {
    var moved := map k | k in m :: if m[k] == src then newname else m[k];
    if srcInBase then moved[oldname := newname] else moved
  }

  /** A rename to a fresh name keeps the map flat; every alias of the source but the source itself now
      leads to the new name, and all other paths lead where they led. */
  lemma RedirectedIsFlat(m: Renames, oldname: Path, newname: Path, srcInBase: bool)
    requires Flat(m) && newname !in m && newname != Terminal(m, oldname)
    ensures var src := Terminal(m, oldname); var m' := Redirected(m, oldname, src, newname, srcInBase);
            && Flat(m')
            && (forall q :: q != src && Terminal(m, q) == src ==> Terminal(m', q) == newname)
            && (forall q :: q != src && Terminal(m, q) != src ==> Terminal(m', q) == Terminal(m, q))
            && Terminal(m', src) == (if srcInBase && oldname == src then newname else src)
  {
  }

  /** For a source that the base has, that condition is exact: renaming onto an alias, or to the old
      name itself, leaves a map that is not flat. */
  lemma FlatExactly(m: Renames, oldname: Path, newname: Path)
    requires Flat(m)
    ensures Flat(Redirected(m, oldname, Terminal(m, oldname), newname, true)) <==> newname !in m && newname != oldname
  {
    var m' := Redirected(m, oldname, Terminal(m, oldname), newname, true);
    assert oldname in m' && m'[oldname] == newname;
    if newname !in m && newname != oldname {
      assert forall k :: k in m' ==> m'[k] == newname || (k in m && m'[k] == m[k]);
    }
  }

  /** A file of the base that is renamed to its own name cannot be reached any more. */
  lemma RenamedToItself(m: Renames, p: Path)
    requires p !in m
    ensures Resolve(Redirected(m, p, p, p, true), p, 0) == Invalid
  {
    var m' := Redirected(m, p, p, p, true);
    assert m'[p] == p;
    SelfLoop(m', p, 0);
  }

  lemma {:induction false} SelfLoop(m: Renames, p: Path, hops: nat)
    requires p in m && m[p] == p && hops <= MAX_HOPS
    ensures Resolve(m, p, hops) == Invalid
    decreases MAX_HOPS - hops
  {
    if hops < MAX_HOPS {
      SelfLoop(m, p, hops + 1);
    }
  }

  /** The map after everything leading to `target` was forgotten. */
  function Forgotten(m: Renames, target: Path): Renames {
    map k | k in m && m[k] != target :: m[k]
  }

  lemma ForgottenIsFlat(m: Renames, target: Path)
    requires Flat(m)
    ensures Flat(Forgotten(m, target))
    ensures forall q :: Terminal(m, q) != target ==> Terminal(Forgotten(m, target), q) == Terminal(m, q)
    ensures forall q :: Terminal(m, q) == target ==> Terminal(Forgotten(m, target), q) == q
  {
  }
}
