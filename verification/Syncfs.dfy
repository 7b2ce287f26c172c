/** A local tree kept in step with a remote one.  The first synchronization scans both sides and compares
    times; later ones push what was recorded as changed and pull what the remote has that is newer or not
    here.  Times are whole seconds. */
module Syncfs {
  type Path = string

  datatype Entry = Entry(time: int, dir: bool, mode: nat, data: seq<int>)
  type Tree = map<Path, Entry>

  /** What was changed here since the last synchronization: whether the path exists now. */
  type Changes = map<Path, bool>

  datatype Option<T> = None | Some(value: T)

  /** The remote is ahead by two seconds or more, or alone. */
  predicate Pulls(local: Tree, remote: Tree, p: Path) {
    p in remote && (p !in local || remote[p].time - local[p].time >= 2)
  }

  /** The local side is ahead, or alone. */
  predicate Pushes(local: Tree, remote: Tree, p: Path) {
    p in local && (p !in remote || remote[p].time < local[p].time)
  }

  predicate Tombstoned(m: Changes, p: Path) { p in m && !m[p] }

  function PullSet(local: Tree, remote: Tree, m: Changes): set<Path> {
    set p | p in remote && Pulls(local, remote, p) && !Tombstoned(m, p)
  }

  function PushSet(local: Tree, remote: Tree): set<Path> { set p | p in local && Pushes(local, remote, p) }

  function AllTrue(s: set<Path>): Changes { map p | p in s :: true }

  /** What a synchronization pushes. */
  function Outgoing(local: Tree, remote: Tree, changes: Option<Changes>): Changes {
    match changes
    case None => AllTrue(PushSet(local, remote))
    case Some(m) => m
  }

  function Recorded(changes: Option<Changes>): Changes { if changes.None? then map[] else changes.value }

  /** What a path is once it is pulled: a directory that was there keeps its mode. */
  function Taken(local: Tree, remote: Tree, p: Path): Entry
    requires p in remote
  {
    if p in local && remote[p].dir then remote[p].(mode := local[p].mode) else remote[p]
  }

  /** The local side after `s` was pulled. */
  function Pulled(local: Tree, remote: Tree, s: set<Path>): Tree
    requires s <= remote.Keys
  {
    map p | p in local.Keys + s :: if p in s then Taken(local, remote, p) else local[p]
  }

  /** The remote side after a patch. */
  function Patched(remote: Tree, local: Tree, m: Changes): Tree
    requires forall p :: p in m && m[p] ==> p in local
  {
    map p | p in remote.Keys + m.Keys && !Tombstoned(m, p) :: if p in m then local[p] else remote[p]
  }

  /** Local directories may get later times by what happens in them. */
  function Bumped(local: Tree, bump: map<Path, int>): Tree {
    map p | p in local :: if p in bump then local[p].(time := bump[p]) else local[p]
  }

  predicate Bumps(local: Tree, bump: map<Path, int>) {
    forall p :: p in bump ==> p in local && local[p].dir && bump[p] >= local[p].time
  }

  // --------------------------------------------------------------------------- in step

  /** Both sides have a file, the same or the remote's ahead by less than two seconds, or both a directory,
      and the remote's is not ahead by more. */
  predicate Agree(here: Entry, there: Entry) {
    && here.dir == there.dir
    && if here.dir then here.data == there.data && there.time - here.time <= 1
       else here == there || 0 <= there.time - here.time <= 1
  }

  /** What is not recorded as changed agrees with the remote, and what is recorded is so here. */
  predicate Tracked(local: Tree, remote: Tree, m: Changes) {
    && (forall p :: p in local && p !in m ==> p in remote && Agree(local[p], remote[p]))
    && (forall p :: p in m ==> (m[p] <==> p in local))
    && (forall p :: p in m && m[p] && p in remote ==> local[p].dir == remote[p].dir && remote[p].time - local[p].time <= 1)
  }

  /** What the remote has, and neither the local side nor its record knows of. */
  function Lost(local: Tree, remote: Tree, m: Changes): set<Path> {
    set p | p in remote && p !in local && p !in m
  }

  /** The same paths, and every one agrees. */
  predicate InStep(local: Tree, remote: Tree) {
    local.Keys == remote.Keys && forall p :: p in local ==> Agree(local[p], remote[p])
  }

  /** No path is a directory on one side only, and directories have no bytes. */
  predicate SameKinds(local: Tree, remote: Tree) {
    && (forall p :: p in local && p in remote ==> local[p].dir == remote[p].dir)
    && (forall p :: p in local && local[p].dir ==> local[p].data == [])
    && (forall p :: p in remote && remote[p].dir ==> remote[p].data == [])
  }

  lemma ScansAreDisjoint(local: Tree, remote: Tree)
    ensures PullSet(local, remote, map[]) !! PushSet(local, remote)
  {
  }

  /** A path agrees; or was on both sides, the remote ahead by less than two seconds, and was left alone;
      or is a directory that was on both sides, the remote ahead by more, and agrees but for its mode. */
  predicate Settled(l: Tree, r: Tree, l': Tree, r': Tree, p: Path) {
    && p in l' && p in r'
    && (|| l'[p] == r'[p]
        || (p in l && p in r && 0 <= r[p].time - l[p].time <= 1 && l'[p] == l[p] && r'[p] == r[p])
        || (p in l && p in r && l[p].dir && r[p].time - l[p].time >= 2 && l'[p] == r[p].(mode := l[p].mode) && r'[p] == r[p]))
  }

  lemma PulledAt(l: Tree, r: Tree, s: set<Path>, bump: map<Path, int>, p: Path)
    requires s <= r.Keys && Bumps(Pulled(l, r, s), bump)
    ensures var l' := Bumped(Pulled(l, r, s), bump);
            && (p in l' <==> p in l || p in s)
            && (p in l' ==> var e := if p in s then Taken(l, r, p) else l[p];
                  && l'[p].dir == e.dir && l'[p].data == e.data && l'[p].mode == e.mode
                  && (if p in bump then e.dir && l'[p].time >= e.time else l'[p] == e))
  {
  }

  lemma PatchedAt(r: Tree, l: Tree, m: Changes, p: Path)
    requires forall q :: q in m && m[q] ==> q in l
    ensures var r' := Patched(r, l, m);
            (p in r' <==> if p in m then m[p] else p in r) && (p in r' ==> r'[p] == if p in m then l[p] else r[p])
  {
  }

  /** The first synchronization brings both sides in step. */
  lemma FirstInStep(l: Tree, r: Tree, bump: map<Path, int>)
    requires SameKinds(l, r) && Bumps(Pulled(l, r, PullSet(l, r, map[])), bump)
    ensures var m := AllTrue(PushSet(l, r));
            var l', r' := Bumped(Pulled(l, r, PullSet(l, r, map[])), bump), Patched(r, l, m);
            && InStep(l', r') && SameKinds(l', r') && l'.Keys == l.Keys + r.Keys
            && forall p :: p in l' && p !in bump ==> Settled(l, r, l', r', p)
  {
    var m := AllTrue(PushSet(l, r));
    var l', r' := Bumped(Pulled(l, r, PullSet(l, r, map[])), bump), Patched(r, l, m);
    forall p ensures p in l' <==> p in l || p in r
      ensures p in r' <==> p in l || p in r
      ensures p in l' ==> Agree(l'[p], r'[p]) && (l'[p].dir ==> l'[p].data == [] && r'[p].data == [])
      ensures p in l' && p !in bump ==> Settled(l, r, l', r', p)
    {
      PulledAt(l, r, PullSet(l, r, map[]), bump, p);
      PatchedAt(r, l, m, p);
      FirstAt(l, r, p);
      hide Bumped, Pulled, Patched, PullSet, PushSet;
    }
    hide Bumped, Pulled, Patched, PullSet, PushSet;
  }

  /** What a first synchronization makes of a path, by where it was and how far ahead the remote was: a path of
      one side goes to the other; two seconds or more and the remote's comes here, but for a directory's mode;
      behind by any time and the local side's goes there; in between both stay. */
  lemma FirstIs(l: Tree, r: Tree, bump: map<Path, int>, p: Path)
    requires SameKinds(l, r) && Bumps(Pulled(l, r, PullSet(l, r, map[])), bump)
    requires bump.Keys !! PullSet(l, r, map[])
    ensures var l', r' := Bumped(Pulled(l, r, PullSet(l, r, map[])), bump), Patched(r, l, AllTrue(PushSet(l, r)));
            && (p in l' <==> p in l || p in r) && (p in r' <==> p in l || p in r)
            && (p in r && p !in l ==> l'[p] == r'[p] == r[p])
            && (p in l ==>
                  && (p !in r || l[p].time > r[p].time ==> r'[p] == l[p])
                  && (p in r && l[p].time <= r[p].time ==> r'[p] == r[p])
                  && (if p in r && r[p].time - l[p].time >= 2
                      then l'[p] == Entry(r[p].time, r[p].dir, if r[p].dir then l[p].mode else r[p].mode, r[p].data)
                      else l'[p] == if p in bump then l[p].(time := bump[p]) else l[p]))
  {
    PulledAt(l, r, PullSet(l, r, map[]), bump, p);
    PatchedAt(r, l, AllTrue(PushSet(l, r)), p);
    FirstAt(l, r, p);
    hide Patched, PullSet, PushSet;
  }

  /** What a later one makes of a path: one recorded as changed goes to the remote or is deleted there, one the
      remote alone has and no record speaks of comes here, every other stays. */
  lemma LaterIs(l: Tree, r: Tree, m: Changes, bump: map<Path, int>, p: Path)
    requires Tracked(l, r, m) && Bumps(Pulled(l, r, Lost(l, r, m)), bump) && Bumps(l, bump)
    ensures var l', r' := Bumped(Pulled(l, r, Lost(l, r, m)), bump), Patched(r, l, m);
            && (p in l ==> p in l' && l'[p] == if p in bump then l[p].(time := bump[p]) else l[p])
            && (p in m ==> (p in r' <==> p in l) && (p in l ==> r'[p] == l[p]) && (p !in l ==> p !in l'))
            && (p !in m ==> (p in r' <==> p in r) && (p in r ==> r'[p] == r[p] && p in l' && (p !in l ==> l'[p] == r[p])))
            && (p !in m && p !in l && p !in r ==> p !in l')
  {
    PulledAt(l, r, Lost(l, r, m), bump, p);
    PatchedAt(r, l, m, p);
    hide Patched;
  }

  /** The mode of a directory that was on both sides is not pulled: both modes agree after a first
      synchronization exactly if they agreed before, or the local side was ahead. */
  lemma ModesAfter(l: Tree, r: Tree, bump: map<Path, int>, p: Path)
    requires SameKinds(l, r) && Bumps(Pulled(l, r, PullSet(l, r, map[])), bump) && p in l && p in r && l[p].dir
    ensures var m := AllTrue(PushSet(l, r));
            var l', r' := Bumped(Pulled(l, r, PullSet(l, r, map[])), bump), Patched(r, l, m);
            p in l' && p in r' && (l'[p].mode == r'[p].mode <==> l[p].mode == r[p].mode || l[p].time > r[p].time)
  {
    var m := AllTrue(PushSet(l, r));
    PulledAt(l, r, PullSet(l, r, map[]), bump, p);
    PatchedAt(r, l, m, p);
    FirstAt(l, r, p);
    hide Bumped, Pulled, Patched, PullSet, PushSet;
  }

  lemma FirstAt(l: Tree, r: Tree, p: Path)
    ensures p in PullSet(l, r, map[]) <==> p in r && (p !in l || r[p].time - l[p].time >= 2)
    ensures p in AllTrue(PushSet(l, r)) <==> p in l && (p !in r || r[p].time < l[p].time)
    ensures p in AllTrue(PushSet(l, r)) ==> AllTrue(PushSet(l, r))[p]
  {
  }

  /** A later one pulls exactly what is lost, and brings both sides in step: what was changed here is at
      the remote, what was removed is gone there, and but for what was lost nothing changes here. */
  lemma LaterInStep(l: Tree, r: Tree, m: Changes, bump: map<Path, int>)
    requires SameKinds(l, r) && Tracked(l, r, m) && Bumps(Pulled(l, r, Lost(l, r, m)), bump)
    ensures PullSet(l, r, m) == Lost(l, r, m)
    ensures var l', r' := Bumped(Pulled(l, r, Lost(l, r, m)), bump), Patched(r, l, m);
            && InStep(l', r') && SameKinds(l', r') && l'.Keys == l.Keys + Lost(l, r, m)
            && forall p :: p in m ==> (p in r' <==> p in l) && (p in r' ==> r'[p] == l[p])
  {
    OnlyLostIsPulled(l, r, m);
    var l', r' := Bumped(Pulled(l, r, Lost(l, r, m)), bump), Patched(r, l, m);
    forall p ensures p in l' <==> p in l || p in Lost(l, r, m)
      ensures p in l' <==> p in r'
      ensures p in m ==> (p in r' <==> p in l) && (p in r' ==> r'[p] == l[p])
      ensures p in l' ==> Agree(l'[p], r'[p]) && (l'[p].dir ==> l'[p].data == [] && r'[p].data == [])
    {
      PulledAt(l, r, Lost(l, r, m), bump, p);
      PatchedAt(r, l, m, p);
      hide Bumped, Pulled, Patched, PullSet;
    }
    hide Bumped, Pulled, Patched, PullSet, Lost;
  }

  lemma OnlyLostIsPulled(l: Tree, r: Tree, m: Changes)
    requires Tracked(l, r, m)
    ensures PullSet(l, r, m) == Lost(l, r, m)
  {
    forall p ensures p in PullSet(l, r, m) <==> p in Lost(l, r, m) {
    }
  }

  lemma InStepIsTracked(l: Tree, r: Tree)
    requires InStep(l, r)
    ensures Tracked(l, r, map[]) && Lost(l, r, map[]) == {}
  {
  }

  /** What is recorded of a change: a removal takes back an earlier change of the same path. */
  function Marked(m: Changes, p: Path, exists_: bool): Changes {
    if p in m && m[p] && !exists_ then m - {p} else m[p := exists_]
  }

  lemma PutIsTracked(l: Tree, r: Tree, m: Changes, p: Path, e: Entry, bump: map<Path, int>)
    requires Tracked(l, r, m) && Bumps(l[p := e], bump)
    requires p in r ==> e.dir == r[p].dir && r[p].time - e.time <= 1
    ensures var l' := Bumped(l[p := e], bump);
            Tracked(l', r, Marked(m, p, true)) && Lost(l', r, Marked(m, p, true)) == Lost(l, r, m) - {p}
  {
  }

  /** A removal loses a path exactly if it takes back a change of something the remote has. */
  lemma DropLoses(l: Tree, r: Tree, m: Changes, p: Path, bump: map<Path, int>)
    requires Tracked(l, r, m) && p in l && Bumps(l - {p}, bump)
    ensures var l', m' := Bumped(l - {p}, bump), Marked(m, p, false);
            && Tracked(l', r, m')
            && Lost(l', r, m') == Lost(l, r, m) + if p in m && m[p] && p in r then {p} else {}
  {
  }

  // -------------------------------------------------------------------------------- the class

  class SyncFS {
    var local: Tree
    var remote: Tree
    var changes: Option<Changes>    // absent before the first synchronization

    constructor (l: Tree, r: Tree)
      ensures local == l && remote == r && changes == None
    {
      local, remote, changes := l, r, None;
    }

    /** The walk over the remote's index; what was removed here is not pulled. */
    method PullScan() returns (dirs: set<Path>, files: set<Path>)
      ensures dirs + files == PullSet(local, remote, Recorded(changes)) && dirs !! files
      ensures forall p :: p in dirs ==> remote[p].dir
      ensures forall p :: p in files ==> !remote[p].dir
    {
      dirs, files := {}, {};
      ghost var wanted := PullSet(local, remote, Recorded(changes));
      var left := remote.Keys;
      while left != {}
        invariant left <= remote.Keys && wanted <= remote.Keys
        invariant forall p :: p in dirs <==> p in wanted && p !in left && remote[p].dir
        invariant forall p :: p in files <==> p in wanted && p !in left && !remote[p].dir
        decreases |left|
      {
        var p :| p in left;
        left := left - {p};
        if changes.Some? && p in changes.value && !changes.value[p] {
          continue;
        }
        var shouldPull := false;
        if p !in local {
          shouldPull := true;
        } else if local[p].time < remote[p].time {
          if remote[p].time - local[p].time >= 2 {
            shouldPull := true;
          }
        }
        if shouldPull {
          if remote[p].dir {
            dirs := dirs + {p};
          } else {
            files := files + {p};
          }
        }
      }
    }

    /** The walk over the local side, only the first time. */
    method PushScan()
      modifies this`changes
      ensures changes == Some(Outgoing(local, remote, old(changes)))
    {
      if changes.Some? {
        return;
      }
      var found: Changes := map[];
      var left := local.Keys;
      while left != {}
        invariant left <= local.Keys
        invariant found == AllTrue(PushSet(local, remote) - left)
        decreases |left|
      {
        var p :| p in left;
        left := left - {p};
        if p !in remote || remote[p].time < local[p].time {
          found := found[p := true];
        }
      }
      assert PushSet(local, remote) - left == PushSet(local, remote);
      changes := Some(found);
    }

    /** The patch sent to the remote: entries as they are here, and deletions. */
    method Push(m: Changes, from: Tree)
      requires forall p :: p in m && m[p] ==> p in from
      modifies this`remote
      ensures remote == Patched(old(remote), from, m)
    {
      ghost var was := remote;
      var left := m.Keys;
      while left != {}
        invariant left <= m.Keys
        invariant forall p :: p in remote <==> if p in m && p !in left then m[p] else p in was
        invariant forall p :: p in remote ==> remote[p] == if p in m && p !in left then from[p] else was[p]
        decreases |left|
      {
        var p :| p in left;
        left := left - {p};
        if !m[p] {
          remote := remote - {p};
        } else {
          remote := remote[p := from[p]];
        }
      }
      hide Tombstoned;
      PatchedIs(remote, was, from, m);
    }

    /** Directories that are not there are made, with the remote's mode. */
    method MakeDirs(dirs: set<Path>, from: Tree)
      requires dirs <= from.Keys
      modifies this`local
      ensures local.Keys == old(local).Keys + dirs
      ensures forall p :: p in local ==> local[p] == if p in old(local) then old(local)[p] else Entry(0, true, from[p].mode, [])
    {
      ghost var was := local;
      var left := dirs;
      while left != {}
        invariant left <= dirs && forall p :: p in local <==> p in was || (p in dirs && p !in left)
        invariant forall p :: p in local ==> local[p] == if p in was then was[p] else Entry(0, true, from[p].mode, [])
        decreases |left|
      {
        var p :| p in left;
        left := left - {p};
        if p !in local {
          local := local[p := Entry(0, true, from[p].mode, [])];
        }
      }
    }

    /** Files are copied, times and all, by any number of workers. */
    method CopyFiles(files: set<Path>, from: Tree)
      requires files <= from.Keys && forall p :: p in files ==> !from[p].dir
      modifies this`local
      ensures local == Pulled(old(local), from, files)
    {
      ghost var was := local;
      var left := files;
      while left != {}
        invariant left <= files && forall p :: p in local <==> p in was || (p in files && p !in left)
        invariant forall p :: p in local ==> local[p] == if p in files && p !in left then from[p] else was[p]
        decreases |left|
      {
        var p :| p in left;
        left := left - {p};
        local := local[p := from[p]];
      }
    }

    /** Directories get their times last. */
    method SetTimes(dirs: set<Path>, from: Tree)
      requires dirs <= from.Keys && dirs <= local.Keys
      modifies this`local
      ensures local.Keys == old(local).Keys
      ensures forall p :: p in local ==> local[p] == if p in dirs then old(local)[p].(time := from[p].time) else old(local)[p]
    {
      ghost var was := local;
      var left := dirs;
      while left != {}
        invariant left <= dirs && local.Keys == was.Keys
        invariant forall p :: p in local ==>
          local[p] == if p in dirs && p !in left then was[p].(time := from[p].time) else was[p]
        decreases |left|
      {
        var p :| p in left;
        left := left - {p};
        local := local[p := local[p].(time := from[p].time)];
      }
    }

    /** `bump` is what the times of the other directories become on the way. */
    method Pull(dirs: set<Path>, files: set<Path>, from: Tree, bump: map<Path, int>)
      requires dirs + files <= from.Keys && dirs !! files && SameKinds(local, from)
      requires (forall p :: p in dirs ==> from[p].dir) && (forall p :: p in files ==> !from[p].dir) && Bumps(local, bump) && bump.Keys !! dirs + files
      modifies this`local
      ensures local == Bumped(Pulled(old(local), from, dirs + files), bump)
    {
      hide Bumped, Pulled, SameKinds;
      ghost var l := local;
      MakeDirs(dirs, from);
      ghost var l1 := local;
      CopyFiles(files, from);
      ghost var l2 := local;
      local := Bumped(local, bump);
      ghost var l3 := local;
      KeysAfter(l1, from, files, bump);
      SetTimes(dirs, from);
      forall p ensures p in local <==> p in Bumped(Pulled(l, from, dirs + files), bump)
        ensures p in local ==> local[p] == Bumped(Pulled(l, from, dirs + files), bump)[p]
      {
        PullAt(l, l1, from, dirs, files, bump, p);
      }
    }

    /** `Sync` without failures.  Writes wait while it runs.  A change is not pending where the remote is
        ahead. */
    method Sync(bump: map<Path, int>) returns (pulled: set<Path>, pushed: Changes)
      requires SameKinds(local, remote)
      requires changes.Some? ==> forall p :: p in changes.value && changes.value[p] ==> p in local && !Pulls(local, remote, p)
      requires Bumps(local, bump) && bump.Keys !! PullSet(local, remote, Recorded(changes))
      modifies this
      ensures pulled == old(PullSet(local, remote, Recorded(changes)))
      ensures pushed == old(Outgoing(local, remote, changes))
      ensures local == Bumped(Pulled(old(local), old(remote), pulled), bump)
      ensures remote == Patched(old(remote), old(local), pushed)
      ensures changes == Some(map[])
    {
      hide PullSet, PushSet, SameKinds, Patched, Pulled, Bumped, Bumps, Pulls, AllTrue;
      var l, r := local, remote;
      PullsAreThere(l, r, Recorded(changes));
      var dirs, files := PullScan();
      PushScan();
      pulled, pushed := dirs + files, changes.value;
      PushedAreHere(l, r);
      if |pushed| > 0 {
        Push(pushed, l);
        changes := Some(map[]);
      } else {
        NothingPatched(r, l, pushed);
      }
      Pull(dirs, files, r, bump);
    }

    /** What is expected between synchronizations. */
    predicate Following()
      reads this
    {
      changes.Some? && SameKinds(local, remote) && Tracked(local, remote, changes.value)
    }

    /** The first synchronization. */
    method SyncFirst(bump: map<Path, int>) returns (pulled: set<Path>, pushed: Changes)
      requires changes.None? && SameKinds(local, remote)
      requires Bumps(local, bump) && bump.Keys !! PullSet(local, remote, map[])
      modifies this
      ensures pulled !! pushed.Keys && local.Keys == remote.Keys == old(local).Keys + old(remote).Keys
      ensures InStep(local, remote) && Following() && changes == Some(map[])
      ensures pulled == PullSet(old(local), old(remote), map[]) && pushed == AllTrue(PushSet(old(local), old(remote)))
      ensures local == Bumped(Pulled(old(local), old(remote), pulled), bump) && remote == Patched(old(remote), old(local), pushed)
      ensures forall p :: p in local && p !in bump ==> Settled(old(local), old(remote), local, remote, p)
    {
      ghost var l, r := local, remote;
      BumpsAfter(l, r, PullSet(l, r, map[]), bump);
      ScansAreDisjoint(l, r);
      FirstInStep(l, r, bump);
      pulled, pushed := Sync(bump);
      InStepIsTracked(local, remote);
    }

    /** A later one: exactly what was lost comes back, and if nothing was, the remote follows what was done
        here and nothing changes here. */
    method SyncLater(bump: map<Path, int>) returns (pulled: set<Path>, pushed: Changes)
      requires Following() && Bumps(local, bump)
      modifies this
      ensures pulled == old(Lost(local, remote, changes.value)) && pushed == old(changes.value)
      ensures local == Bumped(Pulled(old(local), old(remote), pulled), bump) && remote == Patched(old(remote), old(local), pushed)
      ensures InStep(local, remote) && Following() && changes == Some(map[])
      ensures forall p :: p in pushed ==> (p in remote <==> p in old(local)) && (p in remote ==> remote[p] == old(local)[p])
    {
      ghost var l, r, m := local, remote, changes.value;
      BumpsAfter(l, r, Lost(l, r, m), bump);
      LaterInStep(l, r, m, bump);
      NoConflict(l, r, m);
      hide Tracked, Lost, InStep, SameKinds;
      pulled, pushed := Sync(bump);
      InStepIsTracked(local, remote);
    }

    method Changed(p: Path, exists_: bool)
      requires changes.Some?
      modifies this`changes
      ensures changes == Some(Marked(old(changes.value), p, exists_))
    {
      var m := changes.value;
      if p in m && m[p] && !exists_ {
        changes := Some(m - {p});
        return;
      }
      changes := Some(m[p := exists_]);
    }

    /** `Create`, `Mkdir`, `Symlink`, `Chmod`, `Chown`, `Chtimes`, or the close of a file written to: `p`
        is `e` now. */
    method Put(p: Path, e: Entry, bump: map<Path, int>)
      requires Following() && Bumps(local[p := e], bump) && (e.dir ==> e.data == [])
      requires p in remote ==> e.dir == remote[p].dir && remote[p].time - e.time <= 1
      modifies this`local, this`changes
      ensures Following() && local == Bumped(old(local)[p := e], bump)
      ensures changes == Some(old(changes.value)[p := true])
      ensures Lost(local, remote, changes.value) == old(Lost(local, remote, changes.value)) - {p}
    {
      PutIsTracked(local, remote, changes.value, p, e, bump);
      hide Tracked, Lost;
      local := Bumped(local[p := e], bump);
      Changed(p, true);
    }

    /** `Remove`: the path is lost, and comes back with the next synchronization, exactly if it was changed
        since the last one and the remote has it. */
    method Remove(p: Path, bump: map<Path, int>)
      requires Following() && p in local && Bumps(local - {p}, bump)
      modifies this`local, this`changes
      ensures Following() && local == Bumped(old(local) - {p}, bump)
      ensures changes == Some(if p in old(changes.value) && old(changes.value)[p] then old(changes.value) - {p} else old(changes.value)[p := false])
      ensures Lost(local, remote, changes.value) ==
              old(Lost(local, remote, changes.value)) + if p in old(changes.value) && p in remote && old(changes.value)[p] then {p} else {}
    {
      DropLoses(local, remote, changes.value, p, bump);
      hide Tracked, Lost;
      local := Bumped(local - {p}, bump);
      Changed(p, false);
    }
  }

  lemma PatchedIs(r': Tree, r: Tree, l: Tree, m: Changes)
    requires forall p :: p in m && m[p] ==> p in l
    requires forall p :: p in r' <==> if p in m then m[p] else p in r
    requires forall p :: p in r' ==> r'[p] == if p in m then l[p] else r[p]
    ensures r' == Patched(r, l, m)
  {
    forall p ensures p in r' <==> p in Patched(r, l, m)
      ensures p in r' ==> r'[p] == Patched(r, l, m)[p]
    {
      PatchedAt(r, l, m, p);
    }
    hide Patched;
  }

  lemma KeysAfter(l: Tree, r: Tree, s: set<Path>, bump: map<Path, int>)
    requires s <= r.Keys
    ensures Bumped(Pulled(l, r, s), bump).Keys == l.Keys + s
  {
  }

  lemma NothingPatched(r: Tree, l: Tree, m: Changes)
    requires |m| == 0
    ensures Patched(r, l, m) == r
  {
    assert m == map[];
  }

  /** Making directories, copying files and setting times in this order is one pull. */
  lemma PullAt(l: Tree, l1: Tree, from: Tree, dirs: set<Path>, files: set<Path>, bump: map<Path, int>, p: Path)
    requires dirs + files <= from.Keys && dirs !! files && SameKinds(l, from) && bump.Keys !! dirs + files && Bumps(l, bump)
    requires (forall q :: q in dirs ==> from[q].dir) && forall q :: q in files ==> !from[q].dir
    requires l1.Keys == l.Keys + dirs && forall q :: q in l1 ==> l1[q] == if q in l then l[q] else Entry(0, true, from[q].mode, [])
    ensures var l3 := Bumped(Pulled(l1, from, files), bump);
            var want := Bumped(Pulled(l, from, dirs + files), bump);
            && (p in l3 <==> p in want)
            && (p in l3 ==> want[p] == if p in dirs then l3[p].(time := from[p].time) else l3[p])
  {
  }

  lemma PullsAreThere(l: Tree, r: Tree, m: Changes)
    ensures PullSet(l, r, m) <= r.Keys
  {
  }

  lemma PushedAreHere(l: Tree, r: Tree)
    ensures forall p :: p in AllTrue(PushSet(l, r)) ==> p in l
  {
  }

  lemma NoConflict(l: Tree, r: Tree, m: Changes)
    requires Tracked(l, r, m)
    ensures forall p :: p in m && m[p] ==> p in l && !Pulls(l, r, p)
  {
  }

  lemma BumpsAfter(l: Tree, r: Tree, s: set<Path>, bump: map<Path, int>)
    requires Bumps(l, bump) && bump.Keys !! s && s <= r.Keys
    ensures Bumps(Pulled(l, r, s), bump)
  {
  }

  /** A second synchronization right after another moves nothing, either way. */
  method SyncTwice(l: Tree, r: Tree, bump: map<Path, int>)
    returns (s: SyncFS, pulled: set<Path>, pushed: Changes, again: set<Path>, back: Changes)
    requires SameKinds(l, r) && Bumps(l, bump) && bump.Keys !! PullSet(l, r, map[])
    ensures pulled !! pushed.Keys
    ensures again == {} && back == map[]
    ensures InStep(s.local, s.remote) && s.local.Keys == l.Keys + r.Keys
  {
    s := new SyncFS(l, r);
    pulled, pushed := s.SyncFirst(bump);
    InStepIsTracked(s.local, s.remote);
    again, back := s.SyncLater(map[]);
  }

  /** A file changed and then removed between two synchronizations comes back. */
  method RemovedComesBack(p: Path, e: Entry, e': Entry) returns (s: SyncFS)
    requires !e.dir && !e'.dir && e.time <= e'.time
    ensures p in s.local && s.local[p] == e
  {
    var bump: map<Path, int> := map[];
    s := new SyncFS(map[p := e], map[p := e]);
    var pulled, pushed := s.SyncFirst(bump);
    assert PushSet(map[p := e], map[p := e]) == {};
    assert s.remote == map[p := e];
    s.Put(p, e', bump);
    s.Remove(p, bump);
    pulled, pushed := s.SyncLater(bump);
  }
}
