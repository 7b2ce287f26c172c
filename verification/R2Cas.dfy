/** Many clients changing one directory listing by compare-and-swap on its entity tag.

    The state machine interleaves the gets and puts of any number of calls; class `Listing` is the
    retry loop of one call, with what other clients do between its get and its put as a parameter. */
module R2Cas {
  import opened R2Listing

  datatype Update = Add(name: string, mode: string) | Drop(name: string)

  const TRIES: nat := 3

  function Apply(m: Entries, u: Update): Entries {
    match u
    case Add(name, mode) => m[name := mode]
    case Drop(name) => m - {name}
  }

  /** The text a call puts back for the text it got. */
  ghost function Rewritten(content: string, u: Update): string {
    Format(Apply(Parse(content), u))
  }

  predicate Proper(u: Update) { u.Add? ==> Word(u.name) && Word(u.mode) }

  ghost function Fold(m: Entries, us: seq<Update>): Entries {
    if us == [] then m else Apply(Fold(m, us[..|us| - 1]), us[|us| - 1])
  }

  lemma RewrittenReads(content: string, u: Update)
    requires Proper(u)
    ensures Parse(Rewritten(content, u)) == Apply(Parse(content), u)
  {
    CleanComesBack(Apply(Parse(content), u));
  }

  // ------------------------------------------------------------------- the state machine

  /** What a get returns.  `at` counts the puts that had succeeded. */
  datatype Version = Version(content: string, etag: int)

  datatype Progress =
    | Reading
    | Writing(seen: Version, at: nat)
    | Committed
    | GaveUp

  /** `tries` counts the puts of the call, `began` the puts that had succeeded when it started. */
  datatype Call = Call(update: Update, progress: Progress, tries: nat, began: nat)

  /** The object, the content each tag has ever named, the calls and who committed, in order. */
  datatype State = State(stored: Version, tags: map<int, string>, calls: seq<Call>, log: seq<nat>)

  datatype Step = Begin(update: Update) | Get(call: nat) | Put(call: nat, tag: int)

  function Start(v: Version): State { State(v, map[v.etag := v.content], [], []) }

  /** A put may be given any tag, but one tag never names two contents. */
  ghost predicate Can(s: State, step: Step) {
    match step
    case Begin(u) => Proper(u)
    case Get(i) => i < |s.calls| && s.calls[i].progress.Reading?
    case Put(i, tag) =>
      && i < |s.calls| && s.calls[i].progress.Writing?
      && (tag in s.tags ==> s.tags[tag] == Rewritten(s.calls[i].progress.seen.content, s.calls[i].update))
  }

  ghost function Next(s: State, step: Step): State
    requires Can(s, step)
  {
    match step
    case Begin(u) => s.(calls := s.calls + [Call(u, Reading, 0, |s.log|)])
    case Get(i) => s.(calls := s.calls[i := s.calls[i].(progress := Writing(s.stored, |s.log|))])
    case Put(i, tag) =>
      var c := s.calls[i].(tries := s.calls[i].tries + 1);
      if s.stored.etag == c.progress.seen.etag then
        var text := Rewritten(c.progress.seen.content, c.update);
        State(Version(text, tag), s.tags[tag := text], s.calls[i := c.(progress := Committed)], s.log + [i])
      else if c.tries < TRIES then s.(calls := s.calls[i := c.(progress := Reading)])
      else s.(calls := s.calls[i := c.(progress := GaveUp)])
  }

  ghost predicate Legal(s: State, run: seq<Step>)
    decreases |run|
  {
    run == [] || (Can(s, run[0]) && Legal(Next(s, run[0]), run[1..]))
  }

  ghost function After(s: State, run: seq<Step>): State
    requires Legal(s, run)
    decreases |run|
  {
    if run == [] then s else After(Next(s, run[0]), run[1..])
  }

  /** The updates of the calls that committed, in the order they did. */
  function Updates(calls: seq<Call>, log: seq<nat>): (us: seq<Update>)
    requires forall k :: 0 <= k < |log| ==> log[k] < |calls|
    ensures |us| == |log|
  {
    seq(|log|, k requires 0 <= k < |log| => calls[log[k]].update)
  }

  // --------------------------------------------------------------------------- invariant

  ghost predicate Tagged(s: State) {
    && s.stored.etag in s.tags && s.tags[s.stored.etag] == s.stored.content
    && (forall i :: 0 <= i < |s.calls| && s.calls[i].progress.Writing? ==>
          var seen := s.calls[i].progress.seen; seen.etag in s.tags && s.tags[seen.etag] == seen.content)
  }

  /** Exactly the calls that committed are in the log, once each. */
  ghost predicate Logged(s: State) {
    && (forall k :: 0 <= k < |s.log| ==> s.log[k] < |s.calls| && s.calls[s.log[k]].progress.Committed?)
    && (forall k, j :: 0 <= k < j < |s.log| ==> s.log[k] != s.log[j])
    && (forall i :: 0 <= i < |s.calls| && s.calls[i].progress.Committed? ==> i in s.log)
  }

  /** Each put a call lost was lost to a put that succeeded after the call began. */
  ghost predicate Outrun(s: State, c: Call) {
    && Proper(c.update)
    && (match c.progress
        case Reading => c.tries < TRIES && c.began + c.tries <= |s.log|
        case Writing(seen, at) =>
          && c.tries < TRIES && c.began + c.tries <= at <= |s.log|
          && (at == |s.log| ==> seen == s.stored)
        case Committed => 1 <= c.tries <= TRIES
        case GaveUp => c.tries == TRIES && c.began + TRIES <= |s.log|)
  }

  ghost predicate Inv(v: Version, s: State) {
    && Tagged(s) && Logged(s)
    && (forall i :: 0 <= i < |s.calls| ==> Outrun(s, s.calls[i]))
    && Parse(s.stored.content) == Fold(Parse(v.content), Updates(s.calls, s.log))
  }

  lemma BeginInv(v: Version, s: State, u: Update)
    requires Inv(v, s) && Proper(u)
    ensures Inv(v, Next(s, Begin(u)))
  {
    hide Fold, Parse;
    var s' := Next(s, Begin(u));
    assert Updates(s'.calls, s'.log) == Updates(s.calls, s.log);
    assert forall i :: 0 <= i < |s.calls| ==> s'.calls[i] == s.calls[i];
  }

  lemma GetInv(v: Version, s: State, i: nat)
    requires Inv(v, s) && Can(s, Get(i))
    ensures Inv(v, Next(s, Get(i)))
  {
    hide Fold, Parse;
    var s' := Next(s, Get(i));
    assert Updates(s'.calls, s'.log) == Updates(s.calls, s.log);
    assert i !in s.log;
    assert forall j :: 0 <= j < |s.calls| && j != i ==> s'.calls[j] == s.calls[j];
  }

  /** A put whose tag no longer matches. */
  lemma LostInv(v: Version, s: State, i: nat, tag: int)
    requires Inv(v, s) && Can(s, Put(i, tag)) && s.stored.etag != s.calls[i].progress.seen.etag
    ensures Inv(v, Next(s, Put(i, tag)))
  {
    hide Fold, Parse;
    var s' := Next(s, Put(i, tag));
    assert Updates(s'.calls, s'.log) == Updates(s.calls, s.log);
    assert i !in s.log;
    assert Outrun(s, s.calls[i]);
    assert forall j :: 0 <= j < |s.calls| && j != i ==> s'.calls[j] == s.calls[j];
  }

  /** A put that succeeds writes what its update makes of the listing as it is now. */
  lemma WonInv(v: Version, s: State, i: nat, tag: int)
    requires Inv(v, s) && Can(s, Put(i, tag)) && s.stored.etag == s.calls[i].progress.seen.etag
    ensures Inv(v, Next(s, Put(i, tag)))
  {
    hide Parse, Apply, Rewritten;
    var s' := Next(s, Put(i, tag));
    var u := s.calls[i].update;
    assert s.calls[i].progress.seen.content == s.stored.content;
    RewrittenReads(s.stored.content, u);
    var us, us' := Updates(s.calls, s.log), Updates(s'.calls, s'.log);
    assert us' == us + [u];
    assert us'[..|us|] == us;
    assert i !in s.log;
    assert forall j :: 0 <= j < |s.calls| && j != i ==> s'.calls[j] == s.calls[j];
    forall j | 0 <= j < |s.calls| ensures Outrun(s', s'.calls[j]) {
      assert Outrun(s, s.calls[j]);
    }
    forall j | 0 <= j < |s'.calls| && s'.calls[j].progress.Committed? ensures j in s'.log {
      if j == i { assert s'.log[|s.log|] == i; } else { assert j in s.log; }
    }
  }

  lemma NextInv(v: Version, s: State, step: Step)
    requires Inv(v, s) && Can(s, step)
    ensures Inv(v, Next(s, step))
  {
    hide Inv, Next;
    match step
    case Begin(u) => BeginInv(v, s, u);
    case Get(i) => GetInv(v, s, i);
    case Put(i, tag) =>
      if s.stored.etag == s.calls[i].progress.seen.etag { WonInv(v, s, i, tag); } else { LostInv(v, s, i, tag); }
  }

  lemma {:induction false} RunInv(v: Version, s: State, run: seq<Step>)
    requires Inv(v, s) && Legal(s, run)
    ensures Inv(v, After(s, run))
    decreases |run|
  {
    hide Inv, Next;
    if run != [] {
      NextInv(v, s, run[0]);
      RunInv(v, Next(s, run[0]), run[1..]);
    }
  }

  // ---------------------------------------------------------------------------- theorems

  /** Nothing is lost, whatever the interleaving: the listing is what the updates of exactly the calls
      that succeeded make of the first listing, each once, in the order of their puts. */
  lemma ListingIsFold(v: Version, run: seq<Step>)
    requires Legal(Start(v), run)
    ensures var s := After(Start(v), run);
            && (forall k :: 0 <= k < |s.log| ==> s.log[k] < |s.calls| && s.calls[s.log[k]].progress.Committed?)
            && (forall i :: 0 <= i < |s.calls| && s.calls[i].progress.Committed? ==> i in s.log)
            && (forall k, j :: 0 <= k < j < |s.log| ==> s.log[k] != s.log[j])
            && Parse(s.stored.content) == Fold(Parse(v.content), Updates(s.calls, s.log))
  {
    hide Fold;
    StartInv(v);
    RunInv(v, Start(v), run);
  }

  /** No call puts more than three times, and one that gives up lost each time to another call that
      succeeded after it began. */
  lemma ThreeTries(v: Version, run: seq<Step>, i: nat)
    requires Legal(Start(v), run) && i < |After(Start(v), run).calls|
    ensures var s := After(Start(v), run); var c := s.calls[i];
            && c.tries <= 3
            && (c.progress.GaveUp? ==> c.tries == 3 && c.began + 3 <= |s.log| && i !in s.log)
            && (c.progress.Committed? ==> c.tries >= 1)
  {
    hide Fold;
    StartInv(v);
    RunInv(v, Start(v), run);
    assert Outrun(After(Start(v), run), After(Start(v), run).calls[i]);
  }

  lemma StartInv(v: Version)
    ensures Inv(v, Start(v))
  {
  }

  /** What a listing says of a name is what the last update of that name said. */
  ghost function Last(us: seq<Update>, name: string): (r: int)
    ensures -1 <= r < |us|
    ensures r >= 0 ==> us[r].name == name
    ensures forall k :: r < k < |us| ==> us[k].name != name
  {
    if us == [] then -1
    else if us[|us| - 1].name == name then |us| - 1
    else
      var r := Last(us[..|us| - 1], name);
      assert forall k :: r < k < |us| - 1 ==> us[..|us| - 1][k] == us[k];
      r
  }

  lemma {:induction false} LastUpdateWins(m: Entries, us: seq<Update>, name: string)
    ensures var r := Last(us, name); var f := Fold(m, us);
            && (r < 0 ==> (name in f <==> name in m) && (name in m ==> f[name] == m[name]))
            && (r >= 0 && us[r].Add? ==> name in f && f[name] == us[r].mode)
            && (r >= 0 && us[r].Drop? ==> name !in f)
  {
    if us != [] {
      LastUpdateWins(m, us[..|us| - 1], name);
    }
  }

  // ------------------------------------------------------------------------ one call

  /** One directory object.  A put gives it a tag it never had. */
  class Listing {
    var content: string
    var etag: nat
    ghost var puts: seq<Update>

    constructor (text: string)
      ensures content == text && puts == []
    {
      content, etag, puts := text, 0, [];
    }

    method PutIfMatch(text: string, tag: nat, ghost u: Update) returns (ok: bool)
      modifies this
      ensures ok == (tag == old(etag))
      ensures ok ==> content == text && etag == old(etag) + 1 && puts == old(puts) + [u]
      ensures !ok ==> content == old(content) && etag == old(etag) && puts == old(puts)
    {
      ok := tag == etag;
      if ok {
        content, etag, puts := text, etag + 1, puts + [u];
      }
    }

    method Rewrite(text: string, u: Update) returns (r: string)
      ensures r == Rewritten(text, u)
    {
      var entries := ParseDirectoryEntries(text);
      match u {
        case Drop(name) => entries := entries - {name};
        case Add(name, mode) => entries := entries[name := mode];
      }
      r := FormatDirectoryEntries(entries);
    }

    /** What other clients commit in the meantime. */
    method Rivals(us: seq<Update>)
      requires forall k :: 0 <= k < |us| ==> Proper(us[k])
      modifies this
      ensures Parse(content) == Fold(old(Parse(content)), us)
      ensures etag == old(etag) + |us| && puts == old(puts) + us
      ensures us == [] ==> content == old(content)
    {
      hide Rewritten, Apply, Parse;
      for k := 0 to |us|
        invariant Parse(content) == Fold(old(Parse(content)), us[..k])
        invariant etag == old(etag) + k && puts == old(puts) + us[..k]
        invariant k == 0 ==> content == old(content)
      {
        RewrittenReads(content, us[k]);
        assert us[..k + 1][..k] == us[..k];
        var text := Rewrite(content, us[k]);
        var ok := PutIfMatch(text, etag, us[k]);
      }
      assert us[..|us|] == us;
    }

    /** The retry loop; `rivals[i]` is committed between the get and the put of attempt `i`. */
    method CompareAndSwap(u: Update, rivals: seq<seq<Update>>) returns (ok: bool)
      requires Proper(u) && |rivals| == 3
      requires forall i, k :: 0 <= i < 3 && 0 <= k < |rivals[i]| ==> Proper(rivals[i][k])
      modifies this
      ensures ok == ([] in rivals)
      ensures puts == old(puts) + Interleaved(rivals, u)
      ensures rivals[0] == [] ==> puts == old(puts) + [u]
      ensures rivals[0] != [] && rivals[1] == [] ==> puts == old(puts) + rivals[0] + [u]
      ensures rivals[0] != [] && rivals[1] != [] && rivals[2] == [] ==> puts == old(puts) + rivals[0] + rivals[1] + [u]
      ensures !ok ==> puts == old(puts) + rivals[0] + rivals[1] + rivals[2]
      ensures Parse(content) == Fold(old(Parse(content)), Interleaved(rivals, u))
    {
      hide Rewritten, Apply, Parse, Fold, Interleaved;
      ghost var m := Parse(content);
      ghost var done: seq<Update> := [];
      Interleaving(rivals, 0, u, done);
      FoldNothing(m);
      ThreeRounds(old(puts), rivals, u);
      for i := 0 to TRIES
        invariant [] !in rivals[..i]
        invariant puts == old(puts) + done && Parse(content) == Fold(m, done)
        invariant Interleaved(rivals, u) == done + Interleaved(rivals[i..], u)
      {
        Interleaving(rivals, i, u, done);
        var seen, tag := content, etag;
        Rivals(rivals[i]);
        FoldJoins(m, done, rivals[i]);
        var text := Rewrite(seen, u);
        ok := PutIfMatch(text, tag, u);
        if ok {
          RewrittenReads(seen, u);
          FoldOne(m, done, u);
          return;
        }
        done := done + rivals[i];
      }
      Interleaving(rivals, TRIES, u, done);
      assert rivals[..TRIES] == rivals;
      ok := false;
    }
  }

  /** The commits while a call runs: its own follows the first attempt nobody disturbed. */
  function Interleaved(rivals: seq<seq<Update>>, u: Update): seq<Update> {
    if rivals == [] then [] else if rivals[0] == [] then [u] else rivals[0] + Interleaved(rivals[1..], u)
  }

  lemma ThreeRounds(before: seq<Update>, rivals: seq<seq<Update>>, u: Update)
    requires |rivals| == 3
    ensures rivals[0] == [] ==> before + Interleaved(rivals, u) == before + [u]
    ensures rivals[0] != [] && rivals[1] == [] ==> before + Interleaved(rivals, u) == before + rivals[0] + [u]
    ensures rivals[0] != [] && rivals[1] != [] && rivals[2] == [] ==>
      before + Interleaved(rivals, u) == before + rivals[0] + rivals[1] + [u]
    ensures [] !in rivals ==> before + Interleaved(rivals, u) == before + rivals[0] + rivals[1] + rivals[2]
  {
    assert rivals[1..][0] == rivals[1] && rivals[1..][1..][0] == rivals[2];
    assert Interleaved(rivals[1..][1..], u) == if rivals[2] == [] then [u] else rivals[2];
    assert Interleaved(rivals[1..], u) == if rivals[1] == [] then [u] else rivals[1] + Interleaved(rivals[1..][1..], u);
  }

  lemma {:induction false} FoldJoins(m: Entries, us: seq<Update>, vs: seq<Update>)
    ensures Fold(Fold(m, us), vs) == Fold(m, us + vs)
  {
    if vs == [] {
      assert us + vs == us;
    } else {
      FoldJoins(m, us, vs[..|vs| - 1]);
      assert (us + vs)[..|us + vs| - 1] == us + vs[..|vs| - 1];
    }
  }

  lemma FoldNothing(m: Entries)
    ensures Fold(m, []) == m
  {
  }

  lemma FoldOne(m: Entries, us: seq<Update>, u: Update)
    ensures Fold(m, us + [u]) == Apply(Fold(m, us), u)
  {
    assert (us + [u])[..|us|] == us;
  }

  /** One turn of the loop, and its end. */
  lemma Interleaving(rivals: seq<seq<Update>>, i: nat, u: Update, done: seq<Update>)
    requires i <= |rivals|
    ensures i == 0 ==> rivals[i..] == rivals && [] + Interleaved(rivals, u) == Interleaved(rivals, u)
    ensures i == |rivals| ==> done + Interleaved(rivals[i..], u) == done
    ensures i < |rivals| && rivals[i] == [] ==> done + Interleaved(rivals[i..], u) == done + [u]
    ensures i < |rivals| && rivals[i] != [] ==>
      done + Interleaved(rivals[i..], u) == (done + rivals[i]) + Interleaved(rivals[i + 1..], u)
  {
    if i < |rivals| {
      assert rivals[i..][1..] == rivals[i + 1..];
      assert done + (rivals[i] + Interleaved(rivals[i + 1..], u)) == (done + rivals[i]) + Interleaved(rivals[i + 1..], u);
    }
  }
}
