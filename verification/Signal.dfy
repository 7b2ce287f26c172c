/** The fan-out of frames to subscribers, each with a bounded channel, and the readers that hand frames
    out in pieces.  A broadcast takes its targets under the lock and sends to them one by one after it,
    so that sends of several broadcasts, reads and registrations interleave. */
module Signal {

  type Frame = seq<int>

  const CAPACITY: nat := 64

  /** What a read returns. */
  datatype Piece = Closed | EndOfFile | Bytes(p: Frame)

  /** A subscriber: the broadcasts in its channel, those taken out of it, what is left of the last of
      them, and all the bytes handed out, in order. */
  datatype Sub = Sub(open: bool, queue: seq<nat>, consumed: seq<nat>, buf: Frame, given: Frame)

  datatype Option<T> = None | Some(value: T)

  /** A broadcast: its frame, whom it is for, who is still to be sent to, and the end that both reads and
      writes it came from, if one did. */
  datatype Cast = Cast(frame: Frame, targets: set<nat>, left: set<nat>, from: Option<nat>)

  /** An end that reads and writes: its subscriber, once it has one. */
  datatype Both = Both(id: nat, closed: bool)

  /** Everybody that ever subscribed, by id, broadcasts by number, and the ends that read and write. */
  datatype Hub = Hub(nextID: nat, subs: map<nat, Sub>, casts: seq<Cast>, ends: seq<Both>)

  datatype Step =
    | Add
    | Remove(id: nat)
    | CloseAll
    | Broadcast(frame: Frame, exclude: int)
    | OpenBoth
    | Ensure(end: nat)
    | Shout(end: nat, frame: Frame)
    | Shut(end: nat)
    | Send(cast: nat, id: nat)
    | Read(id: nat, n: nat)

  function Registered(h: Hub): set<nat> { set id | id in h.subs && h.subs[id].open }

  /** No send waits for room in the subscriber's channel. */
  predicate Unwaited(h: Hub, id: nat) { forall c :: 0 <= c < |h.casts| ==> id !in h.casts[c].left }

  /** A send waits for room in a channel that is open, a read for a frame. */
  predicate Can(h: Hub, s: Step) {
    match s
    case Add => true
    case Remove(id) => true
    case CloseAll => true
    case Broadcast(frame, exclude) => true
    case OpenBoth => true
    case Ensure(f) => f < |h.ends|
    case Shout(f, frame) => f < |h.ends| && (h.ends[f].id != 0 || h.ends[f].closed)    // after its `ensure`
    case Shut(f) => f < |h.ends|
    case Send(c, id) =>
      c < |h.casts| && id in h.casts[c].left && id in h.subs && h.subs[id].open && |h.subs[id].queue| < CAPACITY
    case Read(id, n) => id in h.subs && (h.subs[id].buf != [] || (h.subs[id].queue != [] && h.subs[id].queue[0] < |h.casts|))
  }

  function Chosen(ids: set<nat>, exclude: int): set<nat> {
    set id | id in ids && !(exclude >= 0 && id == exclude)
  }

  function Subscribed(h: Hub): Hub { h.(nextID := h.nextID + 1, subs := h.subs[h.nextID + 1 := Sub(true, [], [], [], [])]) }

  /** A broadcast takes its targets. */
  function Aimed(h: Hub, frame: Frame, exclude: int, from: Option<nat>): Hub {
    var targets := Chosen(Registered(h), exclude);
    h.(casts := h.casts + [Cast(frame, targets, targets, from)])
  }

  function Next(h: Hub, s: Step): Hub
    requires Can(h, s)
  {
    match s
    case Add => Subscribed(h)
    case Remove(id) => if id in h.subs then h.(subs := h.subs[id := h.subs[id].(open := false)]) else h
    case CloseAll => h.(subs := map id | id in h.subs :: h.subs[id].(open := false))
    case Broadcast(frame, exclude) => Aimed(h, frame, exclude, None)
    case OpenBoth => h.(ends := h.ends + [Both(0, false)])
    case Ensure(f) =>
      if h.ends[f].id == 0 && !h.ends[f].closed then Subscribed(h).(ends := h.ends[f := Both(h.nextID + 1, false)]) else h
    case Shout(f, frame) => Aimed(h, frame, h.ends[f].id, Some(f))
    case Shut(f) => h.(ends := h.ends[f := h.ends[f].(closed := true)])
    case Send(c, id) =>
      h.(subs := h.subs[id := h.subs[id].(queue := h.subs[id].queue + [c])],
         casts := h.casts[c := h.casts[c].(left := h.casts[c].left - {id})])
    case Read(id, n) =>
      var u := h.subs[id];
      h.(subs := h.subs[id := if u.buf != [] then FromBuf(u, n) else FromFrame(u, n, h.casts[u.queue[0]].frame)])
  }

  function Min(a: nat, b: nat): nat { if a <= b then a else b }

  /** A read of at most `n` bytes while a frame is not used up. */
  function FromBuf(u: Sub, n: nat): Sub {
    var k := Min(n, |u.buf|);
    u.(buf := u.buf[k..], given := u.given + u.buf[..k])
  }

  /** A read of at most `n` bytes from the next frame. */
  function FromFrame(u: Sub, n: nat, frame: Frame): Sub
    requires u.queue != []
  {
    var k := Min(n, |frame|);
    u.(queue := u.queue[1..], consumed := u.consumed + [u.queue[0]], buf := frame[k..], given := u.given + frame[..k])
  }

  predicate Legal(h: Hub, run: seq<Step>)
    decreases |run|
  {
    run == [] || (Can(h, run[0]) && Legal(Next(h, run[0]), run[1..]))
  }

  function After(h: Hub, run: seq<Step>): Hub
    requires Legal(h, run)
    decreases |run|
  {
    if run == [] then h else After(Next(h, run[0]), run[1..])
  }

  function Empty(): Hub { Hub(0, map[], [], []) }

  /** How often a subscriber has, or is still to get, a broadcast. */
  function Copies(h: Hub, id: nat, c: nat): nat
    requires id in h.subs && c < |h.casts|
  {
    multiset(h.subs[id].queue)[c] + multiset(h.subs[id].consumed)[c] + if id in h.casts[c].left then 1 else 0
  }

  // ----------------------------------------------------------------------------- invariants

  /** Every broadcast is with each of its targets once, and with nobody else. */
  ghost predicate Delivered(h: Hub) {
    forall id, c :: id in h.subs && 0 <= c < |h.casts| ==> Copies(h, id, c) == if id in h.casts[c].targets then 1 else 0
  }

  ghost predicate Known(h: Hub) {
    && (forall c :: 0 <= c < |h.casts| ==> h.casts[c].left <= h.casts[c].targets)
    && (forall id :: id in h.subs ==> 1 <= id <= h.nextID && |h.subs[id].queue| <= CAPACITY)
    && (forall c, id :: 0 <= c < |h.casts| && id in h.casts[c].targets ==> id in h.subs)
    && (forall id :: id in h.subs ==> Within(h.subs[id].queue, |h.casts|) && Within(h.subs[id].consumed, |h.casts|))
  }

  predicate Within(cs: seq<nat>, n: nat) { forall i :: 0 <= i < |cs| ==> cs[i] < n }

  /** The frames of broadcasts, end to end. */
  function Flat(casts: seq<Cast>, cs: seq<nat>): Frame
    requires Within(cs, |casts|)
  {
    if cs == [] then [] else Flat(casts, cs[..|cs| - 1]) + casts[cs[|cs| - 1]].frame
  }

  /** What was handed out and what is left of the last frame are the frames taken, in order. */
  ghost predicate InOrder(h: Hub)
    requires Known(h)
  {
    forall id :: id in h.subs ==> Flat(h.casts, h.subs[id].consumed) == h.subs[id].given + h.subs[id].buf
  }

  ghost predicate Inv(h: Hub) { Known(h) && Delivered(h) && InOrder(h) }

  lemma {:induction false} FlatSame(casts: seq<Cast>, casts': seq<Cast>, cs: seq<nat>)
    requires Within(cs, |casts|)
    requires |casts| <= |casts'| && forall c :: 0 <= c < |casts| ==> casts'[c].frame == casts[c].frame
    ensures Within(cs, |casts'|)
    ensures Flat(casts', cs) == Flat(casts, cs)
  {
    if cs != [] {
      FlatSame(casts, casts', cs[..|cs| - 1]);
    }
  }

  lemma KnownNext(h: Hub, s: Step)
    requires Known(h) && Can(h, s)
    ensures Known(Next(h, s))
  {
    hide Known, Next;
    if s.Send? {
      KnownSend(h, s.cast, s.id);
    } else if s.Read? {
      KnownRead(h, s.id, s.n);
    } else {
      KnownRest(h, s);
    }
  }

  lemma KnownSend(h: Hub, cast: nat, id: nat)
    requires Known(h) && Can(h, Send(cast, id))
    ensures Known(Next(h, Send(cast, id)))
  {
  }

  lemma KnownRead(h: Hub, id: nat, n: nat)
    requires Known(h) && Can(h, Read(id, n))
    ensures Known(Next(h, Read(id, n)))
  {
  }

  lemma KnownRest(h: Hub, s: Step)
    requires Known(h) && Can(h, s) && !s.Send? && !s.Read?
    ensures Known(Next(h, s))
  {
  }

  lemma DeliveredNext(h: Hub, s: Step)
    requires Known(h) && Delivered(h) && Can(h, s)
    ensures Delivered(Next(h, s))
  {
    var h' := Next(h, s);
    forall id, c | id in h'.subs && 0 <= c < |h'.casts| ensures Copies(h', id, c) == if id in h'.casts[c].targets then 1 else 0 {
      if id !in h.subs {
        Newcomer(h, s, id, c);
      } else if c == |h.casts| {
        Unheard(h, id);
      } else {
        assert Copies(h, id, c) == if id in h.casts[c].targets then 1 else 0;
        Passed(h, s, id, c);
      }
    }
  }

  /** A step moves a broadcast on, from the sender to the channel or from there to the reader. */
  lemma Passed(h: Hub, s: Step, id: nat, c: nat)
    requires Known(h) && Can(h, s) && id in h.subs && c < |h.casts|
    ensures var h' := Next(h, s);
            && id in h'.subs && c < |h'.casts| && h'.casts[c].targets == h.casts[c].targets
            && Copies(h', id, c) == Copies(h, id, c)
  {
    if s.Send? {
      PassedSend(h, s.cast, s.id, id, c);
    } else if s.Read? {
      PassedRead(h, s.id, s.n, id, c);
    } else {
      Unmoved(h, s, id, c);
    }
  }

  lemma PassedSend(h: Hub, cast: nat, target: nat, id: nat, c: nat)
    requires Known(h) && Can(h, Send(cast, target)) && id in h.subs && c < |h.casts|
    ensures var h' := Next(h, Send(cast, target));
            && id in h'.subs && c < |h'.casts| && h'.casts[c].targets == h.casts[c].targets
            && Copies(h', id, c) == Copies(h, id, c)
  {
    hide Known;
  }

  lemma PassedRead(h: Hub, reader: nat, n: nat, id: nat, c: nat)
    requires Can(h, Read(reader, n)) && id in h.subs && c < |h.casts|
    ensures var h' := Next(h, Read(reader, n));
            && id in h'.subs && c < |h'.casts| && h'.casts[c].targets == h.casts[c].targets
            && Copies(h', id, c) == Copies(h, id, c)
  {
    var q := h.subs[reader].queue;
    assert q != [] ==> q == [q[0]] + q[1..];
  }

  lemma Unmoved(h: Hub, s: Step, id: nat, c: nat)
    requires Known(h) && Can(h, s) && !s.Send? && !s.Read? && id in h.subs && c < |h.casts|
    ensures var h' := Next(h, s);
            && id in h'.subs && c < |h'.casts| && h'.casts[c] == h.casts[c]
            && h'.subs[id].queue == h.subs[id].queue && h'.subs[id].consumed == h.subs[id].consumed
  {
    assert 1 <= id <= h.nextID;
    hide Known;
  }

  lemma Newcomer(h: Hub, s: Step, id: nat, c: nat)
    requires Known(h) && Can(h, s) && id !in h.subs && id in Next(h, s).subs && c < |Next(h, s).casts|
    ensures Copies(Next(h, s), id, c) == 0 && id !in Next(h, s).casts[c].targets
  {
  }

  lemma Unheard(h: Hub, id: nat)
    requires Known(h) && id in h.subs
    ensures multiset(h.subs[id].queue)[|h.casts|] == 0 && multiset(h.subs[id].consumed)[|h.casts|] == 0
  {
    var u := h.subs[id];
    assert |h.casts| !in u.queue && |h.casts| !in u.consumed;
  }

  lemma InOrderNext(h: Hub, s: Step)
    requires Inv(h) && Can(h, s) && Known(Next(h, s))
    ensures InOrder(Next(h, s))
  {
    var h' := Next(h, s);
    forall id | id in h'.subs ensures Flat(h'.casts, h'.subs[id].consumed) == h'.subs[id].given + h'.subs[id].buf {
      if id !in h.subs {
        NewInOrder(h, s, id);
      } else if s.Read? && s.id == id {
        ReadInOrder(h, id, s.n);
      } else {
        FramesStay(h, s);
        SubStays(h, s, id);
        FlatSame(h.casts, h'.casts, h.subs[id].consumed);
      }
    }
  }

  lemma NewInOrder(h: Hub, s: Step, id: nat)
    requires Can(h, s) && id !in h.subs && id in Next(h, s).subs
    ensures Next(h, s).subs[id] == Sub(true, [], [], [], [])
  {
  }

  lemma FramesStay(h: Hub, s: Step)
    requires Can(h, s)
    ensures |h.casts| <= |Next(h, s).casts| && forall c :: 0 <= c < |h.casts| ==> Next(h, s).casts[c].frame == h.casts[c].frame
  {
  }

  lemma SubStays(h: Hub, s: Step, id: nat)
    requires Known(h) && Can(h, s) && id in h.subs && !(s.Read? && s.id == id)
    ensures id in Next(h, s).subs
    ensures var u, u' := h.subs[id], Next(h, s).subs[id]; u'.consumed == u.consumed && u'.given == u.given && u'.buf == u.buf
  {
    assert 1 <= id <= h.nextID;
    hide Known;
  }

  lemma ReadInOrder(h: Hub, id: nat, n: nat)
    requires Known(h) && InOrder(h) && Can(h, Read(id, n)) && Known(Next(h, Read(id, n)))
    ensures var h' := Next(h, Read(id, n)); Flat(h'.casts, h'.subs[id].consumed) == h'.subs[id].given + h'.subs[id].buf
  {
    var h' := Next(h, Read(id, n));
    var u, u' := h.subs[id], h'.subs[id];
    if u.buf != [] {
      Cut(u.given, u.buf, Min(n, |u.buf|));
    } else {
      var frame := h.casts[u.queue[0]].frame;
      assert u'.consumed[..|u'.consumed| - 1] == u.consumed;
      assert u.given + [] == u.given;
      Cut(u.given, frame, Min(n, |frame|));
    }
  }

  lemma Cut(g: Frame, s: Frame, k: nat)
    requires k <= |s|
    ensures g + s == (g + s[..k]) + s[k..]
  {
  }

  lemma {:induction false} RunInv(h: Hub, run: seq<Step>)
    requires Inv(h) && Legal(h, run)
    ensures Inv(After(h, run))
    decreases |run|
  {
    hide Known, Delivered, InOrder, Next;
    if run != [] {
      KnownNext(h, run[0]);
      DeliveredNext(h, run[0]);
      InOrderNext(h, run[0]);
      RunInv(Next(h, run[0]), run[1..]);
    }
  }

  // ------------------------------------------------------------------------------ the laws

  /** What a broadcast is and whom it is for is settled when it takes the lock. */
  lemma {:induction false} Settled(h: Hub, run: seq<Step>, c: nat)
    requires Legal(h, run) && c < |h.casts|
    ensures var h' := After(h, run); c < |h'.casts| && h'.casts[c].frame == h.casts[c].frame && h'.casts[c].targets == h.casts[c].targets
    decreases |run|
  {
    if run != [] {
      Settled(Next(h, run[0]), run[1..], c);
    }
  }

  lemma {:induction false} Joined(h: Hub, a: seq<Step>, b: seq<Step>)
    requires Legal(h, a + b)
    ensures Legal(h, a) && Legal(After(h, a), b) && After(h, a + b) == After(After(h, a), b)
    decreases |a|
  {
    if a == [] {
      assert a + b == b;
    } else {
      assert (a + b)[1..] == a[1..] + b && (a + b)[0] == a[0];
      Joined(Next(h, a[0]), a[1..], b);
    }
  }

  /** Whom a broadcasting step leaves out. */
  function Excluded(h: Hub, s: Step): int
    requires Can(h, s) && (s.Broadcast? || s.Shout?)
  {
    if s.Broadcast? then s.exclude else h.ends[s.end].id
  }

  /** Whatever happens before and after a broadcast, in any interleaving, its frame is consumed by, in the
      channel of, or still to be sent to a subscriber exactly once if that subscriber was registered when
      the lock was taken and not excluded, and never otherwise. */
  lemma ExactlyOnce(before: seq<Step>, s: Step, after: seq<Step>, id: nat)
    requires (s.Broadcast? || s.Shout?) && Legal(Empty(), before + ([s] + after))
    requires id in After(Empty(), before + ([s] + after)).subs
    ensures Legal(Empty(), before) && Can(After(Empty(), before), s)
    ensures var h0, h := After(Empty(), before), After(Empty(), before + ([s] + after));
            var c := |h0.casts|;
            && c < |h.casts| && h.casts[c].frame == s.frame
            && multiset(h.subs[id].queue + h.subs[id].consumed)[c] + (if id in h.casts[c].left then 1 else 0)
               == if id in h0.subs && h0.subs[id].open && id != (if s.Broadcast? then s.exclude else h0.ends[s.end].id) then 1 else 0
  {
    var rest := [s] + after;
    Joined(Empty(), before, rest);
    var h0 := After(Empty(), before);
    assert rest[0] == s && rest[1..] == after;
    var c := |h0.casts|;
    Settled(Next(h0, s), after, c);
    RunInv(Empty(), before + rest);
    var h := After(Empty(), before + rest);
    assert h.casts[c].targets == Chosen(Registered(h0), Excluded(h0, s));
    hide After, Legal;
    assert Copies(h, id, c) == if id in h.casts[c].targets then 1 else 0;
    MultisetOfBoth(h.subs[id].queue, h.subs[id].consumed, c);
  }

  lemma MultisetOfBoth(a: seq<nat>, b: seq<nat>, c: nat)
    ensures multiset(a + b)[c] == multiset(a)[c] + multiset(b)[c]
  {
  }

  /** The broadcasts sent to a subscriber, in the order of the sends. */
  function SentTo(run: seq<Step>, id: nat): seq<nat> {
    if run == [] then []
    else (if run[0].Send? && run[0].id == id then [run[0].cast] else []) + SentTo(run[1..], id)
  }

  /** The bytes a subscriber's reads return, in every run: they are, with what is left of the last frame, a front
      of the frames sent to it, end to end in the order of the sends; what is not yet taken of those frames is
      in the channel, which holds at most 64. */
  lemma ReadsInSendOrder(run: seq<Step>, id: nat)
    requires Legal(Empty(), run) && id in After(Empty(), run).subs
    ensures var h := After(Empty(), run); var u := h.subs[id];
            && u.consumed + u.queue == SentTo(run, id) && |u.queue| <= 64
            && Within(u.consumed, |h.casts|) && u.given + u.buf == Flat(h.casts, u.consumed)
  {
    RunOrder(Empty(), run, id);
    ReadsAreFrames(run, id);
    hide After;
  }

  function Through(h: Hub, id: nat): seq<nat> { if id in h.subs then h.subs[id].consumed + h.subs[id].queue else [] }

  lemma {:induction false} RunOrder(h: Hub, run: seq<Step>, id: nat)
    requires Known(h) && Legal(h, run)
    ensures Through(After(h, run), id) == Through(h, id) + SentTo(run, id)
    decreases |run|
  {
    hide Known, Next, Through;
    if run != [] {
      var first := if run[0].Send? && run[0].id == id then [run[0].cast] else [];
      KnownNext(h, run[0]);
      ThroughNext(h, run[0], id);
      RunOrder(Next(h, run[0]), run[1..], id);
      assert Through(h, id) + first + SentTo(run[1..], id) == Through(h, id) + SentTo(run, id);
    }
  }

  lemma ThroughNext(h: Hub, s: Step, id: nat)
    requires Known(h) && Can(h, s)
    ensures Through(Next(h, s), id) == Through(h, id) + if s.Send? && s.id == id then [s.cast] else []
  {
    if id in h.subs {
      assert 1 <= id <= h.nextID;
    }
    hide Known;
    if s.Read? && s.id == id && h.subs[id].buf == [] {
      var u := h.subs[id];
      assert u.queue == [u.queue[0]] + u.queue[1..];
    }
  }

  /** What one read does to a subscriber: up to `n` bytes off the front, of the frame in use if there is one and
      else of the next in the channel; fewer only where that frame ends. */
  lemma ReadIs(h: Hub, id: nat, n: nat)
    requires Can(h, Read(id, n))
    ensures var u, h' := h.subs[id], Next(h, Read(id, n));
            && id in h'.subs && h' == h.(subs := h.subs[id := h'.subs[id]])
            && var u' := h'.subs[id];
            && |u.given| <= |u'.given| <= |u.given| + n && u'.given[..|u.given|] == u.given && u'.open == u.open
            && (|u'.given| < |u.given| + n ==> u'.buf == [])
            && var p := u'.given[|u.given|..];
               if u.buf != [] then p + u'.buf == u.buf && u'.queue == u.queue && u'.consumed == u.consumed
               else p + u'.buf == h.casts[u.queue[0]].frame && u'.consumed == u.consumed + [u.queue[0]] && u'.queue == u.queue[1..]
  {
    var u := h.subs[id];
    var frame := if u.buf != [] then u.buf else h.casts[u.queue[0]].frame;
    var k := Min(n, |frame|);
    assert frame[..k] + frame[k..] == frame;
    assert (u.given + frame[..k])[..|u.given|] == u.given && (u.given + frame[..k])[|u.given|..] == frame[..k];
  }

  /** An end that reads and writes is no target of what it wrote. */
  ghost predicate NotOwn(h: Hub) {
    && (forall f :: 0 <= f < |h.ends| && h.ends[f].id != 0 ==> h.ends[f].id in h.subs)
    && (forall c :: 0 <= c < |h.casts| && h.casts[c].from.Some? ==>
          var f := h.casts[c].from.value;
          f < |h.ends| && (h.ends[f].id != 0 || h.ends[f].closed) && h.ends[f].id !in h.casts[c].targets)
  }

  lemma NotOwnNext(h: Hub, s: Step)
    requires Known(h) && NotOwn(h) && Can(h, s)
    ensures NotOwn(Next(h, s))
  {
    assert s.Shout? ==> h.ends[s.end].id !in Chosen(Registered(h), h.ends[s.end].id);
  }

  lemma {:induction false} RunNotOwn(h: Hub, run: seq<Step>)
    requires Known(h) && NotOwn(h) && Legal(h, run)
    ensures NotOwn(After(h, run))
    decreases |run|
  {
    hide Known, NotOwn, Next;
    if run != [] {
      NotOwnNext(h, run[0]);
      KnownNext(h, run[0]);
      RunNotOwn(Next(h, run[0]), run[1..]);
    }
  }

  /** In every run, an end that reads and writes never gets a frame it wrote itself: none is read by it, in
      its channel, or still to be sent to it. */
  lemma OwnFramesNeverRead(run: seq<Step>, f: nat, c: nat)
    requires Legal(Empty(), run)
    requires var h := After(Empty(), run); f < |h.ends| && c < |h.casts| && h.casts[c].from == Some(f) && h.ends[f].id != 0
    ensures var h := After(Empty(), run);
            var id := h.ends[f].id;
            id in h.subs && c !in h.subs[id].consumed && c !in h.subs[id].queue && id !in h.casts[c].left
  {
    RunInv(Empty(), run);
    RunNotOwn(Empty(), run);
    var h := After(Empty(), run);
    hide After, Legal, InOrder;
    NoCopies(h, f, c);
  }

  lemma NoCopies(h: Hub, f: nat, c: nat)
    requires Delivered(h) && NotOwn(h) && f < |h.ends| && c < |h.casts| && h.casts[c].from == Some(f) && h.ends[f].id != 0
    ensures var id := h.ends[f].id;
            id in h.subs && c !in h.subs[id].consumed && c !in h.subs[id].queue && id !in h.casts[c].left
  {
    assert Copies(h, h.ends[f].id, c) == 0;
  }

  // ---------------------------------------------------------------------- closed under the sender

  /** Something is still to be sent to a channel that is closed; the send ends the program. */
  predicate Doomed(h: Hub) {
    exists c, id :: 0 <= c < |h.casts| && id in h.casts[c].left && id in h.subs && !h.subs[id].open
  }

  /** No channel is closed that something is still to be sent to. */
  predicate Careful(h: Hub, s: Step) {
    match s
    case Remove(id) => id in h.subs && h.subs[id].open ==> Unwaited(h, id)
    case CloseAll => forall id :: id in h.subs && h.subs[id].open ==> Unwaited(h, id)
    case _ => true
  }

  predicate AllCareful(h: Hub, run: seq<Step>)
    requires Legal(h, run)
    decreases |run|
  {
    run == [] || (Careful(h, run[0]) && AllCareful(Next(h, run[0]), run[1..]))
  }

  lemma DoomedStays(h: Hub, s: Step)
    requires Known(h) && Can(h, s) && Doomed(h)
    ensures Doomed(Next(h, s))
  {
    var c, id :| 0 <= c < |h.casts| && id in h.casts[c].left && id in h.subs && !h.subs[id].open;
    var h' := Next(h, s);
    assert c < |h'.casts| && id in h'.casts[c].left && id in h'.subs && !h'.subs[id].open;
  }

  /** Only closing a channel that is waited for dooms. */
  lemma DoomedNext(h: Hub, s: Step)
    requires Known(h) && Can(h, s) && !Doomed(h)
    ensures Doomed(Next(h, s)) <==> !Careful(h, s)
  {
    var h' := Next(h, s);
    if !Careful(h, s) {
      var id :| id in h.subs && h.subs[id].open && !Unwaited(h, id) && (s == Remove(id) || s.CloseAll?);
      var c :| 0 <= c < |h.casts| && id in h.casts[c].left;
      assert c < |h'.casts| && id in h'.casts[c].left && id in h'.subs && !h'.subs[id].open;
    } else if c, id :| 0 <= c < |h'.casts| && id in h'.casts[c].left && id in h'.subs && !h'.subs[id].open {
      StillOpen(h, s, c, id);
    }
  }

  lemma StillOpen(h: Hub, s: Step, c: nat, id: nat)
    requires Known(h) && Can(h, s) && Careful(h, s) && c < |Next(h, s).casts| && id in Next(h, s).casts[c].left
    requires c < |h.casts| && id in h.casts[c].left && id in h.subs ==> h.subs[id].open
    ensures id in Next(h, s).subs && Next(h, s).subs[id].open
  {
  }

  /** In every run, something is left to be sent to a closed channel if and only if some step closed a channel
      that something was still to be sent to. */
  lemma DoomedExactly(run: seq<Step>)
    requires Legal(Empty(), run)
    ensures Doomed(After(Empty(), run)) <==> !AllCareful(Empty(), run)
  {
    RunDoomed(Empty(), run);
  }

  lemma {:induction false} RunDoomed(h: Hub, run: seq<Step>)
    requires Known(h) && Legal(h, run)
    ensures Doomed(After(h, run)) <==> Doomed(h) || !AllCareful(h, run)
    decreases |run|
  {
    hide Known, Doomed, Careful, Next;
    if run != [] {
      KnownNext(h, run[0]);
      if Doomed(h) {
        DoomedStays(h, run[0]);
      } else {
        DoomedNext(h, run[0]);
      }
      RunDoomed(Next(h, run[0]), run[1..]);
    }
  }

  /** A subscriber that leaves between a broadcast and its send is enough. */
  lemma LeavesTooSoon(frame: Frame)
    ensures var run := [Add, Broadcast(frame, -1), Remove(1)]; Legal(Empty(), run) && Doomed(After(Empty(), run))
  {
    var h1 := Next(Empty(), Add);
    var h2 := Next(h1, Broadcast(frame, -1));
    var h3 := Next(h2, Remove(1));
    assert 1 in Registered(h1) && 1 in h2.casts[0].left;
    var run := [Add, Broadcast(frame, -1), Remove(1)];
    assert run[1..] == [Broadcast(frame, -1), Remove(1)] && run[1..][1..] == [Remove(1)] && run[1..][1..][1..] == [];
    assert Legal(h3, []) && Legal(h2, [Remove(1)]) && Legal(h1, run[1..]);
    assert After(h2, [Remove(1)]) == h3 && After(h1, run[1..]) == h3;
    assert 1 in h3.casts[0].left && !h3.subs[1].open;
  }

  /** What a subscriber's reads returned, piece after piece, is what it took from its channel, but for what
      is left of the last frame; no channel ever holds more than it has room for. */
  lemma ReadsAreFrames(run: seq<Step>, id: nat)
    requires Legal(Empty(), run) && id in After(Empty(), run).subs
    ensures var h := After(Empty(), run);
            && Within(h.subs[id].consumed, |h.casts|)
            && Flat(h.casts, h.subs[id].consumed) == h.subs[id].given + h.subs[id].buf
            && |h.subs[id].queue| <= CAPACITY
  {
    RunInv(Empty(), run);
  }

  // ------------------------------------------------------------------------------- the code

  /** The targets of a broadcast, in whatever order the map is ranged over. */
  method Targets(readers: set<nat>, exclude: int) returns (targets: seq<nat>)
    ensures forall t :: t in targets <==> t in readers && t != exclude
    ensures forall i, j :: 0 <= i < j < |targets| ==> targets[i] != targets[j]
  {
    targets := [];
    var left := readers;
    while left != {}
      invariant left <= readers
      invariant forall t :: t in targets <==> t in Chosen(readers, exclude) && t !in left
      invariant forall i, j :: 0 <= i < j < |targets| ==> targets[i] != targets[j]
      decreases |left|
    {
      var id :| id in left;
      left := left - {id};
      if exclude >= 0 && id == exclude {
        continue;
      }
      targets := targets + [id];
    }
  }

  /** A reading end.  The ghost subscriber is its entry in the hub. */
  class Reader {
    var buf: Frame
    var closed: bool
    ghost var sub: Sub

    constructor ()
      ensures buf == [] && !closed && sub == Sub(true, [], [], [], [])
    {
      buf, closed, sub := [], false, Sub(true, [], [], [], []);
    }

    /** `Read` into `n` bytes.  `next` is what the channel yields: a frame, or nothing once it is closed
        and drained. */
    method Read(n: nat, next: Option<Frame>) returns (r: Piece)
      requires sub.buf == buf && (next.Some? ==> sub.queue != [])
      modifies this
      ensures sub.buf == buf && closed == old(closed)
      ensures r.Closed? <==> closed
      ensures r.EndOfFile? <==> !closed && old(buf) == [] && next.None?
      ensures !r.Bytes? ==> sub == old(sub)
      ensures r.Bytes? ==> r.p + buf == (if old(buf) != [] then old(buf) else next.value)
      ensures r.Bytes? ==> |r.p| <= n && (|r.p| < n ==> buf == [])
      ensures r.Bytes? ==> sub == if old(buf) != [] then FromBuf(old(sub), n) else FromFrame(old(sub), n, next.value)
      ensures r.Bytes? ==> sub.given == old(sub).given + r.p
    {
      if closed {
        return Closed;
      }
      if |buf| > 0 {
        var k := Min(n, |buf|);
        r := Bytes(buf[..k]);
        assert buf == buf[..k] + buf[k..];
        buf := buf[k..];
        sub := FromBuf(sub, n);
        return;
      }
      match next {
        case None => return EndOfFile;
        case Some(frame) =>
          var k := Min(n, |frame|);
          r := Bytes(frame[..k]);
          assert frame == frame[..k] + frame[k..];
          if k < |frame| {
            buf := frame[k..];
          }
          sub := FromFrame(sub, n, frame);
      }
    }
  }

  /** The subscribers' ids, under the lock. */
  class Broadcaster {
    var nextID: nat
    var readers: set<nat>

    ghost predicate Valid()
      reads this
    {
      forall id :: id in readers ==> 1 <= id <= nextID
    }

    constructor ()
      ensures Valid() && nextID == 0 && readers == {}
    {
      nextID, readers := 0, {};
    }

    method AddReader() returns (id: nat)
      requires Valid()
      modifies this
      ensures Valid() && id !in old(readers) && readers == old(readers) + {id} && id == nextID == old(nextID) + 1
    {
      nextID := nextID + 1;
      id := nextID;
      readers := readers + {id};
    }

    method RemoveReader(id: nat)
      requires Valid()
      modifies this
      ensures Valid() && readers == old(readers) - {id} && nextID == old(nextID)
    {
      if id in readers {
        readers := readers - {id};
      }
    }
  }

  /** An end that reads and writes. */
  class ReadWriter {
    const b: Broadcaster
    var id: nat
    var closed: bool

    ghost predicate Valid()
      reads this, b
    {
      b.Valid() && id <= b.nextID && (id in b.readers ==> !closed)
    }

    constructor (b: Broadcaster)
      requires b.Valid()
      ensures this.b == b && Valid() && id == 0 && !closed
    {
      this.b, id, closed := b, 0, false;
    }

    /** Subscribes the first time. */
    method Ensure()
      requires Valid()
      modifies this, b
      ensures Valid() && closed == old(closed) && (id != 0 || closed)
      ensures if old(id) == 0 && !closed then id !in old(b.readers) && b.readers == old(b.readers) + {id}
              else id == old(id) && b.readers == old(b.readers)
    {
      if id == 0 && !closed {
        id := b.AddReader();
      }
    }

    /** `Write`: everybody registered gets the frame, but not this end. */
    method Write() returns (targets: seq<nat>)
      requires Valid()
      modifies this, b
      ensures Valid() && id !in targets
      ensures forall t :: t in targets <==> t in b.readers && t != id
      ensures forall i, j :: 0 <= i < j < |targets| ==> targets[i] != targets[j]
    {
      Ensure();
      targets := Targets(b.readers, id);
    }

    method Close()
      requires Valid()
      modifies this, b
      ensures Valid() && closed && id == old(id)
      ensures b.readers == if old(closed) then old(b.readers) else old(b.readers) - {id}
    {
      if closed {
        return;
      }
      closed := true;
      if id != 0 {
        b.RemoveReader(id);
      }
    }
  }
}
