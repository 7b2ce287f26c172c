/** Two channel objects and the two queues between them.  What the objects do, step by step, is a run of
    the abstract link, so everything proved of links holds of them. */
module MuxPair {
  import opened Utf16
  import opened MuxChannel
  import opened MuxLink
  import MuxEnds
  import MuxWrites

  /** What a caller of a channel gave it or got from it. */
  datatype Deed = Gave(p: seq<byte>, refused: bool) | Asked(n: nat, r: Reading) | Else

  /** All that was given and not refused, and all that was got, in order. */
  function Given(ds: seq<Deed>): seq<byte> {
    if ds == [] then []
    else Given(ds[..|ds| - 1]) + if ds[|ds| - 1].Gave? && !ds[|ds| - 1].refused then ds[|ds| - 1].p else []
  }

  function Taken(ds: seq<Deed>): seq<byte> {
    if ds == [] then []
    else Taken(ds[..|ds| - 1]) + if ds[|ds| - 1].Asked? && ds[|ds| - 1].r.Took? then ds[|ds| - 1].r.data else []
  }

  lemma OneMore(ds: seq<Deed>, d: Deed)
    ensures Given(ds + [d]) == Given(ds) + if d.Gave? && !d.refused then d.p else []
    ensures Taken(ds + [d]) == Taken(ds) + if d.Asked? && d.r.Took? then d.r.data else []
  {
    assert (ds + [d])[..|ds|] == ds;
  }

  /** The deed is what the operation asks for, and `got` and `accepted` record it. */
  predicate Records(op: Op, d: Deed, got: seq<byte>, got': seq<byte>, accepted: seq<byte>, accepted': seq<byte>) {
    match op
    case OpWrite(p) =>
      d.Gave? && d.p == p && got' == got && accepted' == if d.refused then accepted else accepted + p
    case OpRead(n) =>
      && d.Asked? && d.n == n && accepted' == accepted
      && (if d.r.Took? then |d.r.data| <= n && got' == got + d.r.data else got' == got)
    case _ => d.Else? && got' == got && accepted' == accepted
  }

  /** An operation on a channel object. */
  method Act(c: Channel, op: Op) returns (d: Deed)
    requires Enabled(c.State(), op)
    modifies c
    ensures c.State() == Perform(old(c.State()), op).end && c.outbox == old(c.outbox) + Perform(old(c.State()), op).items
    ensures Records(op, d, old(c.got), c.got, old(c.accepted), c.accepted)
    ensures op.OpRead? && d.r.Took? ==>
      && old(c.Unread()) == d.r.data + c.Unread() && (|d.r.data| < op.n ==> c.Unread() == [])
    ensures op.OpWrite? ==> (d.refused <==> old(c.sentEOF) || old(c.sentClose))
  {
    assert c.outbox + [] == c.outbox;
    PerformKeeps(c.State(), op);
    hide Write, Read;
    d := Else;
    match op
    case OpWrite(p) =>
      var refused := c.DoWrite(p);
      d := Gave(p, refused);
    case OpSent => c.PacketSent();
    case OpRead(n) =>
      var r := c.DoRead(n);
      d := Asked(n, r);
    case OpAdjust => c.DoAdjustWindow();
    case OpCloseWrite => c.DoCloseWrite();
    case OpClose => c.DoDoClose();
  }

  /** Only reads get bytes, only writes take them. */
  lemma PerformKeeps(e: End, op: Op)
    requires Enabled(e, op)
    ensures !op.OpRead? ==> Perform(e, op).end.got == e.got
    ensures !op.OpWrite? ==> Perform(e, op).end.accepted == e.accepted
  {
    match op
    case OpWrite(p) => WriteOnlyWrites(e, p);
    case OpRead(n) => ReadIs(e, n);
    case _ =>
  }

  lemma ReceiveKeepsBoth(e: End, x: Item)
    ensures Receive(e, x).end.got == e.got && Receive(e, x).end.accepted == e.accepted
  {
    match x
    case Adjust(n) => CreditKeeps(e, n);
    case Confirm(win, max) => CreditKeeps(e.(maxRemotePayload := max), win);
    case _ =>
  }

  lemma {:induction false} DrainKeeps(e: End)
    ensures Drain(e).end.got == e.got && Drain(e).end.accepted == e.accepted
    decreases |e.writers|
  {
    hide Drain, TryWrite;
    if e.remoteWin > 0 && e.writers != [] && e.maxRemotePayload > 0 {
      var e1 := e.(writers := e.writers[1..]);
      DrainStep(e);
      TryWriteShape(e1, e.writers[0]);
      DrainKeeps(TryWrite(e1, e.writers[0]).end);
    } else {
      DrainRests(e);
    }
  }

  lemma DrainRests(e: End)
    requires e.remoteWin == 0 || e.writers == [] || e.maxRemotePayload == 0
    ensures Drain(e) == Out(e, [])
  {
  }

  lemma CreditKeeps(e: End, n: nat)
    ensures AddWindow(e, n).end.got == e.got && AddWindow(e, n).end.accepted == e.accepted
  {
    hide Drain;
    DrainKeeps(e.(remoteWin := e.remoteWin + n, parked := false));
  }

  /** A message for a channel object, which may be gone. */
  method Receiving(c: Channel, item: Item)
    requires c.maxRemotePayload > 0 || !item.Adjust?
    modifies c
    ensures c.got == old(c.got) && c.accepted == old(c.accepted)
    ensures c.State() == Receive(old(c.State()), item).end && c.outbox == old(c.outbox) + Receive(old(c.State()), item).items
  {
    assert c.outbox + [] == c.outbox;
    ReceiveKeepsBoth(c.State(), item);
    hide Handle;
    if !c.removed {
      c.DoHandle(item);
    }
  }

  class Pair {
    const a: Channel
    var b: Channel?
    var ab: seq<Item>
    var ba: seq<Item>

    ghost predicate Valid()
      reads this, a, b
    {
      && a.outbox == [] && (b != null ==> b != a && b.outbox == [])
      && Inv(Now())
    }

    ghost function Now(): Link
      reads this, a, b
    {
      Link(a.State(), if b == null then None else Some(b.State()), ab, ba)
    }

    constructor ()
      ensures Valid() && Now() == Opened() && fresh(a) && b == null
    {
      a := new Channel();
      b, ab, ba := null, [], [];
    }

    /** The far end handles the Open. */
    method AcceptOpen()
      requires Valid() && b == null
      modifies this
      ensures Valid() && Now() == Next(old(Now()), Accept) && b != null && fresh(b)
      ensures b.got == [] && b.accepted == []
    {
      hide Inv;
      NextInv(Now(), Accept);
      var c := new Channel();
      c.maxRemotePayload, c.remoteWin := MAX_PACKET, WINDOW;
      b := c;
      ba := ba + [Confirm(WINDOW, MAX_PACKET)];
    }

    method ActA(op: Op) returns (d: Deed)
      requires Valid() && Can(Now(), OpA(op))
      modifies this, a
      ensures Valid() && b == old(b) && Now() == Next(old(Now()), OpA(op))
      ensures Records(op, d, old(a.got), a.got, old(a.accepted), a.accepted)
    {
      hide Inv, Perform, Enabled;
      NextInv(Now(), OpA(op));
      d := Act(a, op);
      assert a.outbox == Perform(old(a.State()), op).items;
      ab := ab + a.outbox;
      a.outbox := [];
    }

    method ActB(op: Op) returns (d: Deed)
      requires Valid() && Can(Now(), OpB(op))
      modifies this, b
      ensures Valid() && b == old(b) && Now() == Next(old(Now()), OpB(op))
      ensures Records(op, d, old(b.got), b.got, old(b.accepted), b.accepted)
    {
      hide Inv, Perform, Enabled;
      NextInv(Now(), OpB(op));
      d := Act(b, op);
      assert b.outbox == Perform(old(b.State()), op).items;
      ba := ba + b.outbox;
      b.outbox := [];
    }

    method DeliverA()
      requires Valid() && Can(Now(), ToA)
      modifies this, a
      ensures Valid() && b == old(b) && Now() == Next(old(Now()), ToA)
      ensures a.got == old(a.got) && a.accepted == old(a.accepted)
    {
      hide Inv, Receive;
      NextInv(Now(), ToA);
      CreditComesLater(Now());
      var item := ba[0];
      ba := ba[1..];
      Receiving(a, item);
      assert a.outbox == Receive(old(a.State()), item).items;
      ab := ab + a.outbox;
      a.outbox := [];
    }

    method DeliverB()
      requires Valid() && Can(Now(), ToB)
      modifies this, b
      ensures Valid() && b == old(b) && Now() == Next(old(Now()), ToB)
      ensures b.got == old(b.got) && b.accepted == old(b.accepted)
    {
      hide Inv, Receive;
      NextInv(Now(), ToB);
      CreditComesLater(Now());
      var item := ab[0];
      ab := ab[1..];
      Receiving(b, item);
      assert b.outbox == Receive(old(b.State()), item).items;
      ba := ba + b.outbox;
      b.outbox := [];
    }

    method Step(s: Step) returns (d: Deed)
      requires Valid() && Can(Now(), s)
      modifies this, a, b
      ensures Valid() && Now() == Next(old(Now()), s)
      ensures if s.Accept? then old(b) == null && fresh(b) && b.got == [] && b.accepted == [] else b == old(b)
      ensures if s.OpA? then Records(s.op, d, old(a.got), a.got, old(a.accepted), a.accepted)
              else a.got == old(a.got) && a.accepted == old(a.accepted)
      ensures if s.OpB? then Records(s.op, d, old(b.got), b.got, old(b.accepted), b.accepted)
              else old(b) != null ==> b.got == old(b.got) && b.accepted == old(b.accepted)
    {
      hide Inv, Next, Records;
      d := Else;
      match s
      case Accept => AcceptOpen();
      case OpA(op) => d := ActA(op);
      case OpB(op) => d := ActB(op);
      case ToA => DeliverA();
      case ToB => DeliverB();
    }
  }

  /** Credit never comes to an end before its confirmation. */
  lemma CreditComesLater(l: Link)
    requires Inv(l)
    ensures l.ba != [] ==> l.a.maxRemotePayload > 0 || !l.ba[0].Adjust?
    ensures l.b.Some? ==> l.b.value.maxRemotePayload > 0
  {
  }

  /** No read gives more than it was asked for. */
  predicate Bounded(ds: seq<Deed>) {
    forall i :: 0 <= i < |ds| && ds[i].Asked? && ds[i].r.Took? ==> |ds[i].r.data| <= ds[i].n
  }

  /** Objects driven through any run.  `atA` and `atB` are what the callers at the two ends did.  No read gives more
      than it was asked for; neither throw of `handleData` is reached; what the readers at one end got is a prefix of
      what the writers at the other end gave, one write at a time; while both ends are open the windows balance;
      nothing is stranded where hand-overs end before their answers come; and when all has arrived the ends agree on
      what has ended. */
  method Drive(run: seq<Step>) returns (p: Pair, atA: seq<Deed>, atB: seq<Deed>)
    requires Legal(Opened(), run)
    ensures p.Valid() && p.Now() == After(Opened(), run)
    ensures Bounded(atA) && Bounded(atB)
    ensures !p.a.failed && (p.b != null ==> !p.b.failed)
    ensures p.b != null && p.a.solo ==> Taken(atB) <= Given(atA)
    ensures p.b != null && p.b.solo ==> Taken(atA) <= Given(atB)
    ensures p.b != null && !p.a.sentClose && !p.b.sentClose ==>
      && p.b.myWindow == p.a.remoteWin + Bytes(p.ab) + Credit(p.ba)
      && p.a.myWindow == p.b.remoteWin + Bytes(p.ba) + Credit(p.ab)
    ensures MuxWrites.Prompt(Opened(), run) && MuxWrites.Settled(p.Now()) ==> p.a.writers == [] && p.b.writers == []
    ensures p.b != null && p.ab == [] && p.ba == [] ==> (p.a.sentClose <==> p.b.sentClose)
    ensures p.b != null && p.ab == [] && p.ba == [] && !p.a.sentClose ==>
      (p.b.gotEOF <==> p.a.sentEOF) && (p.a.gotEOF <==> p.b.sentEOF)
  {
    hide Inv, Next, Can, Legal, MuxWrites.Prompt, Given, Taken;
    p, atA, atB := Replay(run);
    NeverFails(run);
    ReadsArePrefixes(run);
    WindowsBalance(run);
    MuxEnds.EndsMeet(run);
    if MuxWrites.Prompt(Opened(), run) && MuxWrites.Settled(p.Now()) {
      MuxWrites.PromptRunsFinish(run);
    }
  }

  /** The run, step by step. */
  method Replay(run: seq<Step>) returns (p: Pair, atA: seq<Deed>, atB: seq<Deed>)
    requires Legal(Opened(), run)
    ensures p.Valid() && p.Now() == After(Opened(), run) && Bounded(atA) && Bounded(atB)
    ensures p.a.got == Taken(atA) && p.a.accepted == Given(atA)
    ensures p.b != null ==> p.b.got == Taken(atB) && p.b.accepted == Given(atB)
  {
    p := new Pair();
    atA, atB := [], [];
    hide Inv, Next, Can, MuxWrites.Prompt, Given, Taken;
    NothingDone();
    var i := 0;
    while i < |run|
      invariant i <= |run| && p.Valid() && fresh(p) && fresh(p.a) && (p.b != null ==> fresh(p.b))
      invariant Legal(p.Now(), run[i..]) && After(p.Now(), run[i..]) == After(Opened(), run)
      invariant Bounded(atA) && Bounded(atB)
      invariant p.a.got == Taken(atA) && p.a.accepted == Given(atA)
      invariant if p.b == null then atB == [] else p.b.got == Taken(atB) && p.b.accepted == Given(atB)
    {
      assert run[i..][0] == run[i] && run[i..][1..] == run[i + 1..];
      FarEndIsThere(p.Now(), run[i]);
      var d := p.Step(run[i]);
      NothingDone();
      OneMore(atA, d);
      OneMore(atB, d);
      if run[i].OpA? { atA := atA + [d]; }
      if run[i].OpB? { atB := atB + [d]; }
      i := i + 1;
    }
  }

  lemma FarEndIsThere(l: Link, s: Step)
    requires Can(l, s)
    ensures s.OpB? ==> l.b.Some?
  {
  }

  lemma NothingDone()
    ensures Given([]) == [] && Taken([]) == []
  {
  }
}
