/** How a multiplexed channel ends: end of file and Close reach the other end, nothing follows a Close, and
    when everything has arrived both ends agree on what has ended. */
module MuxEnds {
  import opened Utf16
  import opened MuxChannel
  import opened MuxLink

  /** An end that closed takes nothing more in and sends nothing more. */
  predicate Closed(e: End) {
    (e.sentClose ==> e.gotEOF) && (e.removed ==> e.sentClose)
  }

  /** Close is the last message of a pipe. */
  predicate CloseLast(items: seq<Item>) {
    forall i :: 0 <= i < |items| && items[i].Close? ==> i == |items| - 1
  }

  /** End of file and Close are on their way or have come; a Close that came was answered or took the channel
      down. */
  predicate Tells(snd: End, rcv: End, fwd: seq<Item>, bwd: seq<Item>) {
    && Closed(snd)
    && (snd.sentEOF && !snd.sentClose ==> Eof in fwd || rcv.gotEOF)
    && (snd.sentClose ==> Close in fwd || rcv.removed || (rcv.sentClose && (Close in bwd || snd.removed)))
    && (Close in fwd ==> snd.sentClose)
    && CloseLast(fwd)
  }

  predicate Told(l: Link) {
    l.b.Some? ==> Tells(l.a, l.b.value, l.ab, l.ba) && Tells(l.b.value, l.a, l.ba, l.ab)
  }

  /** What an end sends when it ends something. */
  predicate EndsStep(e: End, o: Out) {
    && Closed(o.end)
    && (e.sentEOF ==> o.end.sentEOF) && (e.sentClose ==> o.end.sentClose) && (e.gotEOF ==> o.end.gotEOF)
    && (e.removed ==> o.end.removed)
    && (e.sentClose ==> o.items == [])
    && (o.end.sentClose && !e.sentClose ==> o.items == [Close] && !o.end.removed)
    && (Close in o.items ==> o.end.sentClose && !e.sentClose)
    && (o.end.sentEOF && !e.sentEOF && !o.end.sentClose ==> Eof in o.items)
  }

  lemma WritesEnd(e: End, o: Out)
    requires Closed(e) && OnlyWrites(e, o)
    ensures EndsStep(e, o)
  {
  }

  lemma CreditEnds(e: End, n: nat)
    requires Closed(e) && e.maxRemotePayload <= MAX_PACKET
    ensures EndsStep(e, AddWindow(e, n))
  {
    var e1 := e.(remoteWin := e.remoteWin + n, parked := false);
    DrainOnly(e1);
    WritesEnd(e1, Drain(e1));
    hide Drain;
  }

  lemma PerformEnds(e: End, op: Op)
    requires Closed(e) && Enabled(e, op) && e.maxRemotePayload <= MAX_PACKET
    ensures EndsStep(e, Perform(e, op))
  {
    match op
    case OpWrite(p) =>
      if !e.sentEOF && !e.sentClose {
        var e1 := e.(accepted := e.accepted + p, solo := e.solo && e.writers == [] && e.sending == []);
        TryWriteOnly(e1, p);
        hide TryWrite;
        WritesEnd(e1, TryWrite(e1, p));
      }
    case OpRead(n) =>
      ReadIs(e, n);
      hide Read;
    case _ =>
  }

  lemma ReceiveEnds(e: End, x: Item)
    requires Closed(e) && e.maxRemotePayload <= MAX_PACKET && !x.Confirm?
    ensures EndsStep(e, Receive(e, x))
    ensures x.Eof? ==> Receive(e, x).end.gotEOF
    ensures x.Close? && !e.removed ==> if e.sentClose then Receive(e, x).end.removed else Receive(e, x).items == [Close]
  {
    if x.Adjust? && !e.removed {
      hide AddWindow;
      CreditEnds(e, x.additionalBytes);
      assert Receive(e, x) == AddWindow(e, x.additionalBytes);
    }
  }

  /** One end does something: both directions stay in order. */
  lemma OwnStep(e: End, peer: End, fwd: seq<Item>, bwd: seq<Item>, o: Out)
    requires Tells(e, peer, fwd, bwd) && Tells(peer, e, bwd, fwd) && EndsStep(e, o)
    ensures Tells(o.end, peer, fwd + o.items, bwd) && Tells(peer, o.end, bwd, fwd + o.items)
  {
    CloseAtEnd(e, fwd, o.items);
    assert forall x :: x in fwd + o.items <==> x in fwd || x in o.items;
  }

  lemma CloseAtEnd(e: End, fwd: seq<Item>, items: seq<Item>)
    requires CloseLast(fwd) && (Close in fwd ==> items == []) && (Close in items ==> items == [Close])
    ensures CloseLast(fwd + items)
  {
    forall i | 0 <= i < |fwd + items| && (fwd + items)[i].Close? ensures i == |fwd + items| - 1 {
      if i < |fwd| {
        assert fwd[i] in fwd;
        assert fwd + items == fwd;
      } else {
        assert items[i - |fwd|] in items;
      }
    }
  }

  /** One end handles a message. */
  lemma HandledStep(e: End, peer: End, fwd: seq<Item>, bwd: seq<Item>, o: Out)
    requires bwd != [] && Tells(e, peer, fwd, bwd) && Tells(peer, e, bwd, fwd) && EndsStep(e, o)
    requires bwd[0].Eof? ==> o.end.gotEOF
    requires bwd[0].Close? && !e.removed ==> if e.sentClose then o.end.removed else o.items == [Close]
    ensures Tells(o.end, peer, fwd + o.items, bwd[1..]) && Tells(peer, o.end, bwd[1..], fwd + o.items)
  {
    OwnStep(e, peer, fwd, bwd, o);
    assert forall x :: x in bwd <==> x == bwd[0] || x in bwd[1..];
    assert bwd[0].Close? ==> bwd[1..] == [];
    assert forall x :: x in fwd + o.items <==> x in fwd || x in o.items;
  }

  lemma NextTold(l: Link, s: Step)
    requires Inv(l) && Told(l) && Can(l, s)
    ensures Told(Next(l, s))
  {
    hide Tells, Perform, Receive, EndsStep, Dir, Local;
    match s
    case Accept => AcceptTold(l);
    case OpA(op) =>
      if l.b.Some? {
        EndsAre(l);
        PerformEnds(l.a, op);
        OwnStep(l.a, l.b.value, l.ab, l.ba, Perform(l.a, op));
      }
    case OpB(op) =>
      EndsAre(l);
      PerformEnds(l.b.value, op);
      OwnStep(l.b.value, l.a, l.ba, l.ab, Perform(l.b.value, op));
    case ToA =>
      EndsAre(l);
      if l.a.maxRemotePayload == 0 {
        ConfirmTold(l);
      } else {
        ReceiveEnds(l.a, l.ba[0]);
        HandledStep(l.a, l.b.value, l.ab, l.ba, Receive(l.a, l.ba[0]));
      }
    case ToB =>
      EndsAre(l);
      ReceiveEnds(l.b.value, l.ab[0]);
      HandledStep(l.b.value, l.a, l.ba, l.ab, Receive(l.b.value, l.ab[0]));
  }

  lemma EndsAre(l: Link)
    requires Inv(l) && Told(l) && l.b.Some?
    ensures Closed(l.a) && Closed(l.b.value)
    ensures l.a.maxRemotePayload <= MAX_PACKET && l.b.value.maxRemotePayload <= MAX_PACKET
    ensures l.a.maxRemotePayload == 0 ==> l.a == Fresh() && l.ab == [] && l.ba != [] && l.ba[0] == Confirm(WINDOW, MAX_PACKET)
    ensures l.a.maxRemotePayload != 0 && l.ba != [] ==> !l.ba[0].Confirm?
    ensures l.ab != [] ==> !l.ab[0].Confirm?
  {
  }

  lemma AcceptTold(l: Link)
    requires Inv(l) && l.b.None?
    ensures Told(Next(l, Accept))
  {
  }

  lemma ConfirmTold(l: Link)
    requires Told(l) && l.b.Some? && l.a == Fresh() && l.ab == [] && l.ba != [] && l.ba[0] == Confirm(WINDOW, MAX_PACKET)
    ensures Told(Next(l, ToA))
  {
    JoinedReceives();
    hide Receive;
    HandledStep(l.a, l.b.value, l.ab, l.ba, Out(Accepted(), []));
  }

  lemma {:induction false} RunTold(l: Link, run: seq<Step>)
    requires Inv(l) && Told(l) && Legal(l, run)
    ensures Told(After(l, run))
    decreases |run|
  {
    hide Inv, Told, Next;
    if run != [] {
      NextTold(l, run[0]);
      NextInv(l, run[0]);
      RunTold(Next(l, run[0]), run[1..]);
    }
  }

  /** In every run, when everything sent has arrived: a side that has not closed has end of file exactly if the
      other ended its writing or closed; either both have closed or none has, and if they have, at least one is out
      of its session's table. */
  lemma EndsMeet(run: seq<Step>)
    requires Legal(Opened(), run)
    ensures var l := After(Opened(), run);
            l.b.Some? && l.ab == [] && l.ba == [] ==>
              var b := l.b.value;
              && (!l.a.sentClose && !b.sentClose ==> (b.gotEOF <==> l.a.sentEOF) && (l.a.gotEOF <==> b.sentEOF))
              && (l.a.sentClose <==> b.sentClose)
              && (l.a.sentClose ==> l.a.gotEOF && b.gotEOF && (l.a.removed || b.removed))
  {
    RunInv(Opened(), run);
    RunTold(Opened(), run);
  }

  /** In every run nothing is sent after a Close, and what is gone was closed. */
  lemma NothingAfterClose(run: seq<Step>)
    requires Legal(Opened(), run)
    ensures var l := After(Opened(), run);
            l.b.Some? ==>
              && (forall i :: 0 <= i < |l.ab| && l.ab[i].Close? ==> i == |l.ab| - 1)
              && (forall i :: 0 <= i < |l.ba| && l.ba[i].Close? ==> i == |l.ba| - 1)
              && (l.a.removed ==> l.a.sentClose) && (l.b.value.removed ==> l.b.value.sentClose)
  {
    RunInv(Opened(), run);
    RunTold(Opened(), run);
  }

  /** Once an end has closed, a read never waits: it gives what is buffered, then end of file. */
  lemma ClosedReadsEnd(run: seq<Step>, n: nat)
    requires Legal(Opened(), run) && After(Opened(), run).b.Some?
    ensures var l := After(Opened(), run);
            && (l.a.sentClose ==> !Read(l.a, n).1.Waits?)
            && (l.b.value.sentClose ==> !Read(l.b.value, n).1.Waits?)
  {
    RunTold(Opened(), run);
    var l := After(Opened(), run);
    ReadIs(l.a, n);
    ReadIs(l.b.value, n);
    hide Read, After, Legal;
  }
}
