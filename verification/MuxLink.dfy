/** Both ends of one channel and the two in-order pipes between them.

    The invariant `Inv` holds in every state a run can reach; the theorems read it. */
module MuxLink {
  import opened Utf16
  import opened MuxChannel

  /** `b` is absent until the other side has handled the Open. */
  datatype Link = Link(a: End, b: Option<End>, ab: seq<Item>, ba: seq<Item>)

  function Opened(): Link { Link(Fresh(), None, [], []) }

  /** What `handleOpen` builds, before it sends the confirmation; the opening end is the same once it
      has received that. */
  function Accepted(): End { Fresh().(maxRemotePayload := MAX_PACKET, remoteWin := WINDOW) }

  /** What the user of an end, or a promise it is waiting for, can make it do. */
  datatype Op =
    | OpWrite(p: seq<byte>) | OpSent | OpRead(n: nat) | OpAdjust | OpCloseWrite | OpClose

  predicate Enabled(e: End, op: Op) {
    && e.maxRemotePayload > 0     // `open` hands the channel out after the confirmation
    && (op.OpSent? ==> e.sending != [])
    && (op.OpAdjust? ==> e.owed != [])
  }

  function Perform(e: End, op: Op): Out
    requires Enabled(e, op)
  {
    match op
    case OpWrite(p) => Write(e, p)
    case OpSent => Out(MuxChannel.Sent(e), [])
    case OpRead(n) => Out(Read(e, n).0, [])
    case OpAdjust => AdjustWindow(e)
    case OpCloseWrite => CloseWrite(e)
    case OpClose => DoClose(e)
  }

  /** The session finds the channel in its table or drops the message. */
  function Receive(e: End, item: Item): Out {
    if e.removed then Out(e, []) else Handle(e, item)
  }

  datatype Step = Accept | OpA(op: Op) | OpB(op: Op) | ToA | ToB

  predicate Can(l: Link, s: Step) {
    match s
    case Accept => l.b.None?
    case OpA(op) => Enabled(l.a, op)
    case OpB(op) => l.b.Some? && Enabled(l.b.value, op)
    case ToA => l.ba != []
    case ToB => l.b.Some? && l.ab != []
  }

  function Next(l: Link, s: Step): Link
    requires Can(l, s)
  {
    match s
    case Accept => l.(b := Some(Accepted()), ba := l.ba + [Confirm(WINDOW, MAX_PACKET)])
    case OpA(op) => var o := Perform(l.a, op); l.(a := o.end, ab := l.ab + o.items)
    case OpB(op) => var o := Perform(l.b.value, op); l.(b := Some(o.end), ba := l.ba + o.items)
    case ToA => var o := Receive(l.a, l.ba[0]); l.(a := o.end, ba := l.ba[1..], ab := l.ab + o.items)
    case ToB => var o := Receive(l.b.value, l.ab[0]); l.(b := Some(o.end), ab := l.ab[1..], ba := l.ba + o.items)
  }

  /** A run: any finite choice of steps, each possible when it is taken. */
  predicate Legal(l: Link, run: seq<Step>)
    decreases |run|
  {
    run == [] || (Can(l, run[0]) && Legal(Next(l, run[0]), run[1..]))
  }

  function After(l: Link, run: seq<Step>): Link
    requires Legal(l, run)
    decreases |run|
  {
    if run == [] then l else After(Next(l, run[0]), run[1..])
  }

  // ------------------------------------------------------------------- what pipes contain

  function Bytes(items: seq<Item>): nat {
    if items == [] then 0
    else (if items[0].Chunk? then |items[0].data| else 0) + Bytes(items[1..])
  }

  function Payload(items: seq<Item>): seq<byte> {
    if items == [] then []
    else (if items[0].Chunk? then items[0].data else []) + Payload(items[1..])
  }

  function Credit(items: seq<Item>): nat {
    if items == [] then 0
    else (match items[0]
          case Adjust(n) => n
          case Confirm(n, _) => n
          case _ => 0) + Credit(items[1..])
  }

  function Sum(ns: seq<nat>): nat {
    if ns == [] then 0 else ns[0] + Sum(ns[1..])
  }

  predicate NoConfirm(items: seq<Item>) { forall x :: x in items ==> !x.Confirm? }
  predicate NoChunk(items: seq<Item>) { forall x :: x in items ==> !x.Chunk? }
  predicate Small(items: seq<Item>) { forall x :: x in items && x.Chunk? ==> |x.data| <= MAX_PACKET }

  /** Nothing follows end of file but credit and Close. */
  predicate EofLast(items: seq<Item>) {
    forall i, j :: 0 <= i < j < |items| && items[i].Eof? ==> !items[j].Chunk?
  }

  lemma {:induction false} AppendBytes(xs: seq<Item>, ys: seq<Item>)
    ensures Bytes(xs + ys) == Bytes(xs) + Bytes(ys)
  {
    if xs == [] {
      assert xs + ys == ys;
    } else {
      AppendBytes(xs[1..], ys);
      assert (xs + ys)[1..] == xs[1..] + ys;
    }
  }

  lemma {:induction false} AppendCredit(xs: seq<Item>, ys: seq<Item>)
    ensures Credit(xs + ys) == Credit(xs) + Credit(ys)
  {
    if xs == [] {
      assert xs + ys == ys;
    } else {
      AppendCredit(xs[1..], ys);
      assert (xs + ys)[1..] == xs[1..] + ys;
    }
  }

  lemma Assoc(a: seq<byte>, b: seq<byte>, c: seq<byte>)
    ensures a + (b + c) == (a + b) + c
  {
  }

  lemma {:induction false} AppendPayload(xs: seq<Item>, ys: seq<Item>)
    ensures Payload(xs + ys) == Payload(xs) + Payload(ys)
  {
    if xs == [] {
      assert xs + ys == ys;
    } else {
      AppendPayload(xs[1..], ys);
      assert (xs + ys)[1..] == xs[1..] + ys;
      Assoc(if xs[0].Chunk? then xs[0].data else [], Payload(xs[1..]), Payload(ys));
    }
  }

  lemma Append(xs: seq<Item>, ys: seq<Item>)
    ensures Bytes(xs + ys) == Bytes(xs) + Bytes(ys)
    ensures Credit(xs + ys) == Credit(xs) + Credit(ys)
    ensures Payload(xs + ys) == Payload(xs) + Payload(ys)
  {
    AppendBytes(xs, ys);
    AppendCredit(xs, ys);
    AppendPayload(xs, ys);
  }

  lemma {:induction false} SumAppend(xs: seq<nat>, n: nat)
    ensures Sum(xs + [n]) == Sum(xs) + n
  {
    if xs == [] {
      assert [] + [n] == [n];
    } else {
      SumAppend(xs[1..], n);
      assert (xs + [n])[1..] == xs[1..] + [n];
    }
  }

  lemma {:induction false} QuietPayload(items: seq<Item>)
    ensures NoChunk(items) ==> Payload(items) == [] && Bytes(items) == 0
    ensures |Payload(items)| == Bytes(items)
  {
    if items != [] {
      QuietPayload(items[1..]);
    }
  }

  // --------------------------------------------------------------------------- invariant

  /** One direction: what `snd` sends and `rcv` receives, with `bwd` carrying the credit. */
  predicate Dir(snd: End, rcv: End, fwd: seq<Item>, bwd: seq<Item>) {
    // flow control: an exact account until the receiver closes
    && snd.remoteWin + Bytes(fwd) + Credit(bwd) <= rcv.myWindow
    && (!rcv.sentClose && !snd.removed ==> snd.remoteWin + Bytes(fwd) + Credit(bwd) == rcv.myWindow)
    && Small(fwd)
    // delivery: what was read, what is buffered and what is on its way is what was sent
    && (rcv.readBuf.Some? ==> rcv.got + rcv.readBuf.value + Payload(fwd) == snd.sent)
    && (rcv.readBuf.None? ==> rcv.got <= snd.sent && (!rcv.sentClose ==> rcv.got == snd.sent))
    // end of file
    && (Eof in fwd ==> snd.sentEOF)
    && EofLast(fwd)
    && (rcv.gotEOF && !rcv.sentClose ==> snd.sentEOF && NoChunk(fwd))
  }

  /** What is left of the outstanding write. */
  function Rest(e: End): seq<byte> {
    if e.writers != [] then e.writers[0]
    else if e.sending != [] && e.sending[0].packet <= |e.sending[0].left| then e.sending[0].left[e.sending[0].packet..]
    else []
  }

  /** Window, buffer and credit of one end add up to the channel window. */
  predicate LocalRead(e: End) {
    && e.myWindow + |Buffered(e)| + Sum(e.owed) <= WINDOW
    && (!e.sentClose ==> e.myWindow + |Buffered(e)| + Sum(e.owed) == WINDOW)
    && (e.readBuf.None? && !e.sentClose ==> e.gotEOF)
    && (e.removed ==> e.sentClose && e.readBuf.None?)
    && !e.failed
  }

  predicate WritersOk(e: End) {
    && (forall i :: 0 <= i < |e.writers| ==> e.writers[i] != [])
    && (forall i :: 0 <= i < |e.sending| ==> 0 < e.sending[i].packet <= |e.sending[i].left|)
  }

  /** With one write at a time, what was accepted is what was sent and what is left. */
  predicate SoloOk(e: End) {
    e.solo ==>
      && |e.writers| + |e.sending| <= 1
      && e.sent <= e.accepted
      && (!e.sentEOF && !e.sentClose ==> e.sent + Rest(e) == e.accepted)
  }

  /** What waits though nothing parked since credit last came waits for a window that is used up. */
  predicate ParkOk(e: End) {
    && (e.parked ==> e.writers != [])
    && (e.writers != [] && !e.parked ==> e.remoteWin == 0)
  }

  predicate LocalWrite(e: End) {
    && (e.maxRemotePayload == 0 || e.maxRemotePayload == MAX_PACKET)
    && WritersOk(e) && SoloOk(e) && ParkOk(e)
  }

  predicate Local(e: End) {
    LocalRead(e) && LocalWrite(e)
  }

  predicate Inv(l: Link) {
    match l.b
    case None => l.a == Fresh() && l.ab == [] && l.ba == []
    case Some(b) =>
      && Local(l.a) && Local(b) && Dir(l.a, b, l.ab, l.ba) && Dir(b, l.a, l.ba, l.ab)
      && NoConfirm(l.ab)
      && b.maxRemotePayload == MAX_PACKET
      && (if l.a.maxRemotePayload == 0 then
            l.a == Fresh() && l.ab == [] && l.ba != [] && l.ba[0] == Confirm(WINDOW, MAX_PACKET) && NoConfirm(l.ba[1..])
          else NoConfirm(l.ba))
  }

  // ------------------------------------------- what one operation does, as sender and receiver

  /** As a sender, with `win` bytes of credit taken in. */
  predicate SenderStep(e: End, o: Out, win: nat) {
    && o.end.remoteWin + Bytes(o.items) == e.remoteWin + win
    && o.end.sent == e.sent + Payload(o.items)
    && Small(o.items) && NoConfirm(o.items)
    && (Eof in o.items ==> o.end.sentEOF)
    && EofLast(o.items)
    && (e.sentEOF ==> o.end.sentEOF && NoChunk(o.items))
    && (e.removed ==> o.end.removed)
  }

  /** As a receiver, with nothing taken from the pipe. */
  predicate ReceiverStep(e: End, o: Out) {
    && e.myWindow + Credit(o.items) <= o.end.myWindow
    && (!e.sentClose ==> o.end.myWindow == e.myWindow + Credit(o.items))
    && (e.sentClose ==> o.end.sentClose)
    && (o.end.readBuf.Some? ==> e.readBuf.Some? && o.end.got + o.end.readBuf.value == e.got + e.readBuf.value)
    && (o.end.readBuf.None? && e.readBuf.Some? ==>
          o.end.got <= e.got + e.readBuf.value && (!o.end.sentClose ==> e.gotEOF && o.end.got == e.got + e.readBuf.value))
    && (o.end.readBuf.None? && e.readBuf.None? ==> o.end.got == e.got)
    && (!o.end.sentClose ==> (o.end.gotEOF == e.gotEOF))
  }

  lemma SenderKeeps(snd: End, rcv: End, fwd: seq<Item>, bwd: seq<Item>, bwd': seq<Item>, o: Out, win: nat)
    requires Dir(snd, rcv, fwd, bwd) && SenderStep(snd, o, win) && Local(rcv)
    requires Credit(bwd) == Credit(bwd') + win
    ensures Dir(o.end, rcv, fwd + o.items, bwd')
  {
    Append(fwd, o.items);
    QuietPayload(o.items);
    hide Bytes, Credit, Payload;
    if Eof in fwd || (rcv.gotEOF && !rcv.sentClose) {
      assert NoChunk(o.items);
    }
    Regroup(rcv, fwd, o.items);
  }

  lemma Regroup(rcv: End, fwd: seq<Item>, items: seq<Item>)
    ensures rcv.readBuf.Some? ==>
      rcv.got + rcv.readBuf.value + (Payload(fwd) + Payload(items)) == (rcv.got + rcv.readBuf.value + Payload(fwd)) + Payload(items)
  {
  }

  lemma ReceiverKeeps(snd: End, rcv: End, fwd: seq<Item>, bwd: seq<Item>, o: Out)
    requires Dir(snd, rcv, fwd, bwd) && ReceiverStep(rcv, o)
    ensures Dir(snd, o.end, fwd, bwd + o.items)
  {
    Append(bwd, o.items);
    QuietPayload(fwd);
    if o.end.readBuf.None? && rcv.readBuf.Some? {
      assert rcv.got + rcv.readBuf.value <= snd.sent;
    }
  }

  /** Only data was sent, out of the window, and only the writing side of the end changed. */
  predicate OnlyWrites(e: End, o: Out) {
    && o.end == e.(remoteWin := o.end.remoteWin, writers := o.end.writers, sending := o.end.sending, sent := o.end.sent,
                    parked := o.end.parked)
    && (forall x :: x in o.items ==> x.Chunk? && |x.data| <= MAX_PACKET)
    && (e.sentEOF || e.sentClose ==> o.items == [])
    && o.end.remoteWin + Bytes(o.items) == e.remoteWin
    && o.end.sent == e.sent + Payload(o.items)
  }

  lemma {:induction false} NoCredit(items: seq<Item>)
    requires forall x :: x in items ==> x.Chunk?
    ensures Credit(items) == 0
  {
    if items != [] {
      assert items[0] in items;
      NoCredit(items[1..]);
    }
  }

  lemma WritesAreSteps(e: End, o: Out)
    requires OnlyWrites(e, o)
    ensures SenderStep(e, o, 0) && ReceiverStep(e, o)
  {
    NoCredit(o.items);
  }

  lemma TryWriteOnly(e: End, p: seq<byte>)
    requires e.maxRemotePayload <= MAX_PACKET
    ensures OnlyWrites(e, TryWrite(e, p))
  {
    var o := TryWrite(e, p);
    if o.items != [] {
      assert o.items[1..] == [];
      assert Payload(o.items) == o.items[0].data + [];
    }
    assert e.sent + [] == e.sent;
  }

  /** Two such steps in a row, the second after one writer was taken off the list. */
  lemma OnlyWritesChain(e: End, e1: End, first: Out, second: Out)
    requires e1 == e.(writers := e1.writers)
    requires OnlyWrites(e1, first) && OnlyWrites(first.end, second)
    ensures OnlyWrites(e, Out(second.end, first.items + second.items))
  {
    Append(first.items, second.items);
  }

  lemma {:induction false} DrainOnly(e: End)
    requires e.maxRemotePayload <= MAX_PACKET
    ensures OnlyWrites(e, Drain(e))
    decreases |e.writers|
  {
    hide TryWrite, Drain, OnlyWrites;
    if e.remoteWin == 0 || e.writers == [] || e.maxRemotePayload == 0 {
      DrainIdle(e);
    } else {
      var e1 := e.(writers := e.writers[1..]);
      var first := TryWrite(e1, e.writers[0]);
      TryWriteOnly(e1, e.writers[0]);
      DrainStep(e);
      DrainOnly(first.end);
      OnlyWritesChain(e, e1, first, Drain(first.end));
    }
  }

  lemma DrainIdle(e: End)
    requires e.remoteWin == 0 || e.writers == [] || e.maxRemotePayload == 0
    ensures Drain(e) == Out(e, []) && OnlyWrites(e, Out(e, []))
  {
    assert e.sent + [] == e.sent;
  }

  /** Taking in credit. */
  lemma AddWindowStep(e: End, win: nat)
    requires e.maxRemotePayload <= MAX_PACKET
    ensures SenderStep(e, AddWindow(e, win), win) && ReceiverStep(e, AddWindow(e, win))
  {
    var e1 := e.(remoteWin := e.remoteWin + win, parked := false);
    DrainOnly(e1);
    WritesAreSteps(e1, Drain(e1));
    hide Drain;
  }

  /** Operations that send at most one message and no data. */
  lemma QuietSteps(e: End, o: Out, win: nat)
    requires |o.items| <= 1 && NoChunk(o.items) && NoConfirm(o.items)
    requires o.end.sent == e.sent && o.end.remoteWin == e.remoteWin + win
    requires (Eof in o.items ==> o.end.sentEOF) && (e.sentEOF ==> o.end.sentEOF) && (e.removed ==> o.end.removed)
    ensures SenderStep(e, o, win)
    ensures Credit(o.items) == if o.items != [] && o.items[0].Adjust? then o.items[0].additionalBytes else 0
  {
    assert e.sent + [] == e.sent;
    assert o.items != [] ==> o.items[1..] == [] && o.items[0] in o.items;
    QuietPayload(o.items);
  }

  lemma WriteSteps(e: End, p: seq<byte>)
    requires Local(e)
    ensures SenderStep(e, Write(e, p), 0) && ReceiverStep(e, Write(e, p))
  {
    var e1 := e.(accepted := e.accepted + p, solo := e.solo && e.writers == [] && e.sending == []);
    TryWriteOnly(e1, p);
    WritesAreSteps(e1, TryWrite(e1, p));
    hide TryWrite;
    if e.sentEOF || e.sentClose {
      QuietSteps(e, Write(e, p), 0);
    }
  }

  lemma ReadSteps(e: End, n: nat)
    ensures var o := Out(Read(e, n).0, []); SenderStep(e, o, 0) && ReceiverStep(e, o)
  {
    hide SenderStep, ReceiverStep;
    ReadSends(e, n);
    ReadTakes(e, n);
  }

  lemma ReadShape(e: End, n: nat)
    ensures var e' := Read(e, n).0; e' == e.(readBuf := e'.readBuf, owed := e'.owed, got := e'.got)
  {
    if e.readBuf.Some? {
      if e.readBuf.value != [] {
        var data := e.readBuf.value[..MuxChannel.Min(n, |e.readBuf.value|)];
        assert Read(e, n).1 == Took(data);
      }
    }
  }

  lemma ReadSends(e: End, n: nat)
    ensures SenderStep(e, Out(Read(e, n).0, []), 0)
  {
    hide SenderStep, Read;
    ReadShape(e, n);
    QuietSteps(e, Out(Read(e, n).0, []), 0);
  }

  lemma ReadTakes(e: End, n: nat)
    ensures ReceiverStep(e, Out(Read(e, n).0, []))
  {
    hide Credit;
    assert Credit([]) == 0 by { QuietCredit(); }
    if e.readBuf.Some? {
      var buf := e.readBuf.value;
      var k := MuxChannel.Min(n, |buf|);
      assert (e.got + buf[..k]) + buf[k..] == e.got + buf;
      assert e.got + [] == e.got;
    }
  }

  lemma QuietCredit()
    ensures Credit([]) == 0
  {
  }

  /** The reading side is untouched except for credit that was sent for. */
  lemma ReaderUntouched(e: End, o: Out)
    requires o.end.got == e.got && (e.sentClose ==> o.end.sentClose)
    requires o.end.readBuf == e.readBuf || (o.end.readBuf.None? && o.end.sentClose)
    requires o.end.gotEOF == e.gotEOF || o.end.sentClose
    requires e.myWindow + Credit(o.items) <= o.end.myWindow
    requires !e.sentClose ==> o.end.myWindow == e.myWindow + Credit(o.items)
    ensures ReceiverStep(e, o)
  {
    if o.end.readBuf.None? && e.readBuf.Some? {
      assert e.got <= e.got + e.readBuf.value;
    }
  }

  lemma AdjustSteps(e: End)
    requires e.owed != []
    ensures SenderStep(e, AdjustWindow(e), 0) && ReceiverStep(e, AdjustWindow(e))
  {
    hide SenderStep, ReceiverStep, Credit;
    QuietSteps(e, AdjustWindow(e), 0);
    ReaderUntouched(e, AdjustWindow(e));
  }

  lemma CloseWriteSteps(e: End)
    ensures SenderStep(e, CloseWrite(e), 0) && ReceiverStep(e, CloseWrite(e))
  {
    hide SenderStep, ReceiverStep, Credit;
    QuietSteps(e, CloseWrite(e), 0);
    ReaderUntouched(e, CloseWrite(e));
  }

  lemma CloseSteps(e: End)
    ensures SenderStep(e, DoClose(e), 0) && ReceiverStep(e, DoClose(e))
  {
    hide SenderStep, ReceiverStep, Credit;
    QuietSteps(e, DoClose(e), 0);
    ReaderUntouched(e, DoClose(e));
  }

  /** The end of a hand-over touches the lists of writes only. */
  lemma SentShape(e: End)
    requires e.sending != []
    ensures var e' := MuxChannel.Sent(e); e' == e.(sending := e.sending[1..], writers := e'.writers, parked := e'.parked)
  {
  }

  lemma SentSteps(e: End)
    requires e.sending != []
    ensures var o := Out(MuxChannel.Sent(e), []); SenderStep(e, o, 0) && ReceiverStep(e, o)
  {
    hide SenderStep, ReceiverStep, Credit, MuxChannel.Sent;
    SentShape(e);
    QuietCredit();
    QuietSteps(e, Out(MuxChannel.Sent(e), []), 0);
    ReaderUntouched(e, Out(MuxChannel.Sent(e), []));
  }

  /** Every operation of an end is a sender step and a receiver step. */
  lemma PerformSteps(e: End, op: Op)
    requires Enabled(e, op) && Local(e)
    ensures SenderStep(e, Perform(e, op), 0) && ReceiverStep(e, Perform(e, op))
  {
    hide SenderStep, ReceiverStep, Write, Read, AdjustWindow, CloseWrite, DoClose, MuxChannel.Sent;
    match op
    case OpWrite(p) => WriteSteps(e, p);
    case OpSent => SentSteps(e);
    case OpRead(n) => ReadSteps(e, n);
    case OpAdjust => AdjustSteps(e);
    case OpCloseWrite => CloseWriteSteps(e);
    case OpClose => CloseSteps(e);
  }

  // ---------------------------------------------------------------- the end's own invariant

  lemma TryWriteLocal(e: End, p: seq<byte>)
    requires WritersOk(e) && e.maxRemotePayload == MAX_PACKET && e.remoteWin <= WINDOW
    requires e.solo ==> e.writers == [] && e.sending == []
    requires e.solo ==> e.sent <= e.accepted
    requires e.solo && !e.sentEOF && !e.sentClose ==> e.sent + p == e.accepted
    requires ParkOk(e)
    ensures LocalWrite(TryWrite(e, p).end)
    ensures e.remoteWin > 0 ==> TryWrite(e, p).end.writers == e.writers
  {
    if e.sentEOF || e.sentClose || p == [] {
      assert e.sent + [] == e.sent;
    } else {
      var k := MuxChannel.Min(MuxChannel.Min(e.maxRemotePayload, |p|), e.remoteWin);
      if k > 0 {
        SendLocal(e, p, k);
      }
    }
  }

  lemma SendLocal(e: End, p: seq<byte>, k: nat)
    requires WritersOk(e) && e.maxRemotePayload == MAX_PACKET
    requires e.solo ==> e.writers == [] && e.sending == [] && e.sent + p == e.accepted
    requires 0 < k <= |p| && k <= e.remoteWin <= WINDOW && ParkOk(e)
    ensures LocalWrite(e.(remoteWin := e.remoteWin - k, sending := e.sending + [Sending(p, k)], sent := e.sent + p[..k]))
  {
    var e' := e.(remoteWin := e.remoteWin - k, sending := e.sending + [Sending(p, k)], sent := e.sent + p[..k]);
    assert (e.sent + p[..k]) + p[k..] == e.sent + p;
    assert WritersOk(e') && ParkOk(e');
  }

  lemma {:induction false} DrainLocal(e: End)
    requires WritersOk(e) && SoloOk(e) && e.maxRemotePayload == MAX_PACKET && e.remoteWin <= WINDOW
    requires !e.parked
    ensures LocalWrite(Drain(e).end)
    decreases |e.writers|
  {
    if e.remoteWin > 0 && e.writers != [] {
      var e1 := e.(writers := e.writers[1..]);
      var first := TryWrite(e1, e.writers[0]);
      DrainStep(e);
      FirstLocal(e);
      hide TryWrite, Drain;
      DrainLocal(first.end);
    } else {
      DrainDone(e);
    }
  }

  /** The first turn of the loop. */
  lemma FirstLocal(e: End)
    requires WritersOk(e) && SoloOk(e) && e.maxRemotePayload == MAX_PACKET && 0 < e.remoteWin <= WINDOW
    requires e.writers != [] && !e.parked
    ensures var f := TryWrite(e.(writers := e.writers[1..]), e.writers[0]).end;
            && WritersOk(f) && SoloOk(f) && f.maxRemotePayload == MAX_PACKET && f.remoteWin <= WINDOW
            && !f.parked
  {
    var e1, p := e.(writers := e.writers[1..]), e.writers[0];
    var o := TryWrite(e1, p);
    if !e.sentEOF && !e.sentClose {
      var k := |o.items[0].data|;
      assert o.end.sending[|e.sending|] == Sending(p, k);
      assert (e.sent + p[..k]) + p[k..] == e.sent + p;
    }
  }

  lemma SentLocal(e: End)
    requires LocalWrite(e) && e.sending != []
    ensures LocalWrite(MuxChannel.Sent(e))
  {
    SentWriters(e);
    hide WritersOk;
    if e.solo {
      assert e.writers == [] && |e.sending| == 1;
    }
  }

  lemma SentRest(e: End)
    requires e.writers == [] && |e.sending| == 1 ==> e.sending[0].packet <= |e.sending[0].left|
    requires e.sending != []
    ensures e.writers == [] && |e.sending| == 1 ==> Rest(MuxChannel.Sent(e)) == Rest(e)
  {
    var w := e.sending[0];
    assert w.packet >= |w.left| ==> w.packet == |w.left| || |e.sending| > 1 || e.writers != [];
    assert w.packet == |w.left| ==> w.left[w.packet..] == [];
  }

  lemma SentWriters(e: End)
    requires WritersOk(e) && e.sending != []
    ensures WritersOk(MuxChannel.Sent(e))
    ensures e.writers == [] && |e.sending| == 1 ==> Rest(MuxChannel.Sent(e)) == Rest(e)
  {
    hide Rest;
    SentRest(e);
    var e' := MuxChannel.Sent(e);
    assert forall i :: 0 <= i < |e'.sending| ==> e'.sending[i] == e.sending[i + 1];
  }

  lemma WriteLocal(e: End, p: seq<byte>)
    requires LocalWrite(e) && e.maxRemotePayload == MAX_PACKET && e.remoteWin <= WINDOW
    ensures LocalWrite(Write(e, p).end)
  {
    if !e.sentEOF && !e.sentClose {
      var e1 := e.(accepted := e.accepted + p, solo := e.solo && e.writers == [] && e.sending == []);
      if e1.solo {
        assert e.sent + [] == e.sent;
      }
      TryWriteLocal(e1, p);
    }
  }

  lemma ReadLocal(e: End, n: nat)
    requires LocalRead(e)
    ensures LocalRead(Read(e, n).0)
  {
    if e.readBuf.Some? && e.readBuf.value != [] {
      SumAppend(e.owed, MuxChannel.Min(n, |e.readBuf.value|));
    }
  }

  /** The writing side looks only at its own fields. */
  predicate SameWriting(e: End, e': End) {
    && e'.maxRemotePayload == e.maxRemotePayload && e'.writers == e.writers && e'.sending == e.sending
    && e'.remoteWin == e.remoteWin && e'.sent == e.sent && e'.accepted == e.accepted
    && e'.solo == e.solo && e'.parked == e.parked
  }

  /** Ending the writing side: parked writes may be dropped, nothing more is sent. */
  lemma WritingLocal(e: End, e': End)
    requires LocalWrite(e)
    requires SameWriting(e, e') || (SameWriting(e.(writers := [], parked := false), e') && (e'.sentEOF || e'.sentClose))
    requires (e.sentEOF ==> e'.sentEOF) && (e.sentClose ==> e'.sentClose)
    ensures LocalWrite(e')
  {
  }

  lemma TryWriteShape(e: End, p: seq<byte>)
    ensures var e' := TryWrite(e, p).end;
            e' == e.(remoteWin := e'.remoteWin, writers := e'.writers, sending := e'.sending, sent := e'.sent, parked := e'.parked)
  {
  }

  lemma WriteOnlyWrites(e: End, p: seq<byte>)
    ensures var e' := Write(e, p).end;
            e' == e.(accepted := e'.accepted, solo := e'.solo, remoteWin := e'.remoteWin,
                     writers := e'.writers, sending := e'.sending, sent := e'.sent, parked := e'.parked)
  {
    hide TryWrite;
    TryWriteShape(e.(accepted := e.accepted + p, solo := e.solo && e.writers == [] && e.sending == []), p);
  }

  lemma AdjustLocal(e: End)
    requires Local(e) && e.owed != []
    ensures Local(AdjustWindow(e).end)
  {
    hide LocalWrite;
    WritingLocal(e, AdjustWindow(e).end);
  }

  lemma CloseWriteLocal(e: End)
    requires Local(e)
    ensures Local(CloseWrite(e).end)
  {
    hide LocalWrite;
    WritingLocal(e, CloseWrite(e).end);
  }

  lemma CloseLocal(e: End)
    requires Local(e)
    ensures Local(DoClose(e).end)
  {
    hide LocalWrite;
    WritingLocal(e, DoClose(e).end);
  }

  lemma ReadsLocal(e: End, n: nat)
    requires Local(e)
    ensures Local(Read(e, n).0)
  {
    ReadLocal(e, n);
    hide LocalWrite, LocalRead;
    WritingLocal(e, Read(e, n).0);
  }

  lemma WritesLocal(e: End, p: seq<byte>)
    requires Local(e) && e.maxRemotePayload == MAX_PACKET && e.remoteWin <= WINDOW
    ensures Local(Write(e, p).end)
  {
    WriteLocal(e, p);
    WriteOnlyWrites(e, p);
    hide LocalWrite, Write;
  }

  lemma SentsLocal(e: End)
    requires Local(e) && e.sending != []
    ensures Local(MuxChannel.Sent(e))
  {
    SentLocal(e);
    SentShape(e);
    hide LocalWrite, MuxChannel.Sent;
  }

  /** Every operation keeps an end in order. */
  lemma PerformLocal(e: End, op: Op)
    requires Enabled(e, op) && Local(e) && e.remoteWin <= WINDOW
    ensures Local(Perform(e, op).end) && Perform(e, op).end.maxRemotePayload == e.maxRemotePayload
  {
    assert e.maxRemotePayload == MAX_PACKET;
    PerformMax(e, op);
    hide Local, Write, Read, AdjustWindow, CloseWrite, DoClose, MuxChannel.Sent;
    match op
    case OpWrite(p) => WritesLocal(e, p);
    case OpSent => SentsLocal(e);
    case OpRead(n) => ReadsLocal(e, n);
    case OpAdjust => AdjustLocal(e);
    case OpCloseWrite => CloseWriteLocal(e);
    case OpClose => CloseLocal(e);
  }

  lemma PerformMax(e: End, op: Op)
    requires Enabled(e, op)
    ensures Perform(e, op).end.maxRemotePayload == e.maxRemotePayload
  {
    match op
    case OpWrite(p) => WriteOnlyWrites(e, p);
    case OpSent =>
    case OpRead(n) =>
    case OpAdjust =>
    case OpCloseWrite =>
    case OpClose =>
  }

  // --------------------------------------------------------------------------- delivery

  /** Taking the first message out of a pipe. */
  lemma Pop(fwd: seq<Item>)
    requires fwd != []
    ensures Bytes(fwd) == (if fwd[0].Chunk? then |fwd[0].data| else 0) + Bytes(fwd[1..])
    ensures fwd[0].Chunk? ==> Payload(fwd) == fwd[0].data + Payload(fwd[1..])
    ensures !fwd[0].Chunk? ==> Payload(fwd) == Payload(fwd[1..])
    ensures Credit(fwd) == Credit([fwd[0]]) + Credit(fwd[1..])
    ensures Eof in fwd[1..] ==> Eof in fwd
    ensures EofLast(fwd) ==> EofLast(fwd[1..]) && (fwd[0].Eof? ==> NoChunk(fwd[1..]))
    ensures NoChunk(fwd) ==> NoChunk(fwd[1..]) && !fwd[0].Chunk?
    ensures Small(fwd) ==> Small(fwd[1..]) && (fwd[0].Chunk? ==> |fwd[0].data| <= MAX_PACKET)
    ensures NoConfirm(fwd) ==> NoConfirm(fwd[1..]) && !fwd[0].Confirm?
  {
    PopSums(fwd);
    hide Bytes, Credit, Payload;
    assert fwd[0] in fwd;
    assert forall x :: x in fwd[1..] ==> x in fwd;
  }

  lemma PopSums(fwd: seq<Item>)
    requires fwd != []
    ensures Bytes(fwd) == (if fwd[0].Chunk? then |fwd[0].data| else 0) + Bytes(fwd[1..])
    ensures fwd[0].Chunk? ==> Payload(fwd) == fwd[0].data + Payload(fwd[1..])
    ensures !fwd[0].Chunk? ==> Payload(fwd) == Payload(fwd[1..])
    ensures Credit(fwd) == Credit([fwd[0]]) + Credit(fwd[1..])
  {
    assert [fwd[0]][1..] == [];
    assert [] + Payload(fwd[1..]) == Payload(fwd[1..]);
  }

  /** A message with no data leaves the pipe: the direction it travelled in. */
  lemma PopQuiet(snd: End, rcv: End, fwd: seq<Item>, bwd: seq<Item>)
    requires fwd != [] && !fwd[0].Chunk? && Dir(snd, rcv, fwd, bwd)
    ensures Dir(snd, rcv, fwd[1..], bwd)
  {
    Pop(fwd);
  }

  /** Anything leaves the pipe to an end that is gone. */
  lemma PopGone(snd: End, rcv: End, fwd: seq<Item>, bwd: seq<Item>)
    requires fwd != [] && rcv.removed && Local(rcv) && Dir(snd, rcv, fwd, bwd) && Dir(rcv, snd, bwd, fwd)
    ensures Dir(snd, rcv, fwd[1..], bwd) && Dir(rcv, snd, bwd, fwd[1..])
  {
    Pop(fwd);
  }

  /** Data is never refused: it fits the packet limit and the window. */
  lemma ChunkFits(snd: End, rcv: End, fwd: seq<Item>, bwd: seq<Item>)
    requires fwd != [] && fwd[0].Chunk? && Dir(snd, rcv, fwd, bwd)
    ensures |fwd[0].data| <= MAX_PACKET && |fwd[0].data| <= rcv.myWindow
  {
    Pop(fwd);
  }

  lemma TakeChunk(snd: End, rcv: End, fwd: seq<Item>, bwd: seq<Item>)
    requires fwd != [] && fwd[0].Chunk? && !rcv.removed
    requires Local(rcv) && Local(snd) && Dir(snd, rcv, fwd, bwd) && Dir(rcv, snd, bwd, fwd)
    ensures var rcv' := HandleData(rcv, fwd[0].data);
            Dir(snd, rcv', fwd[1..], bwd) && Dir(rcv', snd, bwd, fwd[1..]) && Local(rcv')
  {
    hide LocalWrite, Dir;
    ChunkArrives(snd, rcv, fwd, bwd);
    var rcv' := HandleData(rcv, fwd[0].data);
    assert Credit([fwd[0]]) == 0;
    SenderIdle(rcv, rcv', snd, bwd, fwd);
    WritingLocal(rcv, rcv');
  }

  lemma ChunkArrives(snd: End, rcv: End, fwd: seq<Item>, bwd: seq<Item>)
    requires fwd != [] && fwd[0].Chunk? && !rcv.removed && Dir(snd, rcv, fwd, bwd)
    ensures rcv.gotEOF ==> rcv.sentClose
    ensures var rcv' := HandleData(rcv, fwd[0].data);
            !(|fwd[0].data| > MAX_PACKET || rcv.myWindow < |fwd[0].data|) && Dir(snd, rcv', fwd[1..], bwd)
  {
    Pop(fwd);
    ChunkFits(snd, rcv, fwd, bwd);
    var d := fwd[0].data;
    assert fwd[0] in fwd;
    assert rcv.readBuf.Some? ==>
      rcv.got + rcv.readBuf.value + (d + Payload(fwd[1..])) == rcv.got + (rcv.readBuf.value + d) + Payload(fwd[1..]);
  }

  /** The other direction when its sender only received data or end of file. */
  lemma SenderIdle(snd: End, snd': End, rcv: End, fwd: seq<Item>, bwd: seq<Item>)
    requires bwd != [] && Credit([bwd[0]]) == 0 && Dir(snd, rcv, fwd, bwd)
    requires snd'.remoteWin == snd.remoteWin && snd'.sent == snd.sent && snd'.sentEOF == snd.sentEOF && snd'.removed == snd.removed
    ensures Dir(snd', rcv, fwd, bwd[1..])
  {
    Pop(bwd);
  }

  lemma TakeEof(snd: End, rcv: End, fwd: seq<Item>, bwd: seq<Item>)
    requires fwd != [] && fwd[0].Eof?
    requires Local(rcv) && Dir(snd, rcv, fwd, bwd) && Dir(rcv, snd, bwd, fwd)
    ensures var rcv' := rcv.(gotEOF := true);
            Dir(snd, rcv', fwd[1..], bwd) && Dir(rcv', snd, bwd, fwd[1..]) && Local(rcv')
  {
    Pop(fwd);
    var rcv' := rcv.(gotEOF := true);
    assert fwd[0] in fwd;
    assert Credit([fwd[0]]) == 0;
    SenderIdle(rcv, rcv', snd, bwd, fwd);
    hide LocalWrite;
    WritingLocal(rcv, rcv');
  }

  lemma TakeClose(snd: End, rcv: End, fwd: seq<Item>, bwd: seq<Item>)
    requires fwd != [] && fwd[0].Close?
    requires Local(rcv) && Local(snd) && Dir(snd, rcv, fwd, bwd) && Dir(rcv, snd, bwd, fwd)
    ensures var o := DoClose(rcv);
            Dir(snd, o.end, fwd[1..], bwd + o.items) && Dir(o.end, snd, bwd + o.items, fwd[1..]) && Local(o.end)
  {
    Pop(fwd);
    assert Credit([fwd[0]]) == 0;
    CloseSteps(rcv);
    CloseLocal(rcv);
    PopQuiet(snd, rcv, fwd, bwd);
    hide Dir, Local, DoClose, SenderStep, ReceiverStep;
    ReceiverKeeps(snd, rcv, fwd[1..], bwd, DoClose(rcv));
    SenderKeeps(rcv, snd, bwd, fwd, fwd[1..], DoClose(rcv), 0);
  }

  /** Credit for a channel that is open: `n` bytes of it. */
  lemma TakeCredit(snd: End, rcv: End, fwd: seq<Item>, bwd: seq<Item>, n: nat)
    requires fwd != [] && !fwd[0].Chunk? && Credit([fwd[0]]) == n && rcv.maxRemotePayload == MAX_PACKET
    requires Local(rcv) && Local(snd) && Dir(snd, rcv, fwd, bwd) && Dir(rcv, snd, bwd, fwd)
    ensures var o := AddWindow(rcv, n);
            Dir(snd, o.end, fwd[1..], bwd + o.items) && Dir(o.end, snd, bwd + o.items, fwd[1..]) && Local(o.end)
  {
    Pop(fwd);
    assert rcv.remoteWin + n <= snd.myWindow <= WINDOW;
    AddWindowStep(rcv, n);
    AddWindowLocal(rcv, n);
    PopQuiet(snd, rcv, fwd, bwd);
    hide Dir, Local, AddWindow, SenderStep, ReceiverStep;
    ReceiverKeeps(snd, rcv, fwd[1..], bwd, AddWindow(rcv, n));
    SenderKeeps(rcv, snd, bwd, fwd, fwd[1..], AddWindow(rcv, n), n);
  }

  lemma AddWindowLocal(e: End, n: nat)
    requires Local(e) && e.maxRemotePayload == MAX_PACKET && e.remoteWin + n <= WINDOW
    ensures Local(AddWindow(e, n).end)
  {
    hide LocalWrite, LocalRead, AddWindow;
    AddWindowWrites(e, n);
    AddWindowReads(e, n);
  }

  lemma CreditLocal(e: End, n: nat)
    requires LocalWrite(e)
    ensures var e1 := e.(remoteWin := e.remoteWin + n, parked := false); WritersOk(e1) && SoloOk(e1)
  {
  }

  lemma AddWindowWrites(e: End, n: nat)
    requires LocalWrite(e) && e.maxRemotePayload == MAX_PACKET && e.remoteWin + n <= WINDOW
    ensures LocalWrite(AddWindow(e, n).end)
  {
    hide LocalWrite, WritersOk, SoloOk, Drain;
    CreditLocal(e, n);
    DrainLocal(e.(remoteWin := e.remoteWin + n, parked := false));
  }

  lemma AddWindowReads(e: End, n: nat)
    requires LocalRead(e) && e.maxRemotePayload == MAX_PACKET
    ensures LocalRead(AddWindow(e, n).end)
  {
    hide Drain;
    var e1 := e.(remoteWin := e.remoteWin + n, parked := false);
    DrainOnly(e1);
  }

  /** One message handled, in general. */
  lemma Deliver(snd: End, rcv: End, fwd: seq<Item>, bwd: seq<Item>)
    requires fwd != [] && !fwd[0].Confirm? && rcv.maxRemotePayload == MAX_PACKET
    requires Local(rcv) && Local(snd) && Dir(snd, rcv, fwd, bwd) && Dir(rcv, snd, bwd, fwd)
    ensures var o := Receive(rcv, fwd[0]);
            Dir(snd, o.end, fwd[1..], bwd + o.items) && Dir(o.end, snd, bwd + o.items, fwd[1..]) && Local(o.end)
  {
    hide Dir, Local, HandleData, DoClose, AddWindow;
    assert bwd + [] == bwd;
    if rcv.removed {
      PopGone(snd, rcv, fwd, bwd);
    } else {
      match fwd[0]
      case Chunk(d) => TakeChunk(snd, rcv, fwd, bwd);
      case Eof => TakeEof(snd, rcv, fwd, bwd);
      case Close => TakeClose(snd, rcv, fwd, bwd);
      case Adjust(n) =>
        OneCredit(fwd[0]);
        TakeCredit(snd, rcv, fwd, bwd, n);
    }
  }

  lemma OneCredit(x: Item)
    ensures Credit([x]) == match x case Adjust(n) => n case Confirm(n, _) => n case _ => 0
  {
    assert [x][1..] == [];
  }

  lemma AddWindowKeeps(e: End, n: nat)
    requires e.maxRemotePayload == MAX_PACKET
    ensures var o := AddWindow(e, n); o.end.maxRemotePayload == MAX_PACKET && NoConfirm(o.items)
  {
    hide Drain;
    DrainOnly(e.(remoteWin := e.remoteWin + n, parked := false));
  }

  /** What handling a message leaves alone. */
  lemma ReceiveKeeps(e: End, x: Item)
    requires e.maxRemotePayload == MAX_PACKET && !x.Confirm?
    ensures var o := Receive(e, x); o.end.maxRemotePayload == MAX_PACKET && NoConfirm(o.items)
  {
    if x.Adjust? {
      hide AddWindow;
      AddWindowKeeps(e, x.additionalBytes);
      assert Receive(e, x) == if e.removed then Out(e, []) else AddWindow(e, x.additionalBytes);
    } else {
      hide AddWindow, Flush;
      assert x.Close? ==> NoConfirm(DoClose(e).items);
    }
  }

  // ---------------------------------------------------------------------- whole runs

  lemma NextInv(l: Link, s: Step)
    requires Inv(l) && Can(l, s)
    ensures Inv(Next(l, s))
  {
    assert l.b.None? ==> l.a.maxRemotePayload == 0 && l.ba == [];
    hide Inv, Next;
    match s
    case Accept => AcceptInv(l);
    case OpA(op) => OpAInv(l, op);
    case OpB(op) => OpBInv(l, op);
    case ToA => if l.a.maxRemotePayload == 0 { ConfirmInv(l); } else { ToAInv(l); }
    case ToB => ToBInv(l);
  }

  lemma AcceptInv(l: Link)
    requires Inv(l) && l.b.None?
    ensures Inv(Next(l, Accept))
  {
    hide Local, Dir;
    var first := [Confirm(WINDOW, MAX_PACKET)];
    assert Next(l, Accept) == Link(Fresh(), Some(Accepted()), [], first);
    FreshLocal();
    JoinedLocal();
    AcceptDirs(first);
    assert first[1..] == [];
  }

  lemma FreshLocal()
    ensures Local(Fresh())
  {
    assert Rest(Fresh()) == [];
  }

  lemma AcceptDirs(first: seq<Item>)
    requires first == [Confirm(WINDOW, MAX_PACKET)]
    ensures Dir(Fresh(), Accepted(), [], first) && Dir(Accepted(), Fresh(), first, [])
  {
    hide Bytes, Payload, Credit;
    OneCredit(first[0]);
    QuietPayload(first);
    QuietPayload([]);
    QuietCredit();
  }

  lemma OpAInv(l: Link, op: Op)
    requires Inv(l) && Enabled(l.a, op) && l.b.Some?
    ensures Inv(Next(l, OpA(op)))
  {
    hide Dir, Local, Perform;
    OpInv(l.a, l.b.value, l.ab, l.ba, op);
  }

  lemma OpBInv(l: Link, op: Op)
    requires Inv(l) && l.b.Some? && Enabled(l.b.value, op)
    ensures Inv(Next(l, OpB(op)))
  {
    hide Dir, Local, Perform;
    OpInv(l.b.value, l.a, l.ba, l.ab, op);
    var items := Perform(l.b.value, op).items;
    assert l.ba != [] ==> (l.ba + items)[0] == l.ba[0] && (l.ba + items)[1..] == l.ba[1..] + items;
  }

  lemma MaxIs(e: End)
    requires Local(e)
    ensures e.maxRemotePayload != 0 ==> e.maxRemotePayload == MAX_PACKET
  {
  }

  lemma ToAInv(l: Link)
    requires Inv(l) && l.b.Some? && l.ba != [] && l.a.maxRemotePayload != 0
    ensures Inv(Next(l, ToA))
  {
    hide Dir, Local, Receive, Bytes, Credit, Payload;
    MaxIs(l.a);
    Pop(l.ba);
    ReceiveKeeps(l.a, l.ba[0]);
    Deliver(l.b.value, l.a, l.ba, l.ab);
  }

  lemma ToBInv(l: Link)
    requires Inv(l) && l.b.Some? && l.ab != []
    ensures Inv(Next(l, ToB))
  {
    hide Dir, Local, Receive, Bytes, Credit, Payload;
    Pop(l.ab);
    ReceiveKeeps(l.b.value, l.ab[0]);
    Deliver(l.a, l.b.value, l.ab, l.ba);
  }

  /** The confirmation: the window it carries is the credit that was missing. */
  lemma ConfirmInv(l: Link)
    requires l.ba != [] && Inv(l) && l.b.Some? && l.a.maxRemotePayload == 0
    ensures Inv(Next(l, ToA))
  {
    hide Dir, Local, Receive, SenderStep, ReceiverStep, Accepted;
    var b := l.b.value;
    var o := Out(Accepted(), []);
    JoinedReceives();
    JoinedStep();
    JoinedLocal();
    Pop(l.ba);
    OneCredit(l.ba[0]);
    PopQuiet(b, l.a, l.ba, l.ab);
    assert l.ab + [] == l.ab;
    SenderKeeps(l.a, b, l.ab, l.ba, l.ba[1..], o, WINDOW);
    ReceiverKeeps(b, l.a, l.ba[1..], l.ab, o);
  }

  lemma JoinedReceives()
    ensures Receive(Fresh(), Confirm(WINDOW, MAX_PACKET)) == Out(Accepted(), [])
  {
    hide Drain;
    DrainIdle(Accepted());
    assert Receive(Fresh(), Confirm(WINDOW, MAX_PACKET)) == AddWindow(Fresh().(maxRemotePayload := MAX_PACKET), WINDOW);
  }

  lemma JoinedStep()
    ensures SenderStep(Fresh(), Out(Accepted(), []), WINDOW) && ReceiverStep(Fresh(), Out(Accepted(), []))
  {
    hide SenderStep, ReceiverStep;
    QuietSteps(Fresh(), Out(Accepted(), []), WINDOW);
    ReaderUntouched(Fresh(), Out(Accepted(), []));
  }

  lemma JoinedLocal()
    ensures Local(Accepted()) && Accepted().maxRemotePayload == MAX_PACKET
  {
    assert Rest(Accepted()) == [];
  }

  lemma OpInv(e: End, peer: End, fwd: seq<Item>, bwd: seq<Item>, op: Op)
    requires Enabled(e, op) && Local(e) && Local(peer) && Dir(e, peer, fwd, bwd) && Dir(peer, e, bwd, fwd)
    ensures var o := Perform(e, op);
            && Local(o.end) && o.end.maxRemotePayload == e.maxRemotePayload
            && Dir(o.end, peer, fwd + o.items, bwd) && Dir(peer, o.end, bwd, fwd + o.items)
            && NoConfirm(o.items)
  {
    PerformSteps(e, op);
    PerformLocal(e, op);
    hide Perform;
    SenderKeeps(e, peer, fwd, bwd, bwd, Perform(e, op), 0);
    ReceiverKeeps(peer, e, bwd, fwd, Perform(e, op));
  }

  /** Every state of every run is in order. */
  lemma {:induction false} RunInv(l: Link, run: seq<Step>)
    requires Inv(l) && Legal(l, run)
    ensures Inv(After(l, run))
    decreases |run|
  {
    if run != [] {
      NextInv(l, run[0]);
      RunInv(Next(l, run[0]), run[1..]);
    }
  }

  // -------------------------------------------------------------------------- theorems

  /** Flow control, both ways, in every reachable state: while neither end has closed, the receiver's
      window is the sender's plus what is on its way in either pipe, and the channel window is the
      receiver's window plus what is buffered plus what was read and not credited yet. */
  lemma WindowsBalance(run: seq<Step>)
    requires Legal(Opened(), run)
    ensures var l := After(Opened(), run);
            l.b.Some? && !l.a.sentClose && !l.b.value.sentClose ==>
              var b := l.b.value;
              && b.myWindow == l.a.remoteWin + Bytes(l.ab) + Credit(l.ba)
              && l.a.myWindow == b.remoteWin + Bytes(l.ba) + Credit(l.ab)
              && 0x4000_0000 == l.a.myWindow + |Buffered(l.a)| + Sum(l.a.owed)
              && 0x4000_0000 == b.myWindow + |Buffered(b)| + Sum(b.owed)
  {
    RunInv(Opened(), run);
  }

  /** Neither `throw` of `handleData` is ever reached and no buffer outgrows the window, closed or
      not: the next data packet of either pipe is accepted. */
  lemma NeverFails(run: seq<Step>)
    requires Legal(Opened(), run)
    ensures var l := After(Opened(), run);
            && !l.a.failed && |Buffered(l.a)| <= 0x4000_0000
            && (l.b.Some? ==> !l.b.value.failed && |Buffered(l.b.value)| <= 0x4000_0000)
            && (l.b.Some? && l.ba != [] && l.ba[0].Chunk? ==> |l.ba[0].data| <= 0x100_0000 && |l.ba[0].data| <= l.a.myWindow)
            && (l.b.Some? && l.ab != [] && l.ab[0].Chunk? ==> |l.ab[0].data| <= 0x100_0000 && |l.ab[0].data| <= l.b.value.myWindow)
  {
    RunInv(Opened(), run);
    var l := After(Opened(), run);
    if l.b.Some? {
      if l.ba != [] && l.ba[0].Chunk? { Pop(l.ba); }
      if l.ab != [] && l.ab[0].Chunk? { Pop(l.ab); }
    }
  }

  /** What one end has read is always a prefix of what the other end was given to write, one write at
      a time; end of file before closing means all that was sent has been read. */
  lemma ReadsArePrefixes(run: seq<Step>)
    requires Legal(Opened(), run)
    ensures var l := After(Opened(), run);
            l.b.Some? ==> Delivered(l.a, l.b.value) && Delivered(l.b.value, l.a)
  {
    RunInv(Opened(), run);
    var l := After(Opened(), run);
    if l.b.Some? {
      DirDelivers(l.a, l.b.value, l.ab, l.ba);
      DirDelivers(l.b.value, l.a, l.ba, l.ab);
    }
  }

  predicate Delivered(snd: End, rcv: End) {
    && rcv.got <= snd.sent
    && (snd.solo ==> snd.sent <= snd.accepted && rcv.got <= snd.accepted)
    && (rcv.readBuf.None? && !rcv.sentClose ==> snd.sentEOF && rcv.got == snd.sent)
  }

  lemma DirDelivers(snd: End, rcv: End, fwd: seq<Item>, bwd: seq<Item>)
    requires Dir(snd, rcv, fwd, bwd) && Local(snd) && Local(rcv)
    ensures Delivered(snd, rcv)
  {
    if rcv.readBuf.Some? {
      assert rcv.got + rcv.readBuf.value + Payload(fwd) == rcv.got + (rcv.readBuf.value + Payload(fwd));
    }
  }
}
