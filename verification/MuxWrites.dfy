/** When a write of a multiplexed channel is finished.  Credit that comes while a packet is still being
    handed over finds no parked write to wake; a write that parks after the last credit stays parked. */
module MuxWrites {
  import opened Utf16
  import opened MuxChannel
  import opened MuxLink

  /** Both ends are open, and everything sent was read and credited. */
  predicate Settled(l: Link) {
    && l.b.Some? && l.ab == [] && l.ba == [] && !l.a.sentClose && !l.b.value.sentClose
    && Buffered(l.a) == [] && Buffered(l.b.value) == [] && l.a.owed == [] && l.b.value.owed == []
  }

  /** Nothing happens any more unless a user does something. */
  predicate Quiet(l: Link) { Settled(l) && l.a.sending == [] && l.b.value.sending == [] }

  lemma SettledWindows(l: Link)
    requires Inv(l) && Settled(l)
    ensures l.a.remoteWin == WINDOW == l.a.myWindow
    ensures l.b.value.remoteWin == WINDOW == l.b.value.myWindow
    ensures l.a.maxRemotePayload == MAX_PACKET == l.b.value.maxRemotePayload
    ensures Local(l.a) && Local(l.b.value)
  {
  }

  // ------------------------------------------------------------------------ stranded writes

  /** A write waits exactly if one has parked since credit last came. */
  predicate WrittenExactly(e: End) {
    && (e.writers == [] <==> !e.parked)
    && (e.solo && !e.sentEOF ==> (e.sent == e.accepted <==> !e.parked))
  }

  /** In every quiet state of every run the writes of an end are finished exactly if none has parked since
      it last got credit; otherwise nothing will ever wake them. */
  lemma StrandedExactly(run: seq<Step>)
    requires Legal(Opened(), run) && Quiet(After(Opened(), run))
    ensures var l := After(Opened(), run); WrittenExactly(l.a) && WrittenExactly(l.b.value)
  {
    RunInv(Opened(), run);
    var l := After(Opened(), run);
    SettledWindows(l);
    hide Inv, After, Legal;
    QuietEnd(l.a);
    QuietEnd(l.b.value);
  }

  lemma QuietEnd(e: End)
    requires LocalWrite(e) && e.remoteWin == WINDOW && e.sending == [] && !e.sentClose
    ensures WrittenExactly(e)
  {
    if e.solo && !e.sentEOF {
      assert e.sent + [] == e.sent;
      assert Rest(e) == [] <==> e.writers == [];
      assert |e.sent + Rest(e)| == |e.sent| + |Rest(e)|;
    }
  }

  // ------------------------------------------------- hand-overs that end before the answer comes

  /** Bytes of the packets being handed over. */
  function Packets(s: seq<Sending>): nat {
    if s == [] then 0 else s[0].packet + Packets(s[1..])
  }

  lemma {:induction false} PacketsAppend(s: seq<Sending>, w: Sending)
    ensures Packets(s + [w]) == Packets(s) + w.packet
  {
    if s == [] {
      assert [w][1..] == [] && s + [w] == [w];
    } else {
      PacketsAppend(s[1..], w);
      assert (s + [w])[1..] == s[1..] + [w];
    }
  }

  /** The credit is for packets whose hand-over has ended. */
  predicate PromptAt(e: End, x: Item) {
    x.Adjust? && !e.removed ==> e.remoteWin + x.additionalBytes + Packets(e.sending) <= WINDOW
  }

  predicate PromptStep(l: Link, s: Step)
    requires Can(l, s)
  {
    match s
    case ToA => PromptAt(l.a, l.ba[0])
    case ToB => PromptAt(l.b.value, l.ab[0])
    case _ => true
  }

  /** Every packet is handed over before an answer to it is handled, as it is where `write` resolves at
      once. */
  predicate Prompt(l: Link, run: seq<Step>)
    requires Legal(l, run)
    decreases |run|
  {
    run == [] || (PromptStep(l, run[0]) && Prompt(Next(l, run[0]), run[1..]))
  }

  /** A waiting write has credit coming. */
  predicate Busy(e: End) {
    && e.remoteWin + Packets(e.sending) <= WINDOW
    && (e.writers != [] ==> e.remoteWin < WINDOW)
  }

  lemma TryWriteBusy(e: End, p: seq<byte>)
    requires e.maxRemotePayload > 0
    ensures var e' := TryWrite(e, p).end;
            && e'.remoteWin + Packets(e'.sending) == e.remoteWin + Packets(e.sending)
            && (e'.writers == e.writers || (e'.writers == e.writers + [p] && e'.remoteWin == 0))
            && e'.maxRemotePayload == e.maxRemotePayload && e'.remoteWin <= e.remoteWin
  {
    hide Packets;
    if !e.sentEOF && !e.sentClose && p != [] {
      var k := MuxChannel.Min(MuxChannel.Min(e.maxRemotePayload, |p|), e.remoteWin);
      if k > 0 {
        PacketsAppend(e.sending, Sending(p, k));
        assert TryWrite(e, p).end.sending == e.sending + [Sending(p, k)];
      } else {
        assert TryWrite(e, p).end.sending == e.sending;
      }
    }
  }

  lemma {:induction false} DrainBusy(e: End)
    requires e.maxRemotePayload > 0 && e.remoteWin + Packets(e.sending) <= WINDOW
    ensures Busy(Drain(e).end)
    decreases |e.writers|
  {
    hide TryWrite, Drain;
    if e.remoteWin > 0 && e.writers != [] {
      DrainStep(e);
      TryWriteBusy(e.(writers := e.writers[1..]), e.writers[0]);
      DrainBusy(TryWrite(e.(writers := e.writers[1..]), e.writers[0]).end);
    } else {
      DrainDone(e);
    }
  }

  /** The writing side: same window, packets and bytes sent; parked writes may be dropped. */
  predicate WritesSame(e: End, e': End) {
    && e'.remoteWin == e.remoteWin && e'.sending == e.sending && e'.sent == e.sent
    && (e'.writers == e.writers || e'.writers == [])
  }

  lemma ReadSame(e: End, n: nat)
    ensures WritesSame(e, Read(e, n).0)
  {
    hide Read;
    ReadShape(e, n);
  }

  lemma AdjustSame(e: End)
    requires e.owed != []
    ensures WritesSame(e, AdjustWindow(e).end)
  {
  }

  lemma CloseWriteSame(e: End)
    ensures WritesSame(e, CloseWrite(e).end)
  {
  }

  lemma CloseSame(e: End)
    ensures WritesSame(e, DoClose(e).end)
  {
  }

  /** An operation that is no write and ends no hand-over. */
  lemma OthersSame(e: End, op: Op)
    requires Enabled(e, op) && !op.OpWrite? && !op.OpSent?
    ensures WritesSame(e, Perform(e, op).end)
  {
    hide WritesSame, Read, AdjustWindow, CloseWrite, DoClose, Write, MuxChannel.Sent;
    if op.OpRead? {
      ReadSame(e, op.n);
    } else if op.OpAdjust? {
      AdjustSame(e);
    } else if op.OpCloseWrite? {
      CloseWriteSame(e);
    } else {
      CloseSame(e);
    }
  }

  lemma BusySame(e: End, e': End)
    requires Busy(e) && WritesSame(e, e')
    ensures Busy(e')
  {
  }

  lemma WriteBusy(e: End, p: seq<byte>)
    requires e.maxRemotePayload > 0 && Busy(e)
    ensures Busy(Write(e, p).end)
  {
    hide TryWrite;
    TryWriteBusy(e.(accepted := e.accepted + p, solo := e.solo && e.writers == [] && e.sending == []), p);
  }

  lemma SentBusy(e: End)
    requires e.sending != [] && WritersOk(e) && Busy(e)
    ensures Busy(MuxChannel.Sent(e))
  {
    assert e.sending[0].packet > 0;
  }

  lemma PerformBusy(e: End, op: Op)
    requires Enabled(e, op) && WritersOk(e) && Busy(e)
    ensures Busy(Perform(e, op).end)
  {
    hide Busy, WritersOk, WritesSame, MuxChannel.Sent, Write, Read, AdjustWindow, CloseWrite, DoClose;
    if op.OpWrite? {
      WriteBusy(e, op.p);
    } else if op.OpSent? {
      SentBusy(e);
    } else {
      OthersSame(e, op);
      BusySame(e, Perform(e, op).end);
    }
  }

  lemma ReceiveBusy(e: End, x: Item)
    requires e.maxRemotePayload > 0 && !x.Confirm? && Busy(e) && PromptAt(e, x)
    ensures Busy(Receive(e, x).end)
  {
    if e.removed {
    } else if x.Adjust? {
      hide Drain;
      DrainBusy(e.(remoteWin := e.remoteWin + x.additionalBytes, parked := false));
    } else {
      ReceiveOthers(e, x);
      hide Busy, Receive;
      BusySame(e, Receive(e, x).end);
    }
  }

  /** A message that brings no credit wakes no writer. */
  lemma ReceiveOthers(e: End, x: Item)
    requires !x.Confirm? && !x.Adjust?
    ensures WritesSame(e, Receive(e, x).end)
  {
    hide AddWindow, DoClose, HandleData;
    if !e.removed {
      if x.Chunk? {
        DataSame(e, x.data);
      } else if x.Close? {
        CloseSame(e);
      }
    }
  }

  lemma DataSame(e: End, data: seq<byte>)
    ensures WritesSame(e, HandleData(e, data))
  {
  }

  predicate BothBusy(l: Link) { Busy(l.a) && (l.b.Some? ==> Busy(l.b.value)) }

  lemma NextBusy(l: Link, s: Step)
    requires Inv(l) && BothBusy(l) && Can(l, s) && PromptStep(l, s)
    ensures BothBusy(Next(l, s))
  {
    hide Perform, Receive, Local, Dir, Busy;
    match s
    case Accept => JoinedBusy();
    case OpA(op) =>
      LocalWriters(l.a);
      PerformBusy(l.a, op);
    case OpB(op) =>
      LocalWriters(l.b.value);
      PerformBusy(l.b.value, op);
    case ToA =>
      if l.a.maxRemotePayload == 0 {
        JoinedReceives();
        JoinedBusy();
      } else {
        assert l.ba[0] in l.ba;
        ReceiveBusy(l.a, l.ba[0]);
      }
    case ToB =>
      assert l.ab[0] in l.ab;
      ReceiveBusy(l.b.value, l.ab[0]);
  }

  lemma JoinedBusy()
    ensures Busy(Accepted()) && Busy(Fresh())
  {
  }

  lemma LocalWriters(e: End)
    requires Local(e)
    ensures WritersOk(e)
  {
  }

  lemma {:induction false} RunBusy(l: Link, run: seq<Step>)
    requires Inv(l) && BothBusy(l) && Legal(l, run) && Prompt(l, run)
    ensures BothBusy(After(l, run))
    decreases |run|
  {
    hide Inv, BothBusy, Next, PromptStep;
    if run != [] {
      NextBusy(l, run[0]);
      NextInv(l, run[0]);
      RunBusy(Next(l, run[0]), run[1..]);
    }
  }

  /** Where every hand-over ends before an answer to its packet is handled, no write is ever stranded: once
      everything sent was read and credited every write is finished. */
  lemma PromptRunsFinish(run: seq<Step>)
    requires Legal(Opened(), run) && Prompt(Opened(), run) && Settled(After(Opened(), run))
    ensures var l := After(Opened(), run); Finished(l.a) && Finished(l.b.value)
  {
    JoinedBusy();
    RunBusy(Opened(), run);
    RunInv(Opened(), run);
    var l := After(Opened(), run);
    SettledWindows(l);
    hide Inv, After, Legal, Prompt;
    BusyFinishes(l.a);
    BusyFinishes(l.b.value);
  }

  predicate Finished(e: End) {
    e.writers == [] && e.sending == [] && (e.solo && !e.sentEOF ==> e.sent == e.accepted)
  }

  lemma BusyFinishes(e: End)
    requires LocalWrite(e) && Busy(e) && e.remoteWin == WINDOW && !e.sentClose
    ensures Finished(e)
  {
    PacketsArePositive(e.sending);
    assert e.sent + [] == e.sent;
  }

  lemma PacketsArePositive(s: seq<Sending>)
    requires forall i :: 0 <= i < |s| ==> s[i].packet > 0
    ensures Packets(s) == 0 <==> s == []
  {
  }

  // ------------------------------------------------------------- which writes always finish

  /** No further write of the opening end. */
  predicate NoWrite(run: seq<Step>) { forall i :: 0 <= i < |run| ==> !(run[i].OpA? && run[i].op.OpWrite?) }

  /** Nothing waits, and the packet being handed over, if any, is the rest of its write. */
  predicate Whole(e: End, sent: seq<byte>) {
    && e.writers == [] && e.sent == sent
    && forall i :: 0 <= i < |e.sending| ==> e.sending[i].packet == |e.sending[i].left|
  }

  lemma WholeSame(e: End, e': End, sent: seq<byte>)
    requires Whole(e, sent) && WritesSame(e, e')
    ensures Whole(e', sent)
  {
  }

  lemma WholeSent(e: End, sent: seq<byte>)
    requires e.sending != [] && Whole(e, sent)
    ensures Whole(MuxChannel.Sent(e), sent)
  {
  }

  lemma WholePerforms(e: End, op: Op, sent: seq<byte>)
    requires Enabled(e, op) && Whole(e, sent) && !op.OpWrite?
    ensures Whole(Perform(e, op).end, sent)
  {
    hide Whole, WritesSame, Write, MuxChannel.Sent, Read, AdjustWindow, CloseWrite, DoClose;
    if op.OpSent? {
      WholeSent(e, sent);
    } else {
      OthersSame(e, op);
      WholeSame(e, Perform(e, op).end, sent);
    }
  }

  lemma WholeReceives(e: End, x: Item, sent: seq<byte>)
    requires Whole(e, sent)
    ensures Whole(Receive(e, x).end, sent)
  {
    hide TryWrite, Drain;
    if x.Adjust? {
      DrainDone(e.(remoteWin := e.remoteWin + x.additionalBytes, parked := false));
    } else if x.Confirm? {
      DrainDone(e.(maxRemotePayload := x.maxPacketSize, remoteWin := e.remoteWin + x.windowSize, parked := false));
    } else {
      ReceiveOthers(e, x);
      hide Receive;
      WholeSame(e, Receive(e, x).end, sent);
    }
  }

  lemma WholeNext(l: Link, s: Step, sent: seq<byte>)
    requires Can(l, s) && Whole(l.a, sent) && !(s.OpA? && s.op.OpWrite?)
    ensures Whole(Next(l, s).a, sent)
  {
    hide Whole, Perform, Receive;
    if s.OpA? {
      WholePerforms(l.a, s.op, sent);
    } else if s.ToA? {
      WholeReceives(l.a, l.ba[0], sent);
    }
  }

  lemma {:induction false} WholeRun(l: Link, run: seq<Step>, sent: seq<byte>)
    requires Legal(l, run) && NoWrite(run) && Whole(l.a, sent)
    ensures Whole(After(l, run).a, sent)
    decreases |run|
  {
    hide Whole, Next;
    if run != [] {
      WholeNext(l, run[0], sent);
      assert forall i :: 0 <= i < |run[1..]| ==> run[1..][i] == run[i + 1];
      WholeRun(Next(l, run[0]), run[1..], sent);
    }
  }

  /** An end with nothing to write that may write. */
  predicate Idle(e: End) {
    e.maxRemotePayload > 0 && !e.sentEOF && !e.sentClose && e.writers == [] && e.sending == []
  }

  /** In every state of every run: a write that fits in one packet and in the window is sent at once, and
      is finished in every continuation, whenever credit comes. */
  lemma SmallWritesFinish(before: seq<Step>, p: seq<byte>, run: seq<Step>)
    requires Legal(Opened(), before)
    requires var e := After(Opened(), before).a; Idle(e) && |p| <= MuxChannel.Min(e.maxRemotePayload, e.remoteWin)
    requires Legal(Next(After(Opened(), before), OpA(OpWrite(p))), run) && NoWrite(run)
    ensures var l := After(Opened(), before);
            Whole(After(Next(l, OpA(OpWrite(p))), run).a, l.a.sent + p)
  {
    var l := After(Opened(), before);
    assert p[..|p|] == p && l.a.sent + [] == l.a.sent;
    WholeRun(Next(l, OpA(OpWrite(p))), run, l.a.sent + p);
  }

  /** The hand-over of the first packet ends after its credit has come. */
  function Overtaken(): seq<Step> { [ToB, OpB(OpRead(MAX_PACKET)), OpB(OpAdjust), ToA, OpA(OpSent)] }

  /** Each step of it, from a quiet state. */
  function Reached(l: Link, p: seq<byte>, k: nat): Link
    requires l.b.Some? && |p| > MAX_PACKET && k <= 5
  {
    var b := l.b.value;
    var a1 := l.a.(remoteWin := WINDOW - MAX_PACKET, sending := [Sending(p, MAX_PACKET)], sent := l.a.sent + p[..MAX_PACKET],
                   accepted := l.a.accepted + p,
                   solo := l.a.solo);
    var b1 := b.(myWindow := WINDOW - MAX_PACKET, readBuf := Some(p[..MAX_PACKET]));
    var b2 := b1.(readBuf := Some([]), owed := [MAX_PACKET], got := b.got + p[..MAX_PACKET]);
    var b3 := b2.(myWindow := WINDOW, owed := []);
    var a4 := a1.(remoteWin := WINDOW, parked := false);
    match k
    case 0 => Link(a1, Some(b), [Chunk(p[..MAX_PACKET])], [])
    case 1 => Link(a1, Some(b1), [], [])
    case 2 => Link(a1, Some(b2), [], [])
    case 3 => Link(a1, Some(b3), [], [Adjust(MAX_PACKET)])
    case 4 => Link(a4, Some(b3), [], [])
    case _ => Link(a4.(sending := [], writers := [p[MAX_PACKET..]], parked := true), Some(b3), [], [])
  }

  /** What the steps need of the state before the write. */
  predicate Ready(l: Link) {
    && Quiet(l) && Idle(l.a) && l.a.maxRemotePayload == MAX_PACKET && l.a.remoteWin == WINDOW
    && l.b.value.maxRemotePayload > 0 && l.b.value.myWindow == WINDOW && l.b.value.readBuf == Some([]) && !l.b.value.gotEOF
    && !l.a.removed && !l.b.value.removed
  }

  lemma WriteReaches(l: Link, p: seq<byte>)
    requires Ready(l) && |p| > MAX_PACKET
    ensures Can(l, OpA(OpWrite(p))) && Next(l, OpA(OpWrite(p))) == Reached(l, p, 0)
  {
    assert [] + [Chunk(p[..MAX_PACKET])] == [Chunk(p[..MAX_PACKET])];
  }

  lemma Received(l: Link, p: seq<byte>)
    requires Ready(l) && |p| > MAX_PACKET
    ensures Can(Reached(l, p, 0), ToB) && Next(Reached(l, p, 0), ToB) == Reached(l, p, 1)
  {
    var data := p[..MAX_PACKET];
    assert [] + data == data && [Chunk(data)][1..] == [];
  }

  lemma ReadAll(l: Link, p: seq<byte>)
    requires Ready(l) && |p| > MAX_PACKET
    ensures Can(Reached(l, p, 1), OpB(OpRead(MAX_PACKET))) && Next(Reached(l, p, 1), OpB(OpRead(MAX_PACKET))) == Reached(l, p, 2)
  {
    var data := p[..MAX_PACKET];
    var none: seq<Item> := [];
    assert data[..MAX_PACKET] == data && data[MAX_PACKET..] == [] && none + none == none;
    assert l.b.value.owed + [MAX_PACKET] == [MAX_PACKET];
  }

  lemma Credited(l: Link, p: seq<byte>)
    requires Ready(l) && |p| > MAX_PACKET
    ensures Can(Reached(l, p, 2), OpB(OpAdjust)) && Next(Reached(l, p, 2), OpB(OpAdjust)) == Reached(l, p, 3)
  {
    assert [MAX_PACKET][1..] == [];
  }

  lemma Ignored(l: Link, p: seq<byte>)
    requires Ready(l) && |p| > MAX_PACKET
    ensures Can(Reached(l, p, 3), ToA) && Next(Reached(l, p, 3), ToA) == Reached(l, p, 4)
  {
    hide Drain;
    assert [Adjust(MAX_PACKET)][1..] == [];
    DrainDone(Reached(l, p, 3).a.(remoteWin := WINDOW, parked := false));
  }

  lemma Parked(l: Link, p: seq<byte>)
    requires Ready(l) && |p| > MAX_PACKET
    ensures Can(Reached(l, p, 4), OpA(OpSent)) && Next(Reached(l, p, 4), OpA(OpSent)) == Reached(l, p, 5)
  {
    assert [Sending(p, MAX_PACKET)][1..] == [];
  }

  /** The five steps in a row. */
  lemma Overtakes(l: Link, p: seq<byte>)
    requires l.b.Some? && Ready(l) && |p| > MAX_PACKET
    ensures Legal(Reached(l, p, 0), Overtaken()) && After(Reached(l, p, 0), Overtaken()) == Reached(l, p, 5)
  {
    hide Ready, Reached, Can, Next;
    Received(l, p);
    ReadAll(l, p);
    Credited(l, p);
    Ignored(l, p);
    Parked(l, p);
    var run := Overtaken();
    OneMore(Reached(l, p, 4), run[4..]);
    assert run[4..][1..] == [];
    assert run[3..][1..] == run[4..] && run[2..][1..] == run[3..] && run[1..][1..] == run[2..];
    OneMore(Reached(l, p, 3), run[3..]);
    OneMore(Reached(l, p, 2), run[2..]);
    OneMore(Reached(l, p, 1), run[1..]);
    OneMore(Reached(l, p, 0), run);
  }

  lemma OneMore(l: Link, run: seq<Step>)
    requires run != [] && Can(l, run[0]) && Legal(Next(l, run[0]), run[1..])
    ensures Legal(l, run) && After(l, run) == After(Next(l, run[0]), run[1..])
  {
  }

  lemma QuietIsReady(l: Link)
    requires Inv(l) && Quiet(l) && Idle(l.a)
    ensures Ready(l) && l.b.Some? && l.a.maxRemotePayload == MAX_PACKET && l.a.remoteWin == WINDOW
  {
    SettledWindows(l);
  }

  /** In every quiet state of every run, a write is finished in every quiet continuation without further
      writes exactly if it fits in one packet.  A longer one is stranded where the credit for its first
      packet comes before the hand-over of that packet ends. */
  lemma WriteFinishesExactly(before: seq<Step>, p: seq<byte>)
    requires Legal(Opened(), before) && Quiet(After(Opened(), before)) && Idle(After(Opened(), before).a)
    ensures var l := After(Opened(), before); var l1 := Next(l, OpA(OpWrite(p)));
            |p| <= MAX_PACKET <==>
              forall run :: Legal(l1, run) && NoWrite(run) && Quiet(After(l1, run)) ==>
                After(l1, run).a.writers == [] && After(l1, run).a.sent == l.a.sent + p
  {
    hide Inv, Quiet, After, Legal, Reached, Ready, Write;
    RunInv(Opened(), before);
    var l := After(Opened(), before);
    QuietIsReady(l);
    var l1 := Next(l, OpA(OpWrite(p)));
    hide Next;
    if |p| <= MAX_PACKET {
      forall run | Legal(l1, run) && NoWrite(run) && Quiet(After(l1, run))
        ensures After(l1, run).a.writers == [] && After(l1, run).a.sent == l.a.sent + p
      {
        SmallWritesFinish(before, p, run);
      }
    } else {
      WriteReaches(l, p);
      Overtakes(l, p);
      Stranded(l, p);
      assert NoWrite(Overtaken());
    }
  }

  lemma Stranded(l: Link, p: seq<byte>)
    requires l.b.Some? && Ready(l) && |p| > MAX_PACKET
    ensures Quiet(Reached(l, p, 5)) && Reached(l, p, 5).a.writers == [p[MAX_PACKET..]]
  {
  }
}
