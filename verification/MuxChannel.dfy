/** One end of a multiplexed channel: its read buffer, its windows and its parked writers.

    `End` is the abstract state, the functions below it say what each operation does to it and
    which messages it sends, and class `Channel` performs the operations on fields. */
module MuxChannel {
  import opened Utf16

  const MAX_PACKET: nat := 0x100_0000
  const WINDOW: nat := 64 * MAX_PACKET

  /** What one end sends the other, without the channel id. */
  datatype Item =
    | Confirm(windowSize: nat, maxPacketSize: nat)
    | Adjust(additionalBytes: nat)
    | Chunk(data: seq<byte>)
    | Eof
    | Close

  datatype Option<T> = None | Some(value: T)

  /** The closure of an outstanding `write`: what is left of its argument; while a packet of it is
      being sent, how long that packet is. */
  datatype Sending = Sending(left: seq<byte>, packet: nat)

  datatype End = End(
    maxRemotePayload: nat,
    sentEOF: bool,
    sentClose: bool,
    remoteWin: nat,
    myWindow: nat,
    readBuf: Option<seq<byte>>,   // `undefined` once closed or drained after end of file
    gotEOF: bool,
    owed: seq<nat>,               // reads that returned but whose credit is not sent yet
    writers: seq<seq<byte>>,      // parked writes
    sending: seq<Sending>,        // writes whose current packet is on its way
    removed: bool,                // no longer in the session's table
    failed: bool,                 // `handleData` threw
    // what has happened so far
    accepted: seq<byte>,          // arguments of `write`, in order
    sent: seq<byte>,              // data put into packets
    got: seq<byte>,               // data returned by `read`
    solo: bool,                   // `write` was never called while another was outstanding
    parked: bool)                 // a write has parked since credit last came

  function Fresh(): End {
    End(0, false, false, 0, WINDOW, Some([]), false, [], [], [], false, false, [], [], [], true, false)
  }

  function Min(a: nat, b: nat): nat { if a < b then a else b }

  /** A state and the messages sent on the way to it. */
  datatype Out = Out(end: End, items: seq<Item>)

  /** `tryWrite` for a write with `p` left. */
  function TryWrite(e: End, p: seq<byte>): Out {
    if e.sentEOF || e.sentClose || p == [] then Out(e, [])
    else
      var reserved := Min(Min(e.maxRemotePayload, |p|), e.remoteWin);
      if reserved == 0 then Out(e.(writers := e.writers + [p], parked := true), [])
      else Out(e.(remoteWin := e.remoteWin - reserved,
                  sending := e.sending + [Sending(p, reserved)],
                  sent := e.sent + p[..reserved]),
               [Chunk(p[..reserved])])
  }

  /** `write(p)`, refused after end of file. */
  function Write(e: End, p: seq<byte>): Out {
    if e.sentEOF || e.sentClose then Out(e, [])
    else TryWrite(e.(accepted := e.accepted + p,
                     solo := e.solo && e.writers == [] && e.sending == []), p)
  }

  /** The first packet on its way has been handed to the transport: the write is done or parks. */
  function Sent(e: End): End
    requires e.sending != []
  {
    var w := e.sending[0];
    var more := w.packet < |w.left|;
    e.(sending := e.sending[1..],
       writers := if more then e.writers + [w.left[w.packet..]] else e.writers,
       parked := more || e.parked)
  }

  /** The loop of `addWindow`: parked writers run while there is window. */
  function Drain(e: End): (r: Out)
    ensures e.maxRemotePayload > 0 ==> r.end.maxRemotePayload > 0
    decreases |e.writers|
  {
    if e.remoteWin == 0 || e.writers == [] || e.maxRemotePayload == 0 then Out(e, [])
    else
      var first := TryWrite(e.(writers := e.writers[1..]), e.writers[0]);
      var rest := Drain(first.end);
      Out(rest.end, first.items + rest.items)
  }

  function AddWindow(e: End, win: nat): Out {
    Drain(e.(remoteWin := e.remoteWin + win, parked := false))
  }

  /** A flush runs every parked writer once. */
  function Flush(e: End): End
    requires e.sentEOF || e.sentClose
  {
    e.(writers := [], parked := false)
  }

  /** `read` of up to `n` bytes.  It waits (nothing happens) on an empty buffer before end of file. */
  datatype Reading = Waits | EndOfFile | Took(data: seq<byte>)

  function Read(e: End, n: nat): (End, Reading) {
    match e.readBuf
    case None => (e, EndOfFile)
    case Some(buf) =>
      if buf == [] then
        if e.gotEOF then (e.(readBuf := None), EndOfFile) else (e, Waits)
      else
        var data := buf[..Min(n, |buf|)];
        var rest := buf[|data|..];
        (e.(readBuf := if rest == [] && e.gotEOF then None else Some(rest),
            owed := e.owed + [|data|],
            got := e.got + data), Took(data))
  }

  /** The credit for the oldest read: the window grows even when the message cannot be sent. */
  function AdjustWindow(e: End): Out
    requires e.owed != []
  {
    var e1 := e.(myWindow := e.myWindow + e.owed[0], owed := e.owed[1..]);
    Out(e1, if e.sentClose then [] else [Adjust(e.owed[0])])
  }

  /** `closeWrite`; `send` throws when the channel is closed, after `sentEOF` was set. */
  function CloseWrite(e: End): Out {
    var e1 := e.(sentEOF := true);
    if e.sentClose then Out(e1, []) else Out(Flush(e1), [Eof])
  }

  function Shutdown(e: End): End
    requires e.sentClose
  {
    Flush(e).(readBuf := None, removed := true)
  }

  /** `close`, called by the user or on receipt of Close. */
  function DoClose(e: End): Out {
    var e1 := e.(gotEOF := true);
    if !e.sentClose then Out(e1.(sentClose := true), [Close])
    else Out(Shutdown(e1), [])
  }

  function HandleData(e: End, data: seq<byte>): End {
    if |data| > MAX_PACKET || e.myWindow < |data| then e.(failed := true)
    else e.(myWindow := e.myWindow - |data|,
            readBuf := if e.readBuf.Some? then Some(e.readBuf.value + data) else None)
  }

  /** `handle`, for a channel still in the table. */
  function Handle(e: End, item: Item): Out {
    match item
    case Chunk(data) => Out(HandleData(e, data), [])
    case Close => DoClose(e)
    case Eof => Out(e.(gotEOF := true), [])
    case Adjust(n) => AddWindow(e, n)
    case Confirm(win, max) =>
      if max < 9 then Out(e.(failed := true), [])
      else AddWindow(e.(maxRemotePayload := max), win)
  }

  /** The channel object.  `outbox` collects what it sends, in order. */
  class Channel {
    var maxRemotePayload: nat
    var sentEOF: bool
    var sentClose: bool
    var remoteWin: nat
    var myWindow: nat
    var readBuf: Option<seq<byte>>
    var gotEOF: bool
    var owed: seq<nat>
    var writers: seq<seq<byte>>
    var sending: seq<Sending>
    var removed: bool
    var failed: bool
    var outbox: seq<Item>
    ghost var accepted: seq<byte>
    ghost var sent: seq<byte>
    ghost var got: seq<byte>
    ghost var solo: bool
    ghost var parked: bool

    ghost function State(): End
      reads this
    {
      End(maxRemotePayload, sentEOF, sentClose, remoteWin, myWindow, readBuf, gotEOF, owed, writers,
          sending, removed, failed, accepted, sent, got, solo, parked)
    }

    function Unread(): seq<byte>
      reads this
    {
      if readBuf.Some? then readBuf.value else []
    }

    /** The new state and the messages sent since are those of `o`. */
    twostate predicate Did(o: Out)
      reads this
    {
      State() == o.end && outbox == old(outbox) + o.items
    }

    constructor ()
      ensures State() == Fresh() && outbox == []
    {
      maxRemotePayload, sentEOF, sentClose, remoteWin, myWindow := 0, false, false, 0, WINDOW;
      readBuf, gotEOF, owed, writers, sending := Some([]), false, [], [], [];
      removed, failed, outbox := false, false, [];
      accepted, sent, got, solo, parked := [], [], [], true, false;
    }

    method Send(item: Item)
      modifies this`outbox
      ensures outbox == old(outbox) + [item]
    {
      outbox := outbox + [item];
    }

    method ReserveWindow(want: nat) returns (win: nat)
      modifies this`remoteWin
      ensures win == Min(want, old(remoteWin)) && remoteWin == old(remoteWin) - win
    {
      win := want;
      if remoteWin < win {
        win := remoteWin;
      }
      remoteWin := remoteWin - win;
    }

    method DoTryWrite(p: seq<byte>)
      modifies this
      ensures Did(TryWrite(old(State()), p))
    {
      if sentEOF || sentClose || |p| == 0 {
        return;
      }
      var space := Min(maxRemotePayload, |p|);
      var reserved := ReserveWindow(space);
      if reserved == 0 {
        writers, parked := writers + [p], true;
        return;
      }
      SendSome(p, reserved);
    }

    /** The first `n` bytes go out; the rest waits for the hand-over to end. */
    method SendSome(p: seq<byte>, n: nat)
      requires n <= |p|
      modifies this
      ensures var e := old(State());
              Did(Out(e.(sending := e.sending + [Sending(p, n)], sent := e.sent + p[..n]), [Chunk(p[..n])]))
    {
      var toSend := p[..n];
      Send(Chunk(toSend));
      sending := sending + [Sending(p, |toSend|)];
      sent := sent + toSend;
    }

    method DoWrite(p: seq<byte>) returns (refused: bool)
      modifies this
      ensures refused == (old(sentEOF) || old(sentClose))
      ensures accepted == if refused then old(accepted) else old(accepted) + p
      ensures Did(Write(old(State()), p))
    {
      if sentEOF || sentClose {
        return true;
      }
      accepted := accepted + p;
      solo := solo && writers == [] && sending == [];
      DoTryWrite(p);
      refused := false;
    }

    method PacketSent()
      requires sending != []
      modifies this
      ensures Did(Out(Sent(old(State())), []))
    {
      var w := sending[0];
      sending := sending[1..];
      if w.packet < |w.left| {
        writers, parked := writers + [w.left[w.packet..]], true;
      }
    }

    method DoAddWindow(win: nat)
      requires maxRemotePayload > 0
      modifies this
      ensures Did(AddWindow(old(State()), win))
    {
      hide Drain, TryWrite;
      remoteWin := remoteWin + win;
      parked := false;
      ghost var goal := Drain(State());
      ghost var box := outbox;
      assert box + goal.items == outbox + goal.items;
      while remoteWin > 0 && writers != []
        invariant maxRemotePayload > 0
        invariant Drain(State()).end == goal.end
        invariant outbox + Drain(State()).items == box + goal.items
        decreases |writers|
      {
        DrainStep(State());
        DrainTurn();
      }
      DrainDone(State());
      assert outbox + [] == outbox;
    }

    /** One turn of the loop: take the first parked writer off the list and run it. */
    method DrainTurn()
      requires writers != []
      modifies this
      ensures var o := TryWrite(old(State()).(writers := old(writers)[1..]), old(writers)[0]);
              && State() == o.end
              && outbox + Drain(o.end).items == old(outbox) + (o.items + Drain(o.end).items)
    {
      hide Drain, TryWrite;
      ghost var o := TryWrite(State().(writers := writers[1..]), writers[0]);
      assert outbox + (o.items + Drain(o.end).items) == (outbox + o.items) + Drain(o.end).items;
      var writer := writers[0];
      writers := writers[1..];
      DoTryWrite(writer);
    }

    method DoRead(n: nat) returns (r: Reading)
      modifies this
      ensures State() == Read(old(State()), n).0 && r == Read(old(State()), n).1
      ensures outbox == old(outbox)
      ensures r.Took? ==>
        && |r.data| <= n && got == old(got) + r.data
        && old(Unread()) == r.data + Unread() && (|r.data| < n ==> Unread() == [])
      ensures !r.Took? ==> old(Unread()) == Unread() == [] && got == old(got)
    {
      if readBuf.None? {
        return EndOfFile;
      }
      if |readBuf.value| == 0 {
        if gotEOF {
          readBuf := None;
          return EndOfFile;
        }
        return Waits;
      }
      var data := readBuf.value[..Min(n, |readBuf.value|)];
      readBuf := Some(readBuf.value[|data|..]);
      if |readBuf.value| == 0 && gotEOF {
        readBuf := None;
      }
      owed := owed + [|data|];
      got := got + data;
      r := Took(data);
    }

    method DoAdjustWindow()
      requires owed != []
      modifies this
      ensures Did(AdjustWindow(old(State())))
    {
      var n := owed[0];
      owed := owed[1..];
      myWindow := myWindow + n;
      if !sentClose {
        Send(Adjust(n));
      }
    }

    /** Running every parked writer of a channel that no longer writes empties the list. */
    method FlushWriters()
      requires sentEOF || sentClose
      modifies this
      ensures Did(Out(Flush(old(State())), []))
    {
      var all := writers;
      writers, parked := [], false;
      var i := 0;
      while i < |all|
        invariant 0 <= i <= |all|
        invariant State() == Flush(old(State())) && outbox == old(outbox)
      {
        DoTryWrite(all[i]);
        i := i + 1;
      }
    }

    method DoCloseWrite()
      modifies this
      ensures Did(CloseWrite(old(State())))
    {
      sentEOF := true;
      if !sentClose {
        Send(Eof);
        FlushWriters();
      }
    }

    method DoShutdown()
      requires sentClose
      modifies this
      ensures Did(Out(Shutdown(old(State())), []))
    {
      readBuf := None;
      FlushWriters();
      removed := true;
    }

    method DoDoClose()
      modifies this
      ensures Did(DoClose(old(State())))
    {
      gotEOF := true;
      if !sentClose {
        sentClose := true;
        Send(Close);
        return;
      }
      DoShutdown();
    }

    method DoHandleData(data: seq<byte>)
      modifies this
      ensures Did(Out(HandleData(old(State()), data), []))
    {
      if |data| > MAX_PACKET || myWindow < |data| {
        failed := true;
        return;
      }
      myWindow := myWindow - |data|;
      if readBuf.Some? {
        readBuf := Some(readBuf.value + data);
      }
    }

    method DoHandle(item: Item)
      requires maxRemotePayload > 0 || !item.Adjust?
      modifies this
      ensures Did(Handle(old(State()), item))
    {
      match item
      case Chunk(data) => DoHandleData(data);
      case Close => DoDoClose();
      case Eof => gotEOF := true;
      case Adjust(n) => DoAddWindow(n);
      case Confirm(win, max) =>
        if max < 9 {
          failed := true;
        } else {
          maxRemotePayload := max;
          DoAddWindow(win);
        }
    }
  }

  // ------------------------------------------------------------------ what callers can rely on

  function Buffered(e: End): seq<byte> {
    if e.readBuf.Some? then e.readBuf.value else []
  }

  /** A read gives the front of what was buffered, as much of it as was asked for, and leaves the rest;
      credit for exactly that is owed.  It waits exactly on an empty buffer that more may come to. */
  lemma ReadIs(e: End, n: nat)
    ensures var (e', r) := Read(e, n);
            && (r.Took? <==> Buffered(e) != [])
            && (r.Took? ==>
                  && |r.data| <= n && Buffered(e) == r.data + Buffered(e') && (|r.data| < n ==> Buffered(e') == [])
                  && e'.got == e.got + r.data && e'.owed == e.owed + [|r.data|]
                  && (e'.readBuf.None? <==> e.gotEOF && |r.data| == |Buffered(e)|))
            && (r.Waits? <==> e.readBuf == Some([]) && !e.gotEOF)
            && (r.Waits? ==> e' == e)
            && (r.EndOfFile? ==> e' == e.(readBuf := None))
            && e' == e.(readBuf := e'.readBuf, owed := e'.owed, got := e'.got)
  {
  }

  /** A write is taken whole or refused.  What goes out at once is the front of it, as much as packet and
      window allow; nothing goes out exactly if there is nothing or no window, and then it waits. */
  lemma WriteIs(e: End, p: seq<byte>)
    ensures var o := Write(e, p); var e' := o.end;
            if e.sentEOF || e.sentClose then o == Out(e, []) else
              && e'.accepted == e.accepted + p
              && e'.solo == (e.solo && e.writers == [] && e.sending == [])
              && |o.items| <= 1 && (forall x :: x in o.items ==> x.Chunk?)
              && (o.items == [] <==> p == [] || e.remoteWin == 0 || e.maxRemotePayload == 0)
              && (o.items == [] ==> e'.writers == (if p == [] then e.writers else e.writers + [p]) && e'.sending == e.sending)
              && (o.items != [] ==>
                    var d := o.items[0].data;
                    && |d| <= |p| && d == p[..|d|] && |d| <= e.maxRemotePayload && |d| <= e.remoteWin
                    && (|d| == |p| || |d| == e.maxRemotePayload || |d| == e.remoteWin)
                    && e'.remoteWin == e.remoteWin - |d| && e'.writers == e.writers
                    && e'.sending == e.sending + [Sending(p, |d|)])
              && (e'.parked <==> e.parked || (p != [] && o.items == []))
  {
  }

  /** When a packet has been handed over, what is left of its write waits, behind the others. */
  lemma SentIs(e: End)
    requires e.sending != []
    ensures var w := e.sending[0]; var e' := Sent(e);
            && e'.sending == e.sending[1..]
            && e'.writers == (if w.packet < |w.left| then e.writers + [w.left[w.packet..]] else e.writers)
            && (e'.parked <==> e.parked || w.packet < |w.left|)
  {
  }

  /** Credit: nobody waits while there is window, and nobody parks for lack of it. */
  lemma {:induction false} AddWindowIs(e: End, win: nat)
    requires e.maxRemotePayload > 0
    ensures var e' := AddWindow(e, win).end; (e'.remoteWin == 0 || e'.writers == []) && !e'.parked
  {
    DrainIs(e.(remoteWin := e.remoteWin + win, parked := false));
  }

  lemma {:induction false} DrainIs(e: End)
    requires e.maxRemotePayload > 0 && !e.parked
    ensures var e' := Drain(e).end; (e'.remoteWin == 0 || e'.writers == []) && !e'.parked
    decreases |e.writers|
  {
    hide Drain;
    if e.remoteWin > 0 && e.writers != [] {
      DrainStep(e);
      DrainIs(TryWrite(e.(writers := e.writers[1..]), e.writers[0]).end);
    } else {
      DrainDone(e);
    }
  }

  /** A writer that runs while there is window does not park again at once. */
  lemma TryWriteRuns(e: End, p: seq<byte>)
    requires e.remoteWin > 0 && e.maxRemotePayload > 0
    ensures TryWrite(e, p).end.writers == e.writers && TryWrite(e, p).end.maxRemotePayload == e.maxRemotePayload
  {
  }

  lemma DrainStep(e: End)
    requires e.remoteWin > 0 && e.writers != [] && e.maxRemotePayload > 0
    ensures var first := TryWrite(e.(writers := e.writers[1..]), e.writers[0]);
            && Drain(e) == Out(Drain(first.end).end, first.items + Drain(first.end).items)
            && |first.end.writers| == |e.writers| - 1
            && first.end.maxRemotePayload == e.maxRemotePayload
  {
    hide TryWrite;
    TryWriteRuns(e.(writers := e.writers[1..]), e.writers[0]);
  }

  lemma DrainDone(e: End)
    requires e.remoteWin == 0 || e.writers == []
    ensures Drain(e) == Out(e, [])
  {
  }
}
