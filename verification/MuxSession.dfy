/** Two sessions with any number of channels over one pair of pipes.

    Every step of the pair is a step of at most one channel and leaves all others as they are, so what
    `MuxLink` proves of one channel holds of each of many. */
module MuxSession {
  import opened Utf16
  import opened MuxChannel
  import opened MuxLink

  /** A message on the wire: an Open, or one for a channel of the receiver.  `sender` is what a
      confirmation carries besides. */
  datatype Packet = Open(from: nat) | For(channel: nat, sender: nat, item: Item)

  /** An entry of a session's table; its place is its local id.  A hole is an end that is `removed`. */
  datatype Chan = Chan(remote: nat, active: bool, end: End)

  /** Two sides, `false` and `true`: their tables, and what each has sent and the other not received. */
  datatype Net = Net(c0: seq<Chan>, c1: seq<Chan>, q0: seq<Packet>, q1: seq<Packet>)

  function Other(w: bool): bool { !w }
  function Chans(n: Net, w: bool): seq<Chan> { if w then n.c1 else n.c0 }
  function Queue(n: Net, w: bool): seq<Packet> { if w then n.q1 else n.q0 }
  function WithChans(n: Net, w: bool, cs: seq<Chan>): Net { if w then n.(c1 := cs) else n.(c0 := cs) }
  function WithQueue(n: Net, w: bool, q: seq<Packet>): Net { if w then n.(q1 := q) else n.(q0 := q) }

  function Start(): Net { Net([], [], [], []) }

  /** Messages of a channel as packets for the other side. */
  function Packets(remote: nat, items: seq<Item>): seq<Packet> {
    if items == [] then [] else [For(remote, 0, items[0])] + Packets(remote, items[1..])
  }

  datatype Move = OpenNew(w: bool) | Use(w: bool, id: nat, op: Op) | Receives(w: bool)

  predicate Able(n: Net, m: Move) {
    match m
    case OpenNew(w) => true
    case Use(w, id, op) => id < |Chans(n, w)| && Enabled(Chans(n, w)[id].end, op)
    case Receives(w) => Queue(n, Other(w)) != []
  }

  /** `open`: ids are the next place in the table; holes are not used again. */
  function DoOpen(n: Net, w: bool): Net {
    WithQueue(WithChans(n, w, Chans(n, w) + [Chan(0, true, Fresh())]), w, Queue(n, w) + [Open(|Chans(n, w)|)])
  }

  function DoUse(n: Net, w: bool, id: nat, op: Op): Net
    requires id < |Chans(n, w)| && Enabled(Chans(n, w)[id].end, op)
  {
    var c := Chans(n, w)[id];
    var o := Perform(c.end, op);
    WithQueue(WithChans(n, w, Chans(n, w)[id := c.(end := o.end)]), w, Queue(n, w) + Packets(c.remote, o.items))
  }

  /** `handleOpen`. */
  function DoAccept(n: Net, w: bool, from: nat): Net {
    WithQueue(WithChans(n, w, Chans(n, w) + [Chan(from, false, Accepted())]), w,
              Queue(n, w) + [For(from, |Chans(n, w)|, Confirm(WINDOW, MAX_PACKET))])
  }

  /** `handle` of the channel a message is for; a confirmation sets the remote id first. */
  function DoHandle(n: Net, w: bool, id: nat, sender: nat, item: Item): Net
    requires id < |Chans(n, w)|
  {
    var c := Chans(n, w)[id];
    var remote := if item.Confirm? && !c.end.removed then sender else c.remote;
    var o := Receive(c.end, item);
    WithQueue(WithChans(n, w, Chans(n, w)[id := Chan(remote, c.active, o.end)]), w, Queue(n, w) + Packets(remote, o.items))
  }

  /** The loop of a session takes one message; one for a channel it does not have is dropped. */
  function DoReceive(n: Net, w: bool): Net
    requires Queue(n, Other(w)) != []
  {
    var p := Queue(n, Other(w))[0];
    var n1 := WithQueue(n, Other(w), Queue(n, Other(w))[1..]);
    match p
    case Open(from) => DoAccept(n1, w, from)
    case For(id, sender, item) => if id < |Chans(n, w)| then DoHandle(n1, w, id, sender, item) else n1
  }

  function Next(n: Net, m: Move): Net
    requires Able(n, m)
  {
    match m
    case OpenNew(w) => DoOpen(n, w)
    case Use(w, id, op) => DoUse(n, w, id, op)
    case Receives(w) => DoReceive(n, w)
  }

  predicate Legal(n: Net, run: seq<Move>)
    decreases |run|
  {
    run == [] || (Able(n, run[0]) && Legal(Next(n, run[0]), run[1..]))
  }

  function After(n: Net, run: seq<Move>): Net
    requires Legal(n, run)
    decreases |run|
  {
    if run == [] then n else After(Next(n, run[0]), run[1..])
  }

  // ------------------------------------------------------------------- one channel of many

  /** What a pipe carries for one channel. */
  function ItemsFor(q: seq<Packet>, id: nat): seq<Item> {
    if q == [] then []
    else (if q[0].For? && q[0].channel == id then [q[0].item] else []) + ItemsFor(q[1..], id)
  }

  lemma {:induction false} ItemsJoin(q: seq<Packet>, r: seq<Packet>, id: nat)
    ensures ItemsFor(q + r, id) == ItemsFor(q, id) + ItemsFor(r, id)
  {
    if q == [] {
      assert q + r == r;
    } else {
      assert (q + r)[1..] == q[1..] + r;
      ItemsJoin(q[1..], r, id);
    }
  }

  lemma {:induction false} ItemsOfPackets(remote: nat, items: seq<Item>, id: nat)
    ensures ItemsFor(Packets(remote, items), id) == if id == remote then items else []
  {
    if items != [] {
      ItemsOfPackets(remote, items[1..], id);
      assert Packets(remote, items)[1..] == Packets(remote, items[1..]);
    }
  }

  /** `j` is the place at the far side of the channel that `w` opened as `i`. */
  predicate IsPartner(n: Net, w: bool, i: nat, j: nat) {
    j < |Chans(n, Other(w))| && !Chans(n, Other(w))[j].active && Chans(n, Other(w))[j].remote == i
  }

  /** The channel that `w` opened as `i`, on its own; `j` is its place at the far side, if it has one. */
  function Proj(n: Net, w: bool, i: nat, j: Option<nat>): Link
    requires i < |Chans(n, w)| && (j.Some? ==> j.value < |Chans(n, Other(w))|)
  {
    Link(Chans(n, w)[i].end,
         if j.Some? then Some(Chans(n, Other(w))[j.value].end) else None,
         if j.Some? then ItemsFor(Queue(n, w), j.value) else [],
         ItemsFor(Queue(n, Other(w)), i))
  }

  /** Which place an opened channel has at the far side, if any. */
  ghost predicate Paired(n: Net, w: bool, i: nat, j: Option<nat>) {
    match j
    case Some(k) => IsPartner(n, w, i, k)
    case None => forall k :: !IsPartner(n, w, i, k)
  }

  predicate IsOpener(n: Net, w: bool, i: nat) { i < |Chans(n, w)| && Chans(n, w)[i].active }

  // --------------------------------------------------------------------------- invariant

  /** The table of `w`: channels the far side opened have their opener there, no two the same one; an
      opened channel that is confirmed knows its place at the far side. */
  ghost predicate TableOk(n: Net, w: bool) {
    && (forall j :: 0 <= j < |Chans(n, w)| && !Chans(n, w)[j].active ==> IsOpener(n, Other(w), Chans(n, w)[j].remote))
    && (forall j, k :: 0 <= j < k < |Chans(n, w)| && !Chans(n, w)[j].active && !Chans(n, w)[k].active ==>
          Chans(n, w)[j].remote != Chans(n, w)[k].remote)
    && (forall i :: 0 <= i < |Chans(n, w)| && Chans(n, w)[i].active && Chans(n, w)[i].end.maxRemotePayload > 0 ==>
          IsPartner(n, w, i, Chans(n, w)[i].remote))
  }

  /** A packet `w` has sent and that has not arrived. */
  ghost predicate PacketOk(n: Net, w: bool, p: Packet) {
    match p
    case Open(i) => IsOpener(n, w, i) && Paired(n, w, i, None)
    case For(id, sender, item) =>
      && id < |Chans(n, Other(w))|
      && (item.Confirm? ==> IsOpener(n, Other(w), id) && IsPartner(n, Other(w), id, sender))
  }

  ghost predicate PipeOk(n: Net, w: bool) {
    && (forall k :: 0 <= k < |Queue(n, w)| ==> PacketOk(n, w, Queue(n, w)[k]))
    && (forall k, l :: 0 <= k < l < |Queue(n, w)| && Queue(n, w)[k].Open? ==> Queue(n, w)[k] != Queue(n, w)[l])
  }

  ghost predicate Wired(n: Net) {
    TableOk(n, false) && TableOk(n, true) && PipeOk(n, false) && PipeOk(n, true)
  }

  /** Every channel, on its own, is in order. */
  ghost predicate LinksOk(n: Net) {
    forall w: bool, i: nat, j: Option<nat> :: IsOpener(n, w, i) && Paired(n, w, i, j) ==> MuxLink.Inv(Proj(n, w, i, j))
  }

  ghost predicate Inv(n: Net) { Wired(n) && LinksOk(n) }

  /** One channel of side `w` took a step: its entry changed, `items` went out for place `r`, and `taken`
      says whether the first packet of the other pipe was for it. */
  ghost predicate Turn(n: Net, n': Net, w: bool, id: nat, r: nat, items: seq<Item>, taken: bool) {
    && id < |Chans(n, w)| && Chans(n', Other(w)) == Chans(n, Other(w))
    && |Chans(n', w)| == |Chans(n, w)|
    && (forall k :: 0 <= k < |Chans(n, w)| && k != id ==> Chans(n', w)[k] == Chans(n, w)[k])
    && Chans(n', w)[id].active == Chans(n, w)[id].active
    && (!Chans(n, w)[id].active ==> Chans(n', w)[id].remote == Chans(n, w)[id].remote)
    && Queue(n', w) == Queue(n, w) + Packets(r, items)
    && (taken ==> Queue(n, Other(w)) != [] && Queue(n, Other(w))[0].For? && Queue(n, Other(w))[0].channel == id)
    && Queue(n', Other(w)) == (if taken then Queue(n, Other(w))[1..] else Queue(n, Other(w)))
  }

  lemma TurnItems(n: Net, n': Net, w: bool, id: nat, r: nat, items: seq<Item>, taken: bool)
    requires Turn(n, n', w, id, r, items, taken)
    ensures forall x: nat :: ItemsFor(Queue(n', w), x) == ItemsFor(Queue(n, w), x) + (if x == r then items else [])
    ensures forall x: nat :: ItemsFor(Queue(n, Other(w)), x) ==
              (if taken && x == id then [Queue(n, Other(w))[0].item] else []) + ItemsFor(Queue(n', Other(w)), x)
    ensures forall v: bool, i: nat, j: nat :: IsPartner(n', v, i, j) == IsPartner(n, v, i, j)
    ensures forall v: bool, i: nat :: IsOpener(n', v, i) == IsOpener(n, v, i)
  {
    forall x: nat ensures ItemsFor(Queue(n', w), x) == ItemsFor(Queue(n, w), x) + (if x == r then items else []) {
      ItemsJoin(Queue(n, w), Packets(r, items), x);
      ItemsOfPackets(r, items, x);
    }
    forall x: nat ensures ItemsFor(Queue(n, Other(w)), x) ==
        (if taken && x == id then [Queue(n, Other(w))[0].item] else []) + ItemsFor(Queue(n', Other(w)), x) {
      assert [] + ItemsFor(Queue(n', Other(w)), x) == ItemsFor(Queue(n', Other(w)), x);
    }
  }

  /** A channel that the turn is not about is as it was. */
  lemma Untouched(n: Net, n': Net, w: bool, id: nat, r: nat, items: seq<Item>, taken: bool, v: bool, i: nat, j: Option<nat>)
    requires Wired(n) && Turn(n, n', w, id, r, items, taken) && IsOpener(n, v, i) && Paired(n, v, i, j)
    requires if v == w then i != id && (j == Some(r) ==> items == []) else j != Some(id) && (i == r ==> items == [])
    ensures Proj(n', v, i, j) == Proj(n, v, i, j)
  {
    hide Wired;
    TurnItems(n, n', w, id, r, items, taken);
    if v == w {
      assert j.Some? ==> ItemsFor(Queue(n', w), j.value) == ItemsFor(Queue(n, w), j.value) + [];
    } else {
      assert ItemsFor(Queue(n', w), i) == ItemsFor(Queue(n, w), i) + [];
    }
  }

  lemma PartnerIsOne(n: Net, w: bool, i: nat, j: Option<nat>, k: nat)
    requires Wired(n) && Paired(n, w, i, j) && IsPartner(n, w, i, k)
    ensures j == Some(k)
  {
    assert TableOk(n, Other(w));
  }

  lemma PacketsAre(r: nat, items: seq<Item>)
    ensures |Packets(r, items)| == |items|
    ensures forall k :: 0 <= k < |items| ==> Packets(r, items)[k] == For(r, 0, items[k])
  {
  }

  /** What a turn has to see to for the wiring to hold after it. */
  lemma TurnWired(n: Net, n': Net, w: bool, id: nat, r: nat, items: seq<Item>, taken: bool)
    requires Wired(n) && Turn(n, n', w, id, r, items, taken) && NoConfirm(items)
    requires items != [] ==> r < |Chans(n, Other(w))|
    requires Chans(n, w)[id].active && Chans(n', w)[id].end.maxRemotePayload > 0 ==> IsPartner(n, w, id, Chans(n', w)[id].remote)
    ensures Wired(n')
  {
    TurnItems(n, n', w, id, r, items, taken);
    PacketsAre(r, items);
    TurnTables(n, n', w, id, r, items, taken);
    TurnPipes(n, n', w, id, r, items, taken);
  }

  lemma TurnTables(n: Net, n': Net, w: bool, id: nat, r: nat, items: seq<Item>, taken: bool)
    requires Wired(n) && Turn(n, n', w, id, r, items, taken)
    requires Chans(n, w)[id].active && Chans(n', w)[id].end.maxRemotePayload > 0 ==> IsPartner(n, w, id, Chans(n', w)[id].remote)
    ensures TableOk(n', false) && TableOk(n', true)
  {
    hide ItemsFor, Packets;
    NearTable(n, n', w, id, r, items, taken);
    FarTable(n, n', w, id, r, items, taken);
  }

  lemma NearTable(n: Net, n': Net, w: bool, id: nat, r: nat, items: seq<Item>, taken: bool)
    requires Wired(n) && Turn(n, n', w, id, r, items, taken)
    requires Chans(n, w)[id].active && Chans(n', w)[id].end.maxRemotePayload > 0 ==> IsPartner(n, w, id, Chans(n', w)[id].remote)
    ensures TableOk(n', w)
  {
    hide ItemsFor, Packets;
    assert TableOk(n, w);
    TurnItems(n, n', w, id, r, items, taken);
  }

  lemma FarTable(n: Net, n': Net, w: bool, id: nat, r: nat, items: seq<Item>, taken: bool)
    requires Wired(n) && Turn(n, n', w, id, r, items, taken)
    ensures TableOk(n', Other(w))
  {
    hide ItemsFor, Packets;
    assert TableOk(n, Other(w));
    TurnItems(n, n', w, id, r, items, taken);
  }

  lemma TurnPipes(n: Net, n': Net, w: bool, id: nat, r: nat, items: seq<Item>, taken: bool)
    requires Wired(n) && Turn(n, n', w, id, r, items, taken) && NoConfirm(items)
    requires items != [] ==> r < |Chans(n, Other(w))|
    ensures PipeOk(n', false) && PipeOk(n', true)
  {
    hide ItemsFor, Packets, PacketOk, Wired;
    PipesOf(n, w);
    TurnItems(n, n', w, id, r, items, taken);
    PacketsAre(r, items);
    forall k | 0 <= k < |Queue(n', w)| ensures PacketOk(n', w, Queue(n', w)[k]) {
      if k < |Queue(n, w)| {
        assert Queue(n', w)[k] == Queue(n, w)[k];
        TurnPacket(n, n', w, Queue(n, w)[k]);
      } else {
        assert Queue(n', w)[k] == For(r, 0, items[k - |Queue(n, w)|]);
        QuietPacket(n', w, r, items, k - |Queue(n, w)|);
      }
    }
    forall k | 0 <= k < |Queue(n', Other(w))| ensures PacketOk(n', Other(w), Queue(n', Other(w))[k]) {
      TurnPacket(n, n', Other(w), Queue(n, Other(w))[if taken then k + 1 else k]);
    }
    assert PipeOk(n', w) && PipeOk(n', Other(w));
  }

  lemma PipesOf(n: Net, w: bool)
    requires Wired(n)
    ensures PipeOk(n, w) && PipeOk(n, Other(w))
  {
  }

  lemma TurnPacket(n: Net, n': Net, v: bool, p: Packet)
    requires PacketOk(n, v, p) && |Chans(n', Other(v))| == |Chans(n, Other(v))|
    requires forall v: bool, i: nat, j: nat :: IsPartner(n', v, i, j) == IsPartner(n, v, i, j)
    requires forall v: bool, i: nat :: IsOpener(n', v, i) == IsOpener(n, v, i)
    ensures PacketOk(n', v, p)
  {
  }

  lemma QuietPacket(n: Net, w: bool, r: nat, items: seq<Item>, k: nat)
    requires k < |items| && NoConfirm(items) && r < |Chans(n, Other(w))|
    ensures PacketOk(n, w, For(r, 0, items[k]))
  {
    assert items[k] in items;
  }

  /** The turn is a step of one link, and leaves all others alone. */
  lemma TurnLinks(n: Net, n': Net, w: bool, id: nat, r: nat, items: seq<Item>, taken: bool, s: MuxLink.Step)
    requires Inv(n) && Turn(n, n', w, id, r, items, taken) && Wired(n')
    requires if Chans(n, w)[id].active then
               IsPartner(n, w, id, r) && Can(Proj(n, w, id, Some(r)), s)
               && Proj(n', w, id, Some(r)) == MuxLink.Next(Proj(n, w, id, Some(r)), s)
             else
               r == Chans(n, w)[id].remote && r < |Chans(n, Other(w))| && Can(Proj(n, Other(w), r, Some(id)), s)
               && Proj(n', Other(w), r, Some(id)) == MuxLink.Next(Proj(n, Other(w), r, Some(id)), s)
    ensures LinksOk(n')
  {
    hide ItemsFor, Packets, MuxLink.Inv, MuxLink.Next, Can, Wired, Turn, Proj;
    TurnItems(n, n', w, id, r, items, taken);
    forall v: bool, i: nat, j: Option<nat> | IsOpener(n', v, i) && Paired(n', v, i, j) ensures MuxLink.Inv(Proj(n', v, i, j)) {
      assert IsOpener(n, v, i) && Paired(n, v, i, j);
      OneLink(n, n', w, id, r, items, taken, s, v, i, j);
    }
  }

  lemma OneLink(n: Net, n': Net, w: bool, id: nat, r: nat, items: seq<Item>, taken: bool, s: MuxLink.Step, v: bool, i: nat, j: Option<nat>)
    requires Inv(n) && Turn(n, n', w, id, r, items, taken) && IsOpener(n, v, i) && Paired(n, v, i, j)
    requires if Chans(n, w)[id].active then
               IsPartner(n, w, id, r) && Can(Proj(n, w, id, Some(r)), s)
               && Proj(n', w, id, Some(r)) == MuxLink.Next(Proj(n, w, id, Some(r)), s)
             else
               r == Chans(n, w)[id].remote && r < |Chans(n, Other(w))| && Can(Proj(n, Other(w), r, Some(id)), s)
               && Proj(n', Other(w), r, Some(id)) == MuxLink.Next(Proj(n, Other(w), r, Some(id)), s)
    ensures MuxLink.Inv(Proj(n', v, i, j))
  {
    hide MuxLink.Inv, MuxLink.Next, Can, Wired;
    assert MuxLink.Inv(Proj(n, v, i, j));
    if Chans(n, w)[id].active {
      if v == w && i == id {
        PartnerIsOne(n, w, id, j, r);
        NextInv(Proj(n, w, id, Some(r)), s);
      } else {
        Untouched(n, n', w, id, r, items, taken, v, i, j);
      }
    } else {
      assert IsPartner(n, Other(w), r, id);
      if v != w && j == Some(id) {
        NextInv(Proj(n, Other(w), r, Some(id)), s);
      } else {
        if v != w && i == r {
          PartnerIsOne(n, Other(w), r, j, id);
        }
        OpenersAreNoPartners(n, w, id, r, v, i, j);
        Untouched(n, n', w, id, r, items, taken, v, i, j);
      }
    }
  }

  lemma OpenersAreNoPartners(n: Net, w: bool, id: nat, r: nat, v: bool, i: nat, j: Option<nat>)
    requires Wired(n) && id < |Chans(n, w)| && !Chans(n, w)[id].active && r == Chans(n, w)[id].remote
    requires IsOpener(n, v, i) && Paired(n, v, i, j)
    ensures v == w ==> i != id && j != Some(r)
  {
    assert TableOk(n, w);
    assert IsOpener(n, Other(w), r);
  }

  // ------------------------------------------------------------------------------- moves

  lemma LinkOf(n: Net, w: bool, id: nat) returns (i: nat, k: nat)
    requires Inv(n) && id < |Chans(n, w)| && Chans(n, w)[id].end.maxRemotePayload > 0
    ensures Chans(n, w)[id].active ==>
      i == id && k == Chans(n, w)[id].remote && IsPartner(n, w, id, k) && MuxLink.Inv(Proj(n, w, id, Some(k)))
    ensures !Chans(n, w)[id].active ==>
      i == Chans(n, w)[id].remote && k == id && IsOpener(n, Other(w), i) && IsPartner(n, Other(w), i, k)
      && MuxLink.Inv(Proj(n, Other(w), i, Some(k)))
  {
    hide MuxLink.Inv;
    assert TableOk(n, w);
    if Chans(n, w)[id].active {
      i, k := id, Chans(n, w)[id].remote;
      assert IsOpener(n, w, id) && Paired(n, w, id, Some(k));
    } else {
      i, k := Chans(n, w)[id].remote, id;
      assert IsOpener(n, Other(w), i) && Paired(n, Other(w), i, Some(k));
    }
  }

  lemma UseTurn(n: Net, w: bool, id: nat, op: Op)
    requires Able(n, Use(w, id, op))
    ensures Next(n, Use(w, id, op)) == DoUse(n, w, id, op)
    ensures Turn(n, DoUse(n, w, id, op), w, id, Chans(n, w)[id].remote, Perform(Chans(n, w)[id].end, op).items, false)
    ensures Chans(DoUse(n, w, id, op), w)[id].remote == Chans(n, w)[id].remote
  {
    hide Perform;
  }

  /** A user of one channel. */
  lemma UseInv(n: Net, w: bool, id: nat, op: Op)
    requires Inv(n) && Able(n, Use(w, id, op))
    ensures Inv(Next(n, Use(w, id, op)))
  {
    hide MuxLink.Inv, MuxLink.Next, Perform, Inv, Turn, Wired, LinksOk, ItemsFor, Proj, DoUse;
    var c := Chans(n, w)[id];
    var o := Perform(c.end, op);
    var n' := DoUse(n, w, id, op);
    var i, k := LinkOf(n, w, id);
    InvIsWired(n);
    UseQuiet(n, w, id, op);
    UseTurn(n, w, id, op);
    TurnItems(n, n', w, id, c.remote, o.items, false);
    TurnWired(n, n', w, id, c.remote, o.items, false);
    if c.active {
      UseOpener(n, n', w, id, op);
      TurnLinks(n, n', w, id, c.remote, o.items, false, OpA(op));
    } else {
      UseAccepted(n, n', w, id, op);
      TurnLinks(n, n', w, id, c.remote, o.items, false, OpB(op));
    }
    InvIs(n');
  }

  lemma InvIsWired(n: Net)
    requires Inv(n)
    ensures Wired(n)
  {
  }

  lemma InvIs(n: Net)
    requires Wired(n) && LinksOk(n)
    ensures Inv(n)
  {
  }

  /** What an operation sends is no confirmation, and the channel stays confirmed. */
  lemma UseQuiet(n: Net, w: bool, id: nat, op: Op)
    requires Inv(n) && Able(n, Use(w, id, op))
    ensures var e := Chans(n, w)[id].end; NoConfirm(Perform(e, op).items)
    ensures Chans(n, w)[id].active ==> IsPartner(n, w, id, Chans(n, w)[id].remote)
    ensures Chans(n, w)[id].remote < |Chans(n, Other(w))|
  {
    var i, k := LinkOf(n, w, id);
    hide LinksOk, Wired, Perform;
    var e := Chans(n, w)[id].end;
    assert Local(e);
    PerformSteps(e, op);
  }

  lemma UseOpener(n: Net, n': Net, w: bool, id: nat, op: Op)
    requires Able(n, Use(w, id, op)) && n' == DoUse(n, w, id, op)
    requires IsOpener(n, w, id) && IsPartner(n, w, id, Chans(n, w)[id].remote)
    requires forall x: nat :: ItemsFor(Queue(n', w), x) ==
               ItemsFor(Queue(n, w), x) + (if x == Chans(n, w)[id].remote then Perform(Chans(n, w)[id].end, op).items else [])
    requires forall x: nat :: ItemsFor(Queue(n, Other(w)), x) == [] + ItemsFor(Queue(n', Other(w)), x)
    ensures var l := Proj(n, w, id, Some(Chans(n, w)[id].remote));
            Can(l, OpA(op)) && Proj(n', w, id, Some(Chans(n, w)[id].remote)) == MuxLink.Next(l, OpA(op))
  {
    hide Perform, ItemsFor, Packets;
    assert [] + ItemsFor(Queue(n', Other(w)), id) == ItemsFor(Queue(n', Other(w)), id);
  }

  lemma UseAccepted(n: Net, n': Net, w: bool, id: nat, op: Op)
    requires Able(n, Use(w, id, op)) && n' == DoUse(n, w, id, op)
    requires !Chans(n, w)[id].active && Chans(n, w)[id].remote < |Chans(n, Other(w))|
    requires forall x: nat :: ItemsFor(Queue(n', w), x) ==
               ItemsFor(Queue(n, w), x) + (if x == Chans(n, w)[id].remote then Perform(Chans(n, w)[id].end, op).items else [])
    requires forall x: nat :: ItemsFor(Queue(n, Other(w)), x) == [] + ItemsFor(Queue(n', Other(w)), x)
    ensures var l := Proj(n, Other(w), Chans(n, w)[id].remote, Some(id));
            Can(l, OpB(op)) && Proj(n', Other(w), Chans(n, w)[id].remote, Some(id)) == MuxLink.Next(l, OpB(op))
  {
    hide Perform, ItemsFor, Packets;
    assert [] + ItemsFor(Queue(n', Other(w)), id) == ItemsFor(Queue(n', Other(w)), id);
  }

  lemma {:induction false} NoItems(q: seq<Packet>, id: nat)
    requires forall k :: 0 <= k < |q| && q[k].For? ==> q[k].channel != id
    ensures ItemsFor(q, id) == []
  {
    if q != [] {
      NoItems(q[1..], id);
    }
  }

  /** A new entry at the end of `w`'s table and one packet at the end of its pipe; `q` is what is left in
      the other pipe. */
  ghost predicate Grown(n: Net, n': Net, w: bool, c: Chan, p: Packet, q: seq<Packet>) {
    && Chans(n', w) == Chans(n, w) + [c] && Chans(n', Other(w)) == Chans(n, Other(w))
    && Queue(n', w) == Queue(n, w) + [p] && Queue(n', Other(w)) == q
  }

  lemma GrownItems(n: Net, n': Net, w: bool, c: Chan, p: Packet, q: seq<Packet>)
    requires Grown(n, n', w, c, p, q)
    ensures forall x: nat :: ItemsFor(Queue(n', w), x) ==
              ItemsFor(Queue(n, w), x) + (if p.For? && p.channel == x then [p.item] else [])
  {
    forall x: nat ensures ItemsFor(Queue(n', w), x) ==
        ItemsFor(Queue(n, w), x) + (if p.For? && p.channel == x then [p.item] else []) {
      ItemsJoin(Queue(n, w), [p], x);
      assert [p][1..] == [];
    }
  }

  lemma OpenTables(n: Net, w: bool)
    requires Wired(n)
    ensures var n' := Next(n, OpenNew(w));
            && TableOk(n', w) && TableOk(n', Other(w))
            && (forall v: bool, i: nat, j: nat :: IsPartner(n', v, i, j) == IsPartner(n, v, i, j))
            && (forall v: bool, i: nat :: IsOpener(n, v, i) ==> IsOpener(n', v, i))
    ensures forall j: nat :: !IsPartner(n, w, |Chans(n, w)|, j)
  {
    hide ItemsFor, PipeOk;
    var n' := Next(n, OpenNew(w));
    assert TableOk(n, w) && TableOk(n, Other(w)) && Other(Other(w)) == w;
    hide Wired;
    OpenChans(n, w);
    hide Next;
    OpenPartners(n, n', w);
    OpenTable(n, n', w);
  }

  lemma OpenChans(n: Net, w: bool)
    ensures var n' := Next(n, OpenNew(w));
            && |Chans(n', w)| == |Chans(n, w)| + 1 && Chans(n', w)[..|Chans(n, w)|] == Chans(n, w)
            && Chans(n', w)[|Chans(n, w)|].active && Chans(n', w)[|Chans(n, w)|].end.maxRemotePayload == 0
            && Chans(n', Other(w)) == Chans(n, Other(w))
  {
  }

  lemma OpenPartners(n: Net, n': Net, w: bool)
    requires |Chans(n', w)| == |Chans(n, w)| + 1 && Chans(n', w)[..|Chans(n, w)|] == Chans(n, w)
    requires Chans(n', w)[|Chans(n, w)|].active && Chans(n', Other(w)) == Chans(n, Other(w)) && Other(Other(w)) == w
    ensures forall v: bool, i: nat, j: nat :: IsPartner(n', v, i, j) == IsPartner(n, v, i, j)
    ensures forall v: bool, i: nat :: IsOpener(n, v, i) ==> IsOpener(n', v, i)
  {
    assert forall k :: 0 <= k < |Chans(n, w)| ==> Chans(n', w)[k] == Chans(n, w)[k];
    forall v: bool, i: nat, j: nat ensures IsPartner(n', v, i, j) == IsPartner(n, v, i, j) {
      assert v == w || v == Other(w);
    }
    forall v: bool, i: nat | IsOpener(n, v, i) ensures IsOpener(n', v, i) {
      assert v == w || v == Other(w);
    }
  }

  lemma OpenTable(n: Net, n': Net, w: bool)
    requires TableOk(n, w) && TableOk(n, Other(w)) && Other(Other(w)) == w
    requires |Chans(n', w)| == |Chans(n, w)| + 1 && Chans(n', w)[..|Chans(n, w)|] == Chans(n, w)
    requires Chans(n', w)[|Chans(n, w)|].active && Chans(n', w)[|Chans(n, w)|].end.maxRemotePayload == 0
    requires Chans(n', Other(w)) == Chans(n, Other(w))
    requires forall v: bool, i: nat, j: nat :: IsPartner(n', v, i, j) == IsPartner(n, v, i, j)
    requires forall v: bool, i: nat :: IsOpener(n, v, i) ==> IsOpener(n', v, i)
    ensures TableOk(n', w) && TableOk(n', Other(w))
    ensures forall j: nat :: !IsPartner(n, w, |Chans(n, w)|, j)
  {
    OpenNearTable(n, n', w);
    OpenFarTable(n, n', w);
    hide TableOk;
    forall j: nat ensures !IsPartner(n, w, |Chans(n, w)|, j) {
      FarRemote(n, w, j);
    }
  }

  lemma FarRemote(n: Net, w: bool, j: nat)
    requires TableOk(n, Other(w)) && Other(Other(w)) == w
    ensures j < |Chans(n, Other(w))| && !Chans(n, Other(w))[j].active ==> IsOpener(n, w, Chans(n, Other(w))[j].remote)
  {
  }

  lemma OpenNearTable(n: Net, n': Net, w: bool)
    requires TableOk(n, w) && TableOk(n, Other(w)) && Other(Other(w)) == w
    requires |Chans(n', w)| == |Chans(n, w)| + 1 && Chans(n', w)[..|Chans(n, w)|] == Chans(n, w)
    requires Chans(n', w)[|Chans(n, w)|].active && Chans(n', w)[|Chans(n, w)|].end.maxRemotePayload == 0
    requires Chans(n', Other(w)) == Chans(n, Other(w))
    requires forall v: bool, i: nat, j: nat :: IsPartner(n', v, i, j) == IsPartner(n, v, i, j)
    requires forall v: bool, i: nat :: IsOpener(n, v, i) ==> IsOpener(n', v, i)
    ensures TableOk(n', w)
  {
    var last := |Chans(n, w)|;
    forall k | 0 <= k < last ensures Chans(n', w)[k] == Chans(n, w)[k] {
      assert Chans(n', w)[..last][k] == Chans(n, w)[k];
    }
    assert Chans(n', w)[last].active && Chans(n', w)[last].end.maxRemotePayload == 0;
  }

  lemma OpenFarTable(n: Net, n': Net, w: bool)
    requires TableOk(n, w) && TableOk(n, Other(w)) && Other(Other(w)) == w
    requires |Chans(n', w)| == |Chans(n, w)| + 1 && Chans(n', w)[..|Chans(n, w)|] == Chans(n, w)
    requires Chans(n', w)[|Chans(n, w)|].active && Chans(n', w)[|Chans(n, w)|].end.maxRemotePayload == 0
    requires Chans(n', Other(w)) == Chans(n, Other(w))
    requires forall v: bool, i: nat, j: nat :: IsPartner(n', v, i, j) == IsPartner(n, v, i, j)
    requires forall v: bool, i: nat :: IsOpener(n, v, i) ==> IsOpener(n', v, i)
    ensures TableOk(n', Other(w))
  {
    forall j | 0 <= j < |Chans(n', Other(w))| && !Chans(n', Other(w))[j].active
      ensures IsOpener(n', Other(Other(w)), Chans(n', Other(w))[j].remote)
    {
      FarRemote(n, w, j);
    }
  }

  lemma OpenPipes(n: Net, w: bool)
    requires Wired(n)
    ensures var n' := Next(n, OpenNew(w)); PipeOk(n', w) && PipeOk(n', Other(w))
  {
    hide ItemsFor, TableOk;
    OpenTables(n, w);
    OpenNearPipe(n, w, Next(n, OpenNew(w)));
    OpenFarPipe(n, w, Next(n, OpenNew(w)));
  }

  lemma OpenNearPipe(n: Net, w: bool, n': Net)
    requires PipeOk(n, w) && n' == Next(n, OpenNew(w))
    requires forall v: bool, i: nat, j: nat :: IsPartner(n', v, i, j) == IsPartner(n, v, i, j)
    requires forall v: bool, i: nat :: IsOpener(n, v, i) ==> IsOpener(n', v, i)
    requires forall j :: !IsPartner(n, w, |Chans(n, w)|, j)
    ensures PipeOk(n', w)
  {
    hide ItemsFor, PacketOk;
    var q, p := Queue(n, w), Open(|Chans(n, w)|);
    assert Queue(n', w) == q + [p];
    forall k | 0 <= k < |q| ensures PacketOk(n', w, q[k]) && q[k] != p {
      OpenedPacket(n, w, n', q[k]);
    }
    NewOpenOk(n, w, n');
    PipeGrows(n', w, q, p);
  }

  lemma OpenedPacket(n: Net, w: bool, n': Net, p: Packet)
    requires PacketOk(n, w, p) && n' == Next(n, OpenNew(w))
    requires forall v: bool, i: nat, j: nat :: IsPartner(n', v, i, j) == IsPartner(n, v, i, j)
    requires forall v: bool, i: nat :: IsOpener(n, v, i) ==> IsOpener(n', v, i)
    ensures PacketOk(n', w, p) && p != Open(|Chans(n, w)|)
  {
  }

  lemma NewOpenOk(n: Net, w: bool, n': Net)
    requires n' == Next(n, OpenNew(w))
    requires forall v: bool, i: nat, j: nat :: IsPartner(n', v, i, j) == IsPartner(n, v, i, j)
    requires forall j :: !IsPartner(n, w, |Chans(n, w)|, j)
    ensures PacketOk(n', w, Open(|Chans(n, w)|))
  {
  }

  lemma PipeGrows(n: Net, w: bool, q: seq<Packet>, p: Packet)
    requires Queue(n, w) == q + [p] && PacketOk(n, w, p)
    requires forall k :: 0 <= k < |q| ==> PacketOk(n, w, q[k]) && (p.Open? ==> q[k] != p)
    requires forall k, l :: 0 <= k < l < |q| && q[k].Open? ==> q[k] != q[l]
    requires forall k :: 0 <= k < |q| && q[k].Open? ==> q[k] != p
    ensures PipeOk(n, w)
  {
    hide PacketOk;
  }

  lemma OpenFarPipe(n: Net, w: bool, n': Net)
    requires PipeOk(n, Other(w)) && n' == Next(n, OpenNew(w))
    requires forall v: bool, i: nat, j: nat :: IsPartner(n', v, i, j) == IsPartner(n, v, i, j)
    requires forall v: bool, i: nat :: IsOpener(n, v, i) ==> IsOpener(n', v, i)
    ensures PipeOk(n', Other(w))
  {
    forall p: Packet | PacketOk(n, Other(w), p) ensures PacketOk(n', Other(w), p) {
    }
    assert Queue(n', Other(w)) == Queue(n, Other(w));
  }

  lemma OpenWired(n: Net, w: bool)
    requires Wired(n)
    ensures Wired(Next(n, OpenNew(w)))
  {
    hide TableOk, PipeOk, Next;
    assert Other(w) == !w;
    OpenTables(n, w);
    OpenPipes(n, w);
  }

  lemma OpenInv(n: Net, w: bool)
    requires Inv(n)
    ensures Inv(Next(n, OpenNew(w)))
  {
    hide MuxLink.Inv, ItemsFor, Next;
    var n' := Next(n, OpenNew(w));
    OpenWired(n, w);
    hide Wired;
    forall v: bool, i: nat, j: Option<nat> | IsOpener(n', v, i) && Paired(n', v, i, j) ensures MuxLink.Inv(Proj(n', v, i, j)) {
      OpenLink(n, n', w, v, i, j);
    }
  }

  lemma OpenLink(n: Net, n': Net, w: bool, v: bool, i: nat, j: Option<nat>)
    requires Inv(n) && n' == Next(n, OpenNew(w)) && IsOpener(n', v, i) && Paired(n', v, i, j)
    ensures MuxLink.Inv(Proj(n', v, i, j))
  {
    hide MuxLink.Inv, ItemsFor;
    OpenTables(n, w);
    if v == w && i == |Chans(n, w)| {
      NotYet(n, w);
      hide Wired;
      assert j == None;
      NewLink(Proj(n', v, i, j));
    } else {
      assert IsOpener(n, v, i) && Paired(n, v, i, j) && MuxLink.Inv(Proj(n, v, i, j));
      GrownItems(n, n', w, Chan(0, true, Fresh()), Open(|Chans(n, w)|), Queue(n, Other(w)));
      OpenLeaves(n, n', w, v, i, j);
    }
  }

  lemma OpenLeaves(n: Net, n': Net, w: bool, v: bool, i: nat, j: Option<nat>)
    requires n' == Next(n, OpenNew(w)) && IsOpener(n, v, i) && Paired(n, v, i, j)
    requires forall x: nat :: ItemsFor(Queue(n', w), x) == ItemsFor(Queue(n, w), x) + []
    ensures Proj(n', v, i, j) == Proj(n, v, i, j)
  {
    hide ItemsFor;
    assert forall x: nat :: ItemsFor(Queue(n, w), x) + [] == ItemsFor(Queue(n, w), x);
  }

  lemma NewLink(l: Link)
    requires l == Link(Fresh(), None, [], [])
    ensures MuxLink.Inv(l)
  {
  }

  /** Nothing is on its way for a place that is not there yet. */
  lemma NotYet(n: Net, w: bool)
    requires Wired(n)
    ensures ItemsFor(Queue(n, Other(w)), |Chans(n, w)|) == []
  {
    assert PipeOk(n, Other(w));
    forall k | 0 <= k < |Queue(n, Other(w))| && Queue(n, Other(w))[k].For? ensures Queue(n, Other(w))[k].channel != |Chans(n, w)| {
      assert PacketOk(n, Other(w), Queue(n, Other(w))[k]);
    }
    NoItems(Queue(n, Other(w)), |Chans(n, w)|);
  }

  /** The far side takes an Open in: until then the link had no far end. */
  lemma AcceptTables(n: Net, w: bool, from: nat)
    requires Wired(n) && Queue(n, Other(w)) != [] && Queue(n, Other(w))[0] == Open(from)
    ensures var n' := Next(n, Receives(w));
            && TableOk(n', w) && TableOk(n', Other(w))
            && (forall v: bool, i: nat, j: nat :: IsPartner(n', v, i, j) ==
                  (IsPartner(n, v, i, j) || (v == Other(w) && i == from && j == |Chans(n, w)|)))
            && (forall v: bool, i: nat :: IsOpener(n', v, i) == IsOpener(n, v, i))
    ensures IsOpener(n, Other(w), from) && Paired(n, Other(w), from, None)
  {
    hide ItemsFor;
    var n' := Next(n, Receives(w));
    assert PipeOk(n, Other(w)) && PacketOk(n, Other(w), Queue(n, Other(w))[0]);
    assert TableOk(n, w) && TableOk(n, Other(w));
    assert Other(Other(w)) == w && Chans(n', Other(w)) == Chans(n, Other(w));
    forall v: bool, i: nat, j: nat ensures IsPartner(n', v, i, j) ==
        (IsPartner(n, v, i, j) || (v == Other(w) && i == from && j == |Chans(n, w)|)) {
    }
    forall j | 0 <= j < |Chans(n, w)| && !Chans(n, w)[j].active ensures Chans(n, w)[j].remote != from {
      assert !IsPartner(n, Other(w), from, j);
    }
    AcceptTable(n, n', w, from);
  }

  lemma AcceptTable(n: Net, n': Net, w: bool, from: nat)
    requires TableOk(n, w) && TableOk(n, Other(w)) && IsOpener(n, Other(w), from) && Other(Other(w)) == w
    requires Chans(n', w) == Chans(n, w) + [Chan(from, false, Accepted())] && Chans(n', Other(w)) == Chans(n, Other(w))
    requires forall j :: 0 <= j < |Chans(n, w)| && !Chans(n, w)[j].active ==> Chans(n, w)[j].remote != from
    ensures TableOk(n', w) && TableOk(n', Other(w))
  {
    forall v: bool, i: nat, j: nat | IsPartner(n, v, i, j) ensures IsPartner(n', v, i, j) {
      assert v == w || v == Other(w);
    }
    forall v: bool, i: nat ensures IsOpener(n', v, i) == IsOpener(n, v, i) {
      assert v == w || v == Other(w);
    }
    assert TableOk(n', Other(w));
    assert TableOk(n', w);
  }

  lemma AcceptPipes(n: Net, w: bool, from: nat)
    requires Wired(n) && Queue(n, Other(w)) != [] && Queue(n, Other(w))[0] == Open(from)
    ensures var n' := Next(n, Receives(w)); PipeOk(n', w) && PipeOk(n', Other(w))
  {
    hide ItemsFor, TableOk;
    var n' := Next(n, Receives(w));
    AcceptTables(n, w, from);
    assert PipeOk(n, w) && PipeOk(n, Other(w));
    hide Wired;
    forall v: bool, p: Packet | PacketOk(n, v, p) && p != Open(from) ensures PacketOk(n', v, p) {
    }
    assert IsPartner(n', Other(w), from, |Chans(n, w)|) && Other(Other(w)) == w;
    assert PacketOk(n', w, For(from, |Chans(n, w)|, Confirm(WINDOW, MAX_PACKET)));
    forall k | 0 <= k < |Queue(n, w)| ensures PacketOk(n', w, Queue(n', w)[k]) {
      assert PacketOk(n, w, Queue(n, w)[k]) && Queue(n', w)[k] == Queue(n, w)[k];
      OpensElsewhere(n, w, from, Queue(n, w)[k], n');
    }
    forall k | 0 <= k < |Queue(n', Other(w))| ensures PacketOk(n', Other(w), Queue(n', Other(w))[k]) {
      assert Queue(n', Other(w))[k] == Queue(n, Other(w))[k + 1];
      assert PacketOk(n, Other(w), Queue(n, Other(w))[k + 1]);
    }
  }

  /** A new far end is not one of the channels `w` itself opened. */
  lemma OpensElsewhere(n: Net, w: bool, from: nat, p: Packet, n': Net)
    requires PacketOk(n, w, p) && Other(Other(w)) == w
    requires forall v: bool, i: nat, j: nat :: IsPartner(n', v, i, j) ==
               (IsPartner(n, v, i, j) || (v == Other(w) && i == from && j == |Chans(n, w)|))
    requires forall v: bool, i: nat :: IsOpener(n', v, i) == IsOpener(n, v, i)
    requires |Chans(n', Other(w))| == |Chans(n, Other(w))|
    ensures PacketOk(n', w, p)
  {
    assert w != Other(w);
  }

  lemma AcceptWired(n: Net, w: bool, from: nat)
    requires Wired(n) && Queue(n, Other(w)) != [] && Queue(n, Other(w))[0] == Open(from)
    ensures Wired(Next(n, Receives(w)))
  {
    hide TableOk, PipeOk, Next;
    assert Other(w) == !w;
    AcceptTables(n, w, from);
    AcceptPipes(n, w, from);
  }

  /** The opened channel and its new far end. */
  lemma AcceptLink(n: Net, w: bool, from: nat)
    requires Inv(n) && Queue(n, Other(w)) != [] && Queue(n, Other(w))[0] == Open(from)
    ensures var n' := Next(n, Receives(w));
            && IsPartner(n', Other(w), from, |Chans(n, w)|) && from < |Chans(n', Other(w))|
            && MuxLink.Inv(Proj(n', Other(w), from, Some(|Chans(n, w)|)))
  {
    hide MuxLink.Inv, MuxLink.Next, ItemsFor, TableOk, PipeOk;
    AcceptTables(n, w, from);
    AcceptItems(n, w, from);
    NotYet(n, w);
    assert MuxLink.Inv(Proj(n, Other(w), from, None));
    hide LinksOk, Wired;
    Accepting(n, Next(n, Receives(w)), w, from);
    NextInv(Proj(n, Other(w), from, None), Accept);
  }

  lemma AcceptInv(n: Net, w: bool, from: nat)
    requires Inv(n) && Queue(n, Other(w)) != [] && Queue(n, Other(w))[0] == Open(from)
    ensures Inv(Next(n, Receives(w)))
  {
    hide MuxLink.Inv, ItemsFor, Wired, TableOk, PipeOk, Proj, Next, Inv;
    var n' := Next(n, Receives(w));
    InvIsWired(n);
    AcceptWired(n, w, from);
    AcceptTables(n, w, from);
    AcceptLink(n, w, from);
    forall v: bool, i: nat, j: Option<nat> | IsOpener(n', v, i) && Paired(n', v, i, j) ensures MuxLink.Inv(Proj(n', v, i, j)) {
      if v == Other(w) && i == from {
        PartnerIsOne(n', v, i, j, |Chans(n, w)|);
      } else {
        AcceptElsewhere(n, n', w, from, v, i, j);
      }
    }
    InvIs(n');
  }

  lemma AcceptItems(n: Net, w: bool, from: nat)
    requires Wired(n) && Queue(n, Other(w)) != [] && Queue(n, Other(w))[0] == Open(from)
    ensures var n' := Next(n, Receives(w));
            && (forall x: nat :: ItemsFor(Queue(n', w), x) ==
                  ItemsFor(Queue(n, w), x) + (if x == from then [Confirm(WINDOW, MAX_PACKET)] else []))
            && (forall x: nat :: ItemsFor(Queue(n', Other(w)), x) == ItemsFor(Queue(n, Other(w)), x))
  {
    var n' := Next(n, Receives(w));
    GrownItems(n, n', w, Chan(from, false, Accepted()), For(from, |Chans(n, w)|, Confirm(WINDOW, MAX_PACKET)), Queue(n, Other(w))[1..]);
    forall x: nat ensures ItemsFor(Queue(n', Other(w)), x) == ItemsFor(Queue(n, Other(w)), x) {
      assert [] + ItemsFor(Queue(n', Other(w)), x) == ItemsFor(Queue(n', Other(w)), x);
    }
  }

  lemma Accepting(n: Net, n': Net, w: bool, from: nat)
    requires Queue(n, Other(w)) != [] && Queue(n, Other(w))[0] == Open(from) && n' == Next(n, Receives(w))
    requires from < |Chans(n, Other(w))| && Other(Other(w)) == w
    requires ItemsFor(Queue(n', w), from) == ItemsFor(Queue(n, w), from) + [Confirm(WINDOW, MAX_PACKET)]
    requires ItemsFor(Queue(n', Other(w)), |Chans(n, w)|) == []
    ensures Proj(n', Other(w), from, Some(|Chans(n, w)|)) == MuxLink.Next(Proj(n, Other(w), from, None), Accept)
  {
    hide ItemsFor;
  }

  lemma AcceptElsewhere(n: Net, n': Net, w: bool, from: nat, v: bool, i: nat, j: Option<nat>)
    requires Inv(n) && Queue(n, Other(w)) != [] && Queue(n, Other(w))[0] == Open(from) && n' == Next(n, Receives(w))
    requires IsOpener(n', v, i) && Paired(n', v, i, j) && !(v == Other(w) && i == from)
    ensures MuxLink.Inv(Proj(n', v, i, j))
  {
    hide MuxLink.Inv, ItemsFor;
    AcceptTables(n, w, from);
    assert IsOpener(n, v, i) && Paired(n, v, i, j) && MuxLink.Inv(Proj(n, v, i, j));
    AcceptItems(n, w, from);
    hide LinksOk, Wired, TableOk;
    AcceptLeaves(n, n', w, from, v, i, j);
  }

  lemma AcceptLeaves(n: Net, n': Net, w: bool, from: nat, v: bool, i: nat, j: Option<nat>)
    requires Queue(n, Other(w)) != [] && Queue(n, Other(w))[0] == Open(from) && n' == Next(n, Receives(w))
    requires IsOpener(n, v, i) && Paired(n, v, i, j) && IsOpener(n, Other(w), from) && !(v == Other(w) && i == from)
    requires forall x: nat :: ItemsFor(Queue(n', w), x) ==
               ItemsFor(Queue(n, w), x) + (if x == from then [Confirm(WINDOW, MAX_PACKET)] else [])
    requires forall x: nat :: ItemsFor(Queue(n', Other(w)), x) == ItemsFor(Queue(n, Other(w)), x)
    ensures Proj(n', v, i, j) == Proj(n, v, i, j)
  {
    hide ItemsFor;
    assert v == w && j.Some? ==> j.value != from;
  }

  // ---------------------------------------------------- a message for a channel is handled

  /** What the entry becomes and what is sent. */
  function Handled(n: Net, w: bool): (r: (Chan, nat, seq<Item>))
    requires Queue(n, Other(w)) != [] && Queue(n, Other(w))[0].For? && Queue(n, Other(w))[0].channel < |Chans(n, w)|
  {
    var p := Queue(n, Other(w))[0];
    var c := Chans(n, w)[p.channel];
    var remote := if p.item.Confirm? && !c.end.removed then p.sender else c.remote;
    var o := Receive(c.end, p.item);
    (Chan(remote, c.active, o.end), remote, o.items)
  }

  lemma HandleIs(n: Net, w: bool)
    requires Queue(n, Other(w)) != [] && Queue(n, Other(w))[0].For? && Queue(n, Other(w))[0].channel < |Chans(n, w)|
    ensures var n' := Next(n, Receives(w)); var id := Queue(n, Other(w))[0].channel; var h := Handled(n, w);
            && Chans(n', w) == Chans(n, w)[id := h.0] && Chans(n', Other(w)) == Chans(n, Other(w))
            && Queue(n', w) == Queue(n, w) + Packets(h.1, h.2) && Queue(n', Other(w)) == Queue(n, Other(w))[1..]
  {
    hide Receive, Packets;
  }

  /** A message for a channel that `w` opened: its link has a far end, and a confirmation is the first
      thing it gets. */
  lemma ForOpener(n: Net, w: bool) returns (k: nat)
    requires Inv(n) && Queue(n, Other(w)) != [] && Queue(n, Other(w))[0].For?
    requires IsOpener(n, w, Queue(n, Other(w))[0].channel)
    ensures var id := Queue(n, Other(w))[0].channel; var h := Handled(n, w);
            && IsPartner(n, w, id, k) && MuxLink.Inv(Proj(n, w, id, Some(k)))
            && (h.2 != [] || h.0.end.maxRemotePayload > 0 ==> h.1 == k) && NoConfirm(h.2) && h.0.active
  {
    var p := Queue(n, Other(w))[0];
    var id := p.channel;
    assert PipeOk(n, Other(w)) && PacketOk(n, Other(w), p) && TableOk(n, w);
    FirstItem(Queue(n, Other(w)), id);
    if p.item.Confirm? {
      k := p.sender;
    } else {
      k := FarEnd(n, w, id);
    }
    assert Paired(n, w, id, Some(k));
    var l := Proj(n, w, id, Some(k));
    assert MuxLink.Inv(l) && l.ba != [] && l.ba[0] == p.item;
    hide ItemsFor, Wired, LinksOk, TableOk, PipeOk;
    OpenerReceives(l);
  }

  /** A link that is sent something has a far end. */
  lemma FarEnd(n: Net, w: bool, id: nat) returns (k: nat)
    requires Inv(n) && IsOpener(n, w, id) && ItemsFor(Queue(n, Other(w)), id) != []
    ensures IsPartner(n, w, id, k)
  {
    if forall j :: !IsPartner(n, w, id, j) {
      NoFarEnd(n, w, id);
    }
    k :| IsPartner(n, w, id, k);
  }

  lemma NoFarEnd(n: Net, w: bool, id: nat)
    requires Inv(n) && IsOpener(n, w, id) && forall j :: !IsPartner(n, w, id, j)
    ensures ItemsFor(Queue(n, Other(w)), id) == []
  {
    assert Paired(n, w, id, None) && MuxLink.Inv(Proj(n, w, id, None));
  }

  lemma FirstItem(q: seq<Packet>, id: nat)
    requires q != [] && q[0].For? && q[0].channel == id
    ensures ItemsFor(q, id) != [] && ItemsFor(q, id)[0] == q[0].item && ItemsFor(q, id)[1..] == ItemsFor(q[1..], id)
  {
  }

  /** What the opening end does with its first message. */
  lemma OpenerReceives(l: Link)
    requires MuxLink.Inv(l) && l.b.Some? && l.ba != []
    ensures var o := Receive(l.a, l.ba[0]);
            && NoConfirm(o.items)
            && (l.ba[0].Confirm? ==> o.items == [] && !l.a.removed)
            && (!l.ba[0].Confirm? ==> l.a.maxRemotePayload > 0)
  {
    Pop(l.ba);
    if l.a.maxRemotePayload == 0 {
      JoinedReceives();
    } else {
      assert !l.ba[0].Confirm?;
      assert l.a.maxRemotePayload == MAX_PACKET;
      ReceiveKeeps(l.a, l.ba[0]);
    }
  }

  /** A message for a channel that `w` accepted. */
  lemma ForAccepted(n: Net, w: bool)
    requires Inv(n) && Queue(n, Other(w)) != [] && Queue(n, Other(w))[0].For? && Queue(n, Other(w))[0].channel < |Chans(n, w)|
    requires !Chans(n, w)[Queue(n, Other(w))[0].channel].active
    ensures var id := Queue(n, Other(w))[0].channel; var h := Handled(n, w); var r := Chans(n, w)[id].remote;
            && IsOpener(n, Other(w), r) && IsPartner(n, Other(w), r, id) && MuxLink.Inv(Proj(n, Other(w), r, Some(id)))
            && !Queue(n, Other(w))[0].item.Confirm? && h.1 == r && NoConfirm(h.2) && h.0 == Chan(r, false, h.0.end)
  {
    var p := Queue(n, Other(w))[0];
    var id, r := p.channel, Chans(n, w)[p.channel].remote;
    assert TableOk(n, w);
    assert IsOpener(n, Other(w), r) && Paired(n, Other(w), r, Some(id));
    FirstItem(Queue(n, Other(w)), id);
    var l := Proj(n, Other(w), r, Some(id));
    assert MuxLink.Inv(l);
    hide ItemsFor, Wired, LinksOk, TableOk, PipeOk;
    AcceptedReceives(l);
  }

  lemma AcceptedReceives(l: Link)
    requires MuxLink.Inv(l) && l.b.Some? && l.ab != []
    ensures !l.ab[0].Confirm? && NoConfirm(Receive(l.b.value, l.ab[0]).items)
  {
    Pop(l.ab);
    ReceiveKeeps(l.b.value, l.ab[0]);
  }

  lemma HandleInv(n: Net, w: bool)
    requires Inv(n) && Queue(n, Other(w)) != [] && Queue(n, Other(w))[0].For? && Queue(n, Other(w))[0].channel < |Chans(n, w)|
    ensures Inv(Next(n, Receives(w)))
  {
    hide MuxLink.Inv, MuxLink.Next, Inv, Next, Handled, Wired;
    var n', id, h := Next(n, Receives(w)), Queue(n, Other(w))[0].channel, Handled(n, w);
    InvIsWired(n);
    HandleIs(n, w);
    if Chans(n, w)[id].active {
      var k := ForOpener(n, w);
      OpenerTurn(n, n', w, id, k);
    } else {
      ForAccepted(n, w);
      AcceptedTurn(n, n', w, id);
    }
    InvIs(n');
  }

  lemma OpenerTurn(n: Net, n': Net, w: bool, id: nat, k: nat)
    requires Inv(n) && Queue(n, Other(w)) != [] && Queue(n, Other(w))[0].For? && Queue(n, Other(w))[0].channel == id
    requires n' == Next(n, Receives(w)) && IsOpener(n, w, id) && IsPartner(n, w, id, k)
    requires var h := Handled(n, w);
             && (h.2 != [] || h.0.end.maxRemotePayload > 0 ==> h.1 == k) && NoConfirm(h.2) && h.0.active
    ensures Wired(n') && LinksOk(n')
  {
    var h := Handled(n, w);
    HandleIs(n, w);
    PacketsOfNone(h.1, k, h.2);
    hide MuxLink.Inv, MuxLink.Next, Next, Receive, ItemsFor, Packets, Wired;
    assert h.0.remote == h.1;
    assert Turn(n, n', w, id, k, h.2, true);
    TurnWired(n, n', w, id, k, h.2, true);
    TurnItems(n, n', w, id, k, h.2, true);
    OpenerSteps(n, n', w, id, k);
    TurnLinks(n, n', w, id, k, h.2, true, ToA);
  }

  lemma PacketsOfNone(r: nat, k: nat, items: seq<Item>)
    requires items != [] ==> r == k
    ensures Packets(r, items) == Packets(k, items)
  {
  }

  lemma OpenerSteps(n: Net, n': Net, w: bool, id: nat, k: nat)
    requires Queue(n, Other(w)) != [] && Queue(n, Other(w))[0].For? && Queue(n, Other(w))[0].channel == id
    requires id < |Chans(n, w)| && k < |Chans(n, Other(w))|
    requires Chans(n', w) == Chans(n, w)[id := Handled(n, w).0] && Chans(n', Other(w)) == Chans(n, Other(w))
    requires ItemsFor(Queue(n', w), k) == ItemsFor(Queue(n, w), k) + Handled(n, w).2
    requires ItemsFor(Queue(n, Other(w)), id) == [Queue(n, Other(w))[0].item] + ItemsFor(Queue(n', Other(w)), id)
    ensures var l := Proj(n, w, id, Some(k)); Can(l, ToA) && Proj(n', w, id, Some(k)) == MuxLink.Next(l, ToA)
  {
    hide ItemsFor, Receive;
  }

  lemma AcceptedTurn(n: Net, n': Net, w: bool, id: nat)
    requires Inv(n) && Queue(n, Other(w)) != [] && Queue(n, Other(w))[0].For? && Queue(n, Other(w))[0].channel == id
    requires n' == Next(n, Receives(w)) && id < |Chans(n, w)| && !Chans(n, w)[id].active
    requires var h := Handled(n, w); var r := Chans(n, w)[id].remote;
             && IsOpener(n, Other(w), r) && IsPartner(n, Other(w), r, id)
             && h.1 == r && NoConfirm(h.2) && h.0 == Chan(r, false, h.0.end)
    ensures Wired(n') && LinksOk(n')
  {
    var h := Handled(n, w);
    var r := Chans(n, w)[id].remote;
    HandleIs(n, w);
    hide MuxLink.Inv, MuxLink.Next, Next, Receive, ItemsFor, Packets, Wired;
    assert Turn(n, n', w, id, r, h.2, true);
    TurnWired(n, n', w, id, r, h.2, true);
    TurnItems(n, n', w, id, r, h.2, true);
    AcceptedSteps(n, n', w, id, r);
    TurnLinks(n, n', w, id, r, h.2, true, ToB);
  }

  lemma AcceptedSteps(n: Net, n': Net, w: bool, id: nat, r: nat)
    requires Queue(n, Other(w)) != [] && Queue(n, Other(w))[0].For? && Queue(n, Other(w))[0].channel == id
    requires id < |Chans(n, w)| && r < |Chans(n, Other(w))| && Other(Other(w)) == w
    requires Chans(n', w) == Chans(n, w)[id := Handled(n, w).0] && Chans(n', Other(w)) == Chans(n, Other(w))
    requires ItemsFor(Queue(n', w), r) == ItemsFor(Queue(n, w), r) + Handled(n, w).2
    requires ItemsFor(Queue(n, Other(w)), id) == [Queue(n, Other(w))[0].item] + ItemsFor(Queue(n', Other(w)), id)
    ensures var l := Proj(n, Other(w), r, Some(id)); Can(l, ToB) && Proj(n', Other(w), r, Some(id)) == MuxLink.Next(l, ToB)
  {
    hide ItemsFor, Receive;
  }

  // ----------------------------------------------------------------------------- whole runs

  lemma NextInvs(n: Net, m: Move)
    requires Inv(n) && Able(n, m)
    ensures Inv(Next(n, m))
  {
    hide Inv, Next;
    match m
    case OpenNew(w) => OpenInv(n, w);
    case Use(w, id, op) => UseInv(n, w, id, op);
    case Receives(w) =>
      var p := Queue(n, Other(w))[0];
      if p.Open? {
        AcceptInv(n, w, p.from);
      } else {
        KnownChannel(n, w);
        HandleInv(n, w);
      }
  }

  /** A message always finds its place in the table: `loop` never warns of an unknown id but for holes. */
  lemma KnownChannel(n: Net, w: bool)
    requires Inv(n) && Queue(n, Other(w)) != [] && Queue(n, Other(w))[0].For?
    ensures Queue(n, Other(w))[0].channel < |Chans(n, w)|
  {
    assert PipeOk(n, Other(w)) && PacketOk(n, Other(w), Queue(n, Other(w))[0]);
  }

  lemma {:induction false} RunInvs(n: Net, run: seq<Move>)
    requires Inv(n) && Legal(n, run)
    ensures Inv(After(n, run))
    decreases |run|
  {
    hide Inv, Next;
    if run != [] {
      NextInvs(n, run[0]);
      RunInvs(Next(n, run[0]), run[1..]);
    }
  }

  lemma StartInv()
    ensures Inv(Start())
  {
  }

  /** In every run of two sessions with any number of channels, a channel and its far end are two ends
      of one link that is in order: each far end belongs to one opener, the windows of both ends
      balance, no data is refused, and what one end reads is a prefix of what the other wrote. */
  lemma EveryChannelIsALink(run: seq<Move>, w: bool, i: nat, k: nat)
    requires Legal(Start(), run)
    requires var n := After(Start(), run); IsOpener(n, w, i) && IsPartner(n, w, i, k)
    ensures var n := After(Start(), run); var l := Proj(n, w, i, Some(k));
            && MuxLink.Inv(l)
            && (forall j :: IsPartner(n, w, i, j) ==> j == k)
            && !l.a.failed && !l.b.value.failed
            && Delivered(l.a, l.b.value) && Delivered(l.b.value, l.a)
  {
    hide Inv;
    StartInv();
    RunInvs(Start(), run);
    var n := After(Start(), run);
    ChannelIsALink(n, w, i, k);
  }

  lemma ChannelIsALink(n: Net, w: bool, i: nat, k: nat)
    requires Inv(n) && IsOpener(n, w, i) && IsPartner(n, w, i, k)
    ensures var l := Proj(n, w, i, Some(k));
            && MuxLink.Inv(l)
            && (forall j :: IsPartner(n, w, i, j) ==> j == k)
            && !l.a.failed && !l.b.value.failed
            && Delivered(l.a, l.b.value) && Delivered(l.b.value, l.a)
  {
    assert Paired(n, w, i, Some(k));
    forall j | IsPartner(n, w, i, j) ensures j == k {
      PartnerIsOne(n, w, i, Some(k), j);
    }
    var l := Proj(n, w, i, Some(k));
    assert MuxLink.Inv(l);
    hide Inv, LinksOk, Wired, Proj;
    DirDelivers(l.a, l.b.value, l.ab, l.ba);
    DirDelivers(l.b.value, l.a, l.ba, l.ab);
  }
  // ------------------------------------------------------------------------------ opening

  /** An opened channel has its far end, or its Open is on the way. */
  ghost predicate Announced(n: Net) {
    forall w: bool, i: nat :: IsOpener(n, w, i) ==> Open(i) in Queue(n, w) || exists j :: IsPartner(n, w, i, j)
  }

  lemma AnnouncedNext(n: Net, m: Move)
    requires Inv(n) && Announced(n) && Able(n, m)
    ensures Announced(Next(n, m))
  {
    InvIsWired(n);
    hide Inv, MuxLink.Inv, LinksOk, TableOk, ItemsFor, Announced, Perform, Receive, Enabled;
    match m
    case OpenNew(w) => AnnouncedOpen(n, w);
    case Use(w, id, op) => AnnouncedUse(n, w, id, op);
    case Receives(w) =>
      if Queue(n, Other(w))[0].Open? {
        AnnouncedAccept(n, w, Queue(n, Other(w))[0].from);
      } else {
        AnnouncedHandle(n, w);
      }
  }

  lemma AnnouncedOpen(n: Net, w: bool)
    requires Announced(n)
    ensures Announced(Next(n, OpenNew(w)))
  {
    var n' := Next(n, OpenNew(w));
    forall v: bool, i: nat | IsOpener(n', v, i) ensures Open(i) in Queue(n', v) || exists j :: IsPartner(n', v, i, j) {
      if IsOpener(n, v, i) {
        if j :| IsPartner(n, v, i, j) {
          assert IsPartner(n', v, i, j);
        }
      }
    }
  }

  lemma AnnouncedUse(n: Net, w: bool, id: nat, op: Op)
    requires Announced(n) && Able(n, Use(w, id, op))
    ensures Announced(Next(n, Use(w, id, op)))
  {
    hide Perform, Enabled, Packets;
    var n' := Next(n, Use(w, id, op));
    forall v: bool, i: nat | IsOpener(n', v, i) ensures Open(i) in Queue(n', v) || exists j :: IsPartner(n', v, i, j) {
      assert IsOpener(n, v, i);
      if j :| IsPartner(n, v, i, j) {
        assert IsPartner(n', v, i, j);
      }
    }
  }

  lemma AnnouncedAccept(n: Net, w: bool, from: nat)
    requires Announced(n) && Queue(n, Other(w)) != [] && Queue(n, Other(w))[0] == Open(from)
    ensures Announced(Next(n, Receives(w)))
  {
    var n' := Next(n, Receives(w));
    assert IsPartner(n', Other(w), from, |Chans(n, w)|);
    forall v: bool, i: nat | IsOpener(n', v, i) ensures Open(i) in Queue(n', v) || exists j :: IsPartner(n', v, i, j) {
      assert IsOpener(n, v, i);
      if j :| IsPartner(n, v, i, j) {
        assert IsPartner(n', v, i, j);
      } else if v == Other(w) && i != from {
        assert Queue(n, v) == [Open(from)] + Queue(n', v);
      }
    }
  }

  lemma AnnouncedHandle(n: Net, w: bool)
    requires Wired(n) && Announced(n) && Queue(n, Other(w)) != [] && Queue(n, Other(w))[0].For?
    ensures Announced(Next(n, Receives(w)))
  {
    hide Receive, Packets, TableOk;
    var n', p := Next(n, Receives(w)), Queue(n, Other(w))[0];
    assert PipeOk(n, Other(w)) && PacketOk(n, Other(w), p);
    forall v: bool, i: nat | IsOpener(n', v, i) ensures Open(i) in Queue(n', v) || exists j :: IsPartner(n', v, i, j) {
      assert IsOpener(n, v, i);
      if j :| IsPartner(n, v, i, j) {
        assert IsPartner(n', v, i, j);
      } else if v == Other(w) {
        assert Queue(n, v) == [p] + Queue(n', v);
      }
    }
  }

  lemma {:induction false} RunAnnounced(n: Net, run: seq<Move>)
    requires Inv(n) && Announced(n) && Legal(n, run)
    ensures Announced(After(n, run))
    decreases |run|
  {
    hide Inv, Announced, Next;
    if run != [] {
      NextInvs(n, run[0]);
      AnnouncedNext(n, run[0]);
      RunAnnounced(Next(n, run[0]), run[1..]);
    }
  }

  /** In every run, when both pipes are empty, every channel that was opened is connected: the opener knows the
      place of its far end, the far end that of its opener, both may send packets of the same size. */
  lemma EveryOpenIsAnswered(run: seq<Move>, w: bool, i: nat)
    requires Legal(Start(), run)
    requires var n := After(Start(), run); i < |Chans(n, w)| && Chans(n, w)[i].active && Queue(n, w) == Queue(n, Other(w)) == []
    ensures var n := After(Start(), run); var j := Chans(n, w)[i].remote;
            && j < |Chans(n, Other(w))| && !Chans(n, Other(w))[j].active && Chans(n, Other(w))[j].remote == i
            && Chans(n, w)[i].end.maxRemotePayload == Chans(n, Other(w))[j].end.maxRemotePayload == 0x100_0000
            && forall k :: 0 <= k < |Chans(n, Other(w))| && !Chans(n, Other(w))[k].active && Chans(n, Other(w))[k].remote == i ==> k == j
  {
    hide Inv, Announced, LinksOk;
    StartInv();
    assert Announced(Start()) by { StartAnnounced(); }
    RunInvs(Start(), run);
    RunAnnounced(Start(), run);
    var n := After(Start(), run);
    hide After, Legal, MuxLink.Inv;
    Connected(n, w, i);
    forall k | 0 <= k < |Chans(n, Other(w))| && !Chans(n, Other(w))[k].active && Chans(n, Other(w))[k].remote == i
      ensures k == Chans(n, w)[i].remote
    {
      assert IsPartner(n, w, i, k);
    }
  }

  lemma StartAnnounced()
    ensures Announced(Start())
  {
  }

  lemma Connected(n: Net, w: bool, i: nat)
    requires Inv(n) && Announced(n) && IsOpener(n, w, i) && Queue(n, w) == Queue(n, Other(w)) == []
    ensures IsPartner(n, w, i, Chans(n, w)[i].remote)
    ensures var j := Chans(n, w)[i].remote;
            && Chans(n, w)[i].end.maxRemotePayload == Chans(n, Other(w))[j].end.maxRemotePayload == 0x100_0000
            && forall k :: IsPartner(n, w, i, k) ==> k == j
  {
    assert Open(i) !in Queue(n, w);
    var j :| IsPartner(n, w, i, j);
    assert Paired(n, w, i, Some(j));
    var l := Proj(n, w, i, Some(j));
    assert MuxLink.Inv(l) && l.ba == [];
    assert TableOk(n, w) && Chans(n, w)[i].end.maxRemotePayload > 0;
    forall k | IsPartner(n, w, i, k) ensures k == j {
      PartnerIsOne(n, w, i, Some(j), k);
    }
  }
}
