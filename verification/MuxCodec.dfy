/** The multiplexer's wire format and the transport it is read from. */
module MuxCodec {
  import opened Utf16
  import opened Cbor
  import opened CborRoundTrip
  import opened Numbers

  datatype Msg =
    | Open(senderID: nat, windowSize: nat, maxPacketSize: nat)
    | OpenConfirm(channelID: nat, senderID: nat, windowSize: nat, maxPacketSize: nat)
    | OpenFailure(channelID: nat)
    | WindowAdjust(channelID: nat, additionalBytes: nat)
    | Data(channelID: nat, length: nat, data: seq<byte>)
    | Eof(channelID: nat)
    | Close(channelID: nat)

  const U32MAX: nat := 0x1_0000_0000

  /** `DataView.setUint32`, which keeps the low 32 bits. */
  function PutU32(n: nat): (bs: seq<byte>)
    ensures |bs| == 4
  { BE32(n % U32MAX) }

  /** Copying the payload into a zero-filled array of the announced length. */
  function Padded(data: seq<byte>, length: nat): (bs: seq<byte>)
    requires |data| <= length
    ensures |bs| == length
  { data + seq(length - |data|, _ => 0) }

  /** `Marshal` throws when the payload is longer than the announced length; lengths beyond 32 bits
      are more than a typed array can hold. */
  predicate Marshals(m: Msg) {
    m.Data? ==> |m.data| <= m.length < U32MAX
  }

  function Marshal(m: Msg): (bs: seq<byte>)
    requires Marshals(m)
    ensures bs != []
  {
    match m
    case Open(s, w, p) => [100] + PutU32(s) + PutU32(w) + PutU32(p)
    case OpenConfirm(c, s, w, p) => [101] + PutU32(c) + PutU32(s) + PutU32(w) + PutU32(p)
    case OpenFailure(c) => [102] + PutU32(c)
    case WindowAdjust(c, n) => [103] + PutU32(c) + PutU32(n)
    case Data(c, n, d) => [104] + PutU32(c) + PutU32(n) + Padded(d, n)
    case Eof(c) => [105] + PutU32(c)
    case Close(c) => [106] + PutU32(c)
  }

  /** Payload size by message type; `None` for an unknown type. */
  datatype Option<T> = None | Some(value: T)

  function PayloadSize(id: int): (r: Option<nat>)
    ensures r.Some? <==> 100 <= id <= 106
  {
    match id
    case 100 => Some(12)
    case 101 => Some(16)
    case 102 => Some(4)
    case 103 => Some(8)
    case 104 => Some(8)
    case 105 => Some(4)
    case 106 => Some(4)
    case _ => None
  }

  function GetU32(p: seq<byte>, at: nat): nat
    requires at + 4 <= |p|
  { U32(p[at..]) }

  /** `Unmarshal` of a packet long enough for its type. */
  function Unmarshal(p: seq<byte>): Msg
    requires p != [] && PayloadSize(p[0]).Some? && |p| >= 1 + PayloadSize(p[0]).value
  {
    var id: int := p[0];
    if id == 100 then Open(GetU32(p, 1), GetU32(p, 5), GetU32(p, 9))
    else if id == 101 then OpenConfirm(GetU32(p, 1), GetU32(p, 5), GetU32(p, 9), GetU32(p, 13))
    else if id == 102 then OpenFailure(GetU32(p, 1))
    else if id == 103 then WindowAdjust(GetU32(p, 1), GetU32(p, 5))
    else if id == 104 then Data(GetU32(p, 1), GetU32(p, 5), p[9..])
    else if id == 105 then Eof(GetU32(p, 1))
    else Close(GetU32(p, 1))
  }

  /** Every field fits in 32 bits and a payload has its announced length. */
  predicate Fits(m: Msg) {
    match m
    case Open(s, w, p) => s < U32MAX && w < U32MAX && p < U32MAX
    case OpenConfirm(c, s, w, p) => c < U32MAX && s < U32MAX && w < U32MAX && p < U32MAX
    case WindowAdjust(c, n) => c < U32MAX && n < U32MAX
    case Data(c, n, d) => c < U32MAX && |d| == n
    case _ => m.channelID < U32MAX
  }

  lemma FieldBack(pre: seq<byte>, n: nat, post: seq<byte>)
    ensures |pre + PutU32(n) + post| >= |pre| + 4
    ensures GetU32(pre + PutU32(n) + post, |pre|) == n % U32MAX
  {
    var p := pre + PutU32(n) + post;
    assert p[|pre|..] == PutU32(n) + post;
    BE32Back(n % U32MAX, post);
  }

  /** One field at `at` of a packet laid out in pieces. */
  lemma FieldAt(p: seq<byte>, pre: seq<byte>, n: nat, post: seq<byte>)
    requires p == pre + (PutU32(n) + post)
    ensures |p| >= |pre| + 4 && GetU32(p, |pre|) == n % U32MAX
  {
    assert p == pre + PutU32(n) + post;
    FieldBack(pre, n, post);
  }

  lemma OneField(id: byte, a: nat)
    ensures var p := [id] + PutU32(a); GetU32(p, 1) == a % U32MAX
  {
    hide PutU32, GetU32;
    assert [id] + PutU32(a) == [id] + (PutU32(a) + []);
    FieldAt([id] + PutU32(a), [id], a, []);
  }

  lemma TwoFields(id: byte, a: nat, b: nat, post: seq<byte>)
    ensures var p := [id] + PutU32(a) + PutU32(b) + post;
            GetU32(p, 1) == a % U32MAX && GetU32(p, 5) == b % U32MAX && p[9..] == post
  {
    hide GetU32, PutU32;
    var p := [id] + PutU32(a) + PutU32(b) + post;
    assert p == [id] + (PutU32(a) + (PutU32(b) + post));
    FieldAt(p, [id], a, PutU32(b) + post);
    assert p == ([id] + PutU32(a)) + (PutU32(b) + post);
    FieldAt(p, [id] + PutU32(a), b, post);
  }

  lemma FourFields(id: byte, a: nat, b: nat, c: nat, d: seq<byte>)
    ensures var p := [id] + PutU32(a) + PutU32(b) + PutU32(c) + d;
            GetU32(p, 1) == a % U32MAX && GetU32(p, 5) == b % U32MAX && GetU32(p, 9) == c % U32MAX
            && p[13..] == d
  {
    hide GetU32, PutU32;
    var p := [id] + PutU32(a) + PutU32(b) + PutU32(c) + d;
    TwoFields(id, a, b, PutU32(c) + d);
    assert p == [id] + PutU32(a) + PutU32(b) + (PutU32(c) + d);
    FieldAt(p, [id] + PutU32(a) + PutU32(b), c, d);
  }

  lemma LastField(p: seq<byte>, n: nat)
    requires |p| == 17 && p[13..] == PutU32(n)
    ensures GetU32(p, 13) == n % U32MAX
  {
    BE32Back(n % U32MAX, []);
    assert p[13..] == BE32(n % U32MAX) + [];
  }

  /** A message that marshals comes back unchanged iff its fields fit. */
  lemma MarshalRoundTrip(m: Msg)
    requires Marshals(m)
    ensures var p := Marshal(m);
            && PayloadSize(p[0]).Some? && |p| >= 1 + PayloadSize(p[0]).value
            && (Unmarshal(p) == m <==> Fits(m))
  {
    hide GetU32, PutU32;
    match m
    case Open(s, w, p) =>
      FourFields(100, s, w, p, []);
      assert Marshal(m) == Marshal(m) + [];
    case OpenConfirm(c, s, w, p) =>
      FourFields(101, c, s, w, PutU32(p));
      LastField(Marshal(m), p);
    case WindowAdjust(c, n) =>
      TwoFields(103, c, n, []);
      assert Marshal(m) == Marshal(m) + [];
    case Data(c, n, d) =>
      TwoFields(104, c, n, Padded(d, n));
      assert |d| == n ==> Padded(d, n) == d;
    case _ =>
      OneField(Marshal(m)[0], m.channelID);
  }

  // ------------------------------------------------------------------- the bytes of a message

  /** Four bytes at `at` are a number, the most significant byte first. */
  predicate Holds(p: seq<byte>, at: nat, n: nat) {
    |p| >= at + 4 && BigEndian(p[at..at + 4]) == n % U32MAX
  }

  /** The type byte, then the fields in order in four bytes each, and for data the bytes, filled up with zeros. */
  lemma WireFormat(m: Msg)
    requires Marshals(m)
    ensures var p := Marshal(m);
            match m
            case Open(s, w, x) => p[0] == 100 && |p| == 13 && Holds(p, 1, s) && Holds(p, 5, w) && Holds(p, 9, x)
            case OpenConfirm(c, s, w, x) =>
              p[0] == 101 && |p| == 17 && Holds(p, 1, c) && Holds(p, 5, s) && Holds(p, 9, w) && Holds(p, 13, x)
            case OpenFailure(c) => p[0] == 102 && |p| == 5 && Holds(p, 1, c)
            case WindowAdjust(c, n) => p[0] == 103 && |p| == 9 && Holds(p, 1, c) && Holds(p, 5, n)
            case Data(c, n, d) =>
              && p[0] == 104 && |p| == 9 + n && Holds(p, 1, c) && Holds(p, 5, n) && p[9..9 + |d|] == d
              && forall i :: 9 + |d| <= i < |p| ==> p[i] == 0
            case Eof(c) => p[0] == 105 && |p| == 5 && Holds(p, 1, c)
            case Close(c) => p[0] == 106 && |p| == 5 && Holds(p, 1, c)
  {
    hide PutU32, BigEndian;
    match m
    case Open(s, w, x) =>
      InPieces([100], s, PutU32(w) + PutU32(x), Marshal(m));
      InPieces([100] + PutU32(s), w, PutU32(x), Marshal(m));
      InPieces([100] + PutU32(s) + PutU32(w), x, [], Marshal(m));
    case OpenConfirm(c, s, w, x) =>
      InPieces([101], c, PutU32(s) + PutU32(w) + PutU32(x), Marshal(m));
      InPieces([101] + PutU32(c), s, PutU32(w) + PutU32(x), Marshal(m));
      InPieces([101] + PutU32(c) + PutU32(s), w, PutU32(x), Marshal(m));
      InPieces([101] + PutU32(c) + PutU32(s) + PutU32(w), x, [], Marshal(m));
    case WindowAdjust(c, n) =>
      InPieces([103], c, PutU32(n), Marshal(m));
      InPieces([103] + PutU32(c), n, [], Marshal(m));
    case Data(c, n, d) => DataFormat(c, n, d);
    case _ =>
      InPieces([Marshal(m)[0]], m.channelID, [], Marshal(m));
  }

  lemma DataFormat(c: nat, n: nat, d: seq<byte>)
    requires |d| <= n < U32MAX
    ensures var p := Marshal(Data(c, n, d));
            && p[0] == 104 && |p| == 9 + n && Holds(p, 1, c) && Holds(p, 5, n) && p[9..9 + |d|] == d
            && forall i :: 9 + |d| <= i < |p| ==> p[i] == 0
  {
    var p := Marshal(Data(c, n, d));
    InPieces([104], c, PutU32(n) + Padded(d, n), p);
    InPieces([104] + PutU32(c), n, Padded(d, n), p);
    hide PutU32, BigEndian;
    assert p[9..] == Padded(d, n) && p[9..9 + |d|] == Padded(d, n)[..|d|];
    assert forall i :: 9 <= i < |p| ==> p[i] == p[9..][i - 9];
  }

  lemma InPieces(pre: seq<byte>, n: nat, post: seq<byte>, p: seq<byte>)
    requires p == pre + PutU32(n) + post
    ensures Holds(p, |pre|, n)
  {
    PutU32Is(n);
    assert p[|pre|..|pre| + 4] == PutU32(n);
  }

  lemma PutU32Is(n: nat)
    ensures BigEndian(PutU32(n)) == n % U32MAX
  {
    var k := n % U32MAX;
    BigEndian4(PutU32(n));
    assert k == 0x1_0000 * (k / 0x1_0000) + k % 0x1_0000;
    BE16Is(k / 0x1_0000);
    BE16Is(k % 0x1_0000);
  }

  lemma BE16Is(n: int)
    requires 0 <= n < 0x1_0000
    ensures var hi: int, lo: int := BE16(n)[0], BE16(n)[1]; 256 * hi + lo == n
  {
  }

  /** A packet has the length its type and, for data, its announced length call for. */
  predicate Framed(p: seq<byte>) {
    && p != [] && PayloadSize(p[0]).Some? && |p| >= 1 + PayloadSize(p[0]).value
    && |p| == 1 + PayloadSize(p[0]).value + if p[0] == 104 then BigEndian(p[5..9]) else 0
  }

  /** Such a packet is the bytes of the message read from it. */
  lemma UnmarshalRoundTrip(p: seq<byte>)
    requires Framed(p)
    ensures Marshals(Unmarshal(p)) && Marshal(Unmarshal(p)) == p
  {
    Unput(p, 1);
    if |p| >= 9 { Unput(p, 5); }
    if |p| >= 13 { Unput(p, 9); }
    if |p| >= 17 { Unput(p, 13); }
    Pieces(p);
    hide PutU32, GetU32, BigEndian;
    if p[0] == 104 {
      assert Padded(p[9..], |p| - 9) == p[9..];
    } else if p[0] == 100 || p[0] == 101 {
      LongBack(p);
    } else {
      ShortBack(p);
    }
  }

  lemma LongBack(p: seq<byte>)
    requires p != [] && (p[0] == 100 || p[0] == 101) && |p| == (if p[0] == 100 then 13 else 17)
    requires PutU32(GetU32(p, 1)) == p[1..5] && PutU32(GetU32(p, 5)) == p[5..9] && PutU32(GetU32(p, 9)) == p[9..13]
    requires p[0] == 101 ==> PutU32(GetU32(p, 13)) == p[13..17]
    ensures Marshal(Unmarshal(p)) == p
  {
    Pieces(p);
    hide PutU32, GetU32;
  }

  lemma ShortBack(p: seq<byte>)
    requires p != [] && p[0] in [102, 103, 105, 106] && |p| == (if p[0] == 103 then 9 else 5)
    requires PutU32(GetU32(p, 1)) == p[1..5] && (p[0] == 103 ==> PutU32(GetU32(p, 5)) == p[5..9])
    ensures Marshal(Unmarshal(p)) == p
  {
    Pieces(p);
    hide PutU32, GetU32;
  }

  /** Four bytes read as a number and written again. */
  lemma Unput(p: seq<byte>, at: nat)
    requires at + 4 <= |p|
    ensures PutU32(GetU32(p, at)) == p[at..at + 4]
    ensures GetU32(p, at) == BigEndian(p[at..at + 4]) < U32MAX
  {
    hide U32, BE32, BigEndian;
    var s := p[at..];
    assert s[..4] == p[at..at + 4];
    Halves(s);
    Value(s);
  }

  lemma Value(s: seq<byte>)
    requires |s| >= 4
    ensures U32(s) == BigEndian(s[..4])
  {
    BigEndian4(s[..4]);
  }

  lemma Halves(s: seq<byte>)
    requires |s| >= 4
    ensures BE32(U32(s)) == s[..4]
  {
    var hi, lo := U16(s), U16(s[2..]);
    TwoBytesBack(s[0], s[1]);
    TwoBytesBack(s[2], s[3]);
    hide U16, BE16;
    assert U32(s) / 0x1_0000 == hi && U32(s) % 0x1_0000 == lo;
    assert s[..4] == [s[0], s[1]] + [s[2], s[3]];
  }

  lemma TwoBytesBack(hi: byte, lo: byte)
    ensures U16([hi, lo]) == var a: int, b: int := hi, lo; a * 256 + b
    ensures BE16(U16([hi, lo])) == [hi, lo]
    ensures forall s: seq<byte> :: |s| >= 2 && s[0] == hi && s[1] == lo ==> U16(s) == U16([hi, lo])
  {
  }

  lemma Pieces(p: seq<byte>)
    requires p != []
    ensures |p| == 5 ==> p == [p[0]] + p[1..5]
    ensures |p| == 9 ==> p == [p[0]] + p[1..5] + p[5..9]
    ensures |p| == 13 ==> p == [p[0]] + p[1..5] + p[5..9] + p[9..13]
    ensures |p| == 17 ==> p == [p[0]] + p[1..5] + p[5..9] + p[9..13] + p[13..17]
    ensures |p| >= 9 ==> p == [p[0]] + p[1..5] + p[5..9] + p[9..]
  {
  }

  // ------------------------------------------------------------------------- the transport

  function Flat(chunks: seq<seq<byte>>): seq<byte> {
    if chunks == [] then [] else chunks[0] + Flat(chunks[1..])
  }

  function Wire(ms: seq<Msg>): seq<seq<byte>>
    requires forall m :: m in ms ==> Marshals(m)
  {
    if ms == [] then [] else [Marshal(ms[0])] + Wire(ms[1..])
  }

  datatype Packet = Blocked | Bad | Got(packet: seq<byte>)

  lemma MovedOver(data: seq<byte>, chunk: seq<byte>, k: nat, rest: seq<byte>)
    requires k <= |chunk|
    ensures data + (chunk + rest) == (data + chunk[..k]) + (chunk[k..] + rest)
  {
  }

  /** A message port as a byte stream: what was posted and not read yet, in order. */
  class Conn {
    var chunks: seq<seq<byte>>

    constructor ()
      ensures chunks == []
    {
      chunks := [];
    }

    /** The port's `onmessage`. */
    method Arrive(chunk: seq<byte>)
      modifies this
      ensures chunks == old(chunks) + [chunk]
    {
      chunks := chunks + [chunk];
    }

    /** Up to `n` bytes; waits only while nothing at all has arrived. */
    method Read(n: nat) returns (data: seq<byte>)
      requires chunks != []
      modifies this
      ensures var all := Flat(old(chunks));
              var k := if n <= |all| then n else |all|;
              data == all[..k] && Flat(chunks) == all[k..]
      ensures old(|chunks[0]|) >= n > 0 ==>
                data == old(chunks[0])[..n] &&
                chunks == (if old(|chunks[0]|) > n then [old(chunks[0])[n..]] else []) + old(chunks)[1..]
    {
      data := [];
      ghost var all := Flat(chunks);
      while |data| < n
        invariant |data| <= n && data + Flat(chunks) == all
        invariant data == [] ==> chunks == old(chunks) || |old(chunks[0])| == 0
        invariant old(|chunks[0]|) >= n > 0 ==>
                    (data == [] && chunks == old(chunks)) ||
                    (data == old(chunks[0])[..n] &&
                     chunks == (if old(|chunks[0]|) > n then [old(chunks[0])[n..]] else []) + old(chunks)[1..])
        decreases n - |data|, |chunks|
      {
        if chunks == [] {
          break;
        }
        var chunk := chunks[0];
        chunks := chunks[1..];
        var k := if |chunk| <= n - |data| then |chunk| else n - |data|;
        var buf := chunk[..k];
        MovedOver(data, chunk, k, Flat(chunks));
        data := data + buf;
        if |chunk| > k {
          chunks := [chunk[k..]] + chunks;
          assert chunks[1..] == chunks[1..];
        } else {
          assert chunk[k..] + Flat(chunks) == Flat(chunks);
        }
      }
      assert all == data + Flat(chunks);
    }
  }

  /** Length of the message at the front of `all`, if all of it has arrived. */
  function MessageLength(all: seq<byte>): (r: Option<nat>)
    ensures r.Some? ==> 1 <= r.value <= |all| && PayloadSize(all[0]).Some? && r.value >= 1 + PayloadSize(all[0]).value
  {
    if all == [] || PayloadSize(all[0]).None? || |all| < 1 + PayloadSize(all[0]).value then None
    else
      var fixed := 1 + PayloadSize(all[0]).value;
      var length := fixed + if all[0] == 104 then GetU32(all, 5) else 0;
      if |all| < length then None else Some(length)
  }

  /** `readPacket`: type byte, then the fixed part in one read, then data in as many reads as it
      takes.  When a whole message has arrived, however it was cut into chunks, exactly that message
      is returned and exactly its bytes are gone.  When only some of the fixed part has arrived the read
      does not wait for the rest: zeros stand for it. */
  method ReadPacket(c: Conn) returns (r: Packet)
    modifies c
    ensures old(c.chunks) == [] ==> r == Blocked && c.chunks == []
    ensures var all := Flat(old(c.chunks));
            all != [] && PayloadSize(all[0]).None? ==> r == Bad
    ensures var all := Flat(old(c.chunks));
            MessageLength(all).Some? ==>
              r == Got(all[..MessageLength(all).value]) && Flat(c.chunks) == all[MessageLength(all).value..]
    ensures var all := Flat(old(c.chunks));
            1 < |all| && PayloadSize(all[0]).Some? && |all| < 1 + PayloadSize(all[0]).value && all[0] != 104 ==>
              r == Got(Padded(all, 1 + PayloadSize(all[0]).value)) && Flat(c.chunks) == []
  {
    hide GetU32;
    ghost var all := Flat(c.chunks);
    r := ReadFixed(c);
    if !r.Got? || r.packet[0] != 104 { return; }
    var packet := r.packet;
    ghost var whole := MessageLength(all).Some?;
    if whole {
      SameU32(all, packet);
    }
    var datasize := GetU32(packet, 5);
    var data := ReadBody(c, datasize);
    if data.None? { return Blocked; }
    if whole {
      assert packet + data.value == all[..9 + datasize] && all[9..][datasize..] == all[9 + datasize..];
    }
    r := Got(packet + data.value);
  }

  /** Type byte and fixed part. */
  method ReadFixed(c: Conn) returns (r: Packet)
    modifies c
    ensures old(c.chunks) == [] ==> r == Blocked && c.chunks == []
    ensures r.Got? ==> r.packet != [] && PayloadSize(r.packet[0]).Some? && |r.packet| == 1 + PayloadSize(r.packet[0]).value
    ensures var all := Flat(old(c.chunks));
            all != [] && PayloadSize(all[0]).None? ==> r == Bad
    ensures var all := Flat(old(c.chunks));
            all != [] && PayloadSize(all[0]).Some? && |all| >= 1 + PayloadSize(all[0]).value ==>
              var n := 1 + PayloadSize(all[0]).value; r == Got(all[..n]) && Flat(c.chunks) == all[n..]
    ensures var all := Flat(old(c.chunks));
            1 < |all| && PayloadSize(all[0]).Some? && |all| < 1 + PayloadSize(all[0]).value ==>
              r == Got(Padded(all, 1 + PayloadSize(all[0]).value)) && Flat(c.chunks) == []
  {
    if c.chunks == [] { return Blocked; }
    hide PayloadSize, Flat;
    NothingFlat();
    ghost var all := Flat(c.chunks);
    var head := c.Read(1);
    if |head| < 1 { return Bad; }
    assert head == all[..1] && head[0] == all[0];
    var size := PayloadSize(head[0]);
    if size.None? { return Bad; }
    if c.chunks == [] { return Blocked; }
    ghost var left := Flat(c.chunks);
    var got := c.Read(size.value);
    if |left| < size.value {
      assert got == left;
      PaddedHead(head, got, size.value);
      assert head + left == all;
    } else {
      FrontOf(all, head, left, size.value);
      assert Padded(got, size.value) == got;
    }
    r := Got(head + Padded(got, size.value));
  }

  /** The data of a data packet, in as many reads as it takes. */
  method ReadBody(c: Conn, datasize: nat) returns (r: Option<seq<byte>>)
    modifies c
    ensures var all := Flat(old(c.chunks));
            datasize <= |all| ==> r == Some(all[..datasize]) && Flat(c.chunks) == all[datasize..]
  {
    hide Flat;
    ghost var all := Flat(c.chunks);
    var data: seq<byte> := [];
    assert data + all == all;
    while |data| < datasize
      invariant |data| <= datasize
      invariant all == data + Flat(c.chunks)
    {
      if c.chunks == [] {
        NothingFlat();
        return None;
      }
      ghost var left := Flat(c.chunks);
      var chunk := c.Read(datasize - |data|);
      if chunk == [] { return None; }
      assert left == chunk + Flat(c.chunks);
      assert data + (chunk + Flat(c.chunks)) == (data + chunk) + Flat(c.chunks);
      data := data + chunk;
    }
    r := Some(data);
  }

  lemma SameU32(all: seq<byte>, rest: seq<byte>)
    requires |all| >= 9 && rest == all[..9]
    ensures GetU32(all, 5) == GetU32(rest, 5)
  {
    var a, b := all[5..], rest[5..];
    assert a[0] == b[0] && a[1] == b[1] && a[2] == b[2] && a[3] == b[3];
  }

  /** The message at the front of the wire is the one that was marshalled first. */
  lemma FrontMessage(m: Msg, more: seq<byte>)
    requires Marshals(m)
    ensures MessageLength(Marshal(m) + more) == Some(|Marshal(m)|)
  {
    var p := Marshal(m);
    var all := p + more;
    assert all[0] == p[0];
    if m.Data? {
      DataLength(m.channelID, m.length, Padded(m.data, m.length), more);
    }
  }

  lemma DataLength(c: nat, n: nat, body: seq<byte>, more: seq<byte>)
    requires n < U32MAX
    ensures GetU32([104] + PutU32(c) + PutU32(n) + body + more, 5) == n
  {
    hide GetU32, PutU32;
    assert [104] + PutU32(c) + PutU32(n) + body + more == [104] + PutU32(c) + PutU32(n) + (body + more);
    TwoFields(104, c, n, body + more);
  }

  /** `decode`: one packet, unmarshalled. */
  method Decode(c: Conn, ghost m: Msg, ghost more: seq<byte>) returns (got: Msg)
    requires Marshals(m) && Fits(m) && Flat(c.chunks) == Marshal(m) + more
    modifies c
    ensures got == m && Flat(c.chunks) == more
  {
    FrontMessage(m, more);
    MarshalRoundTrip(m);
    hide MessageLength, Marshal, Fits, Unmarshal;
    ghost var p := Marshal(m);
    assert (p + more)[..|p|] == p && (p + more)[|p|..] == more;
    var r := ReadPacket(c);
    got := Unmarshal(r.packet);
  }

  /** Any sequence of messages put on the wire, and cut into chunks in any way, is read back as
      exactly that sequence when every field fits. */
  method DecodeAll(c: Conn, ghost ms: seq<Msg>, count: nat) returns (got: seq<Msg>)
    requires count == |ms| && forall m :: m in ms ==> Marshals(m) && Fits(m)
    requires Flat(c.chunks) == Flat(Wire(ms))
    modifies c
    ensures got == ms && Flat(c.chunks) == []
  {
    hide Marshal, Fits, Wire, Marshals;
    got := [];
    var i := 0;
    while i < count
      invariant 0 <= i <= count && got == ms[..i] && Flat(c.chunks) == Flat(Wire(ms[i..]))
    {
      assert ms[i..][1..] == ms[i + 1..];
      WireStep(ms[i..]);
      var m := Decode(c, ms[i], Flat(Wire(ms[i + 1..])));
      got := got + [m];
      i := i + 1;
    }
    assert ms[i..] == [] && ms[..i] == ms;
    NoWire();
  }

  /** A message of which only a front has arrived when it is read is read right exactly if what is missing
      is zeros. */
  method ReadTooSoon(m: Msg, k: nat) returns (r: Packet)
    requires Marshals(m) && !m.Data? && 1 < k < |Marshal(m)|
    ensures r.Got? && |r.packet| == |Marshal(m)|
    ensures r == Got(Marshal(m)) <==> forall i :: k <= i < |Marshal(m)| ==> Marshal(m)[i] == 0
  {
    var p := Marshal(m);
    FrontMessage(m, []);
    assert p + [] == p;
    var c := new Conn();
    c.Arrive(p[..k]);
    assert Flat([p[..k]]) == p[..k] + Flat([]) && p[..k] + [] == p[..k] && [] + [p[..k]] == [p[..k]];
    r := ReadPacket(c);
    assert Padded(p[..k], |p|) == p <==> forall i :: k <= i < |p| ==> p[i] == 0;
  }

  /** Messages come one chunk each, as they are posted, while others are read: in any order of the two, what
      was read is the front of what was sent, and what is left is the rest. */
  method DecodeArriving(ms: seq<Msg>, turns: seq<bool>) returns (got: seq<Msg>, arrived: nat, c: Conn)
    requires forall m :: m in ms ==> Marshals(m) && Fits(m)
    ensures |got| <= arrived <= |ms| && got == ms[..|got|]
    ensures Flat(c.chunks) == Flat(Wire(ms[|got|..arrived]))
  {
    hide Marshal, Fits, Wire, Marshals;
    c := new Conn();
    got, arrived := [], 0;
    NoWire();
    assert ms[0..0] == [];
    for t := 0 to |turns|
      invariant |got| <= arrived <= |ms| && got == ms[..|got|] && fresh(c)
      invariant Flat(c.chunks) == Flat(Wire(ms[|got|..arrived]))
    {
      if turns[t] && arrived < |ms| {
        assert ms[|got|..arrived + 1] == ms[|got|..arrived] + [ms[arrived]];
        WireGrows(ms[|got|..arrived], ms[arrived]);
        FlatGrows(c.chunks, Marshal(ms[arrived]));
        c.Arrive(Marshal(ms[arrived]));
        arrived := arrived + 1;
      } else if !turns[t] && |got| < arrived {
        ghost var left := ms[|got|..arrived];
        assert left[0] == ms[|got|] && left[1..] == ms[|got| + 1..arrived];
        WireStep(left);
        var m := Decode(c, ms[|got|], Flat(Wire(left[1..])));
        got := got + [m];
      }
    }
  }

  lemma {:induction false} FlatGrows(chunks: seq<seq<byte>>, x: seq<byte>)
    ensures Flat(chunks + [x]) == Flat(chunks) + x
  {
    if chunks == [] {
      assert [] + [x] == [x] && [x][1..] == [] && x + [] == x && [] + x == x;
    } else {
      FlatGrows(chunks[1..], x);
      assert (chunks + [x])[1..] == chunks[1..] + [x];
      assert chunks[0] + (Flat(chunks[1..]) + x) == (chunks[0] + Flat(chunks[1..])) + x;
    }
  }

  lemma {:induction false} WireGrows(ms: seq<Msg>, m: Msg)
    requires Marshals(m) && forall x :: x in ms ==> Marshals(x)
    ensures forall x :: x in ms + [m] ==> Marshals(x)
    ensures Flat(Wire(ms + [m])) == Flat(Wire(ms)) + Marshal(m)
  {
    hide Marshal, Marshals;
    if ms == [] {
      assert ms + [m] == [m];
      WireStep([m]);
      NoWire();
      assert Marshal(m) + [] == Marshal(m) && [] + Marshal(m) == Marshal(m);
    } else {
      WireGrows(ms[1..], m);
      WireStep(ms);
      WireStep(ms + [m]);
      assert (ms + [m])[1..] == ms[1..] + [m] && (ms + [m])[0] == ms[0];
      assert Marshal(ms[0]) + (Flat(Wire(ms[1..])) + Marshal(m)) == (Marshal(ms[0]) + Flat(Wire(ms[1..]))) + Marshal(m);
    }
  }

  lemma NothingFlat()
    ensures Flat([]) == []
  {
  }

  lemma FrontOf(all: seq<byte>, head: seq<byte>, left: seq<byte>, n: nat)
    requires |all| >= 1 + n && head == all[..1] && left == all[1..]
    ensures head + left[..n] == all[..1 + n] && left[n..] == all[1 + n..]
  {
  }

  lemma PaddedHead(head: seq<byte>, got: seq<byte>, size: nat)
    requires |got| <= size
    ensures head + Padded(got, size) == Padded(head + got, |head| + size)
  {
  }

  lemma NoWire()
    ensures Flat(Wire([])) == []
  {
  }

  lemma WireStep(ms: seq<Msg>)
    requires ms != [] && forall m :: m in ms ==> Marshals(m)
    ensures Flat(Wire(ms)) == Marshal(ms[0]) + Flat(Wire(ms[1..]))
    ensures Flat(Wire(ms)) != []
  {
    var w := Wire(ms);
    assert w[0] == Marshal(ms[0]) && w[1..] == Wire(ms[1..]);
  }
}
