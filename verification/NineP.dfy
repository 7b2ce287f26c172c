/** 9P over byte streams: the framers that cut a stream into messages, and the matching of responses to
    requests by tag.  A message is size[4] type[1] tag[2] and its body, the size little-endian and
    counting itself (section 5, introduction, of the Plan 9 manual). */
module NineP {
  import opened Utf16
  import Cbor
  import opened Numbers

  type bytes = seq<byte>

  function Le32(s: bytes): (n: nat)
    requires |s| >= 4
  {
    var a: int, b: int, c: int, d: int := s[0], s[1], s[2], s[3];
    a + 256 * b + 65536 * c + 16777216 * d
  }

  function Tag(msg: bytes): (t: nat)
    requires |msg| >= 7
  {
    var lo: int, hi: int := msg[5], msg[6];
    lo + 256 * hi
  }

  /** What a stream holds: whole messages, what is left, and whether a size below 7 was met. */
  datatype Cut = Cut(frames: seq<bytes>, rest: bytes, bad: bool)

  /** The simple parser the framers are held against. */
  function Parse(s: bytes): (c: Cut)
    ensures forall i :: 0 <= i < |c.frames| ==> |c.frames[i]| >= 7
    decreases |s|
  {
    if |s| < 7 then Cut([], s, false)
    else
      var size := Le32(s);
      if size < 7 then Cut([], s, true)
      else if |s| < size then Cut([], s, false)
      else
        var c := Parse(s[size..]);
        c.(frames := [s[..size]] + c.frames)
  }

  function Flat(frames: seq<bytes>): bytes {
    if frames == [] then [] else frames[0] + Flat(frames[1..])
  }

  /** A message whose size field is its length. */
  predicate IsMessage(m: bytes) { |m| >= 7 && Le32(m) == |m| }

  predicate AllMessages(ms: seq<bytes>) { forall i :: 0 <= i < |ms| ==> IsMessage(ms[i]) }

  lemma SizeInFront(s: bytes, t: bytes)
    requires |s| >= 4
    ensures Le32(s + t) == Le32(s)
  {
  }

  lemma ParseStep(s: bytes)
    requires |s| >= 7 && 7 <= Le32(s) <= |s|
    ensures var size := Le32(s); var c := Parse(s[size..]); Parse(s) == c.(frames := [s[..size]] + c.frames)
  {
    hide Le32;
  }

  lemma FirstFrame(s: bytes)
    requires |s| >= 7 && 7 <= Le32(s) <= |s|
    ensures IsMessage(s[..Le32(s)]) && s[..Le32(s)] + s[Le32(s)..] == s
  {
    var size := Le32(s);
    hide Le32;
    assert s[..size] + s[size..] == s;
    SizeInFront(s[..size], s[size..]);
  }

  /** Nothing is lost or made up. */
  lemma {:induction false} ParseKeepsBytes(s: bytes)
    ensures Flat(Parse(s).frames) + Parse(s).rest == s && AllMessages(Parse(s).frames)
    decreases |s|
  {
    hide Le32;
    if |s| >= 7 && 7 <= Le32(s) <= |s| {
      var size := Le32(s);
      ParseKeepsBytes(s[size..]);
      ParseStep(s);
      FirstFrame(s);
      var c := Parse(s[size..]);
      hide Parse;
      assert Parse(s).frames[1..] == c.frames;
      assert s[..size] + (Flat(c.frames) + c.rest) == (s[..size] + Flat(c.frames)) + c.rest;
    } else {
      assert [] + s == s;
    }
  }

  /** Messages put end to end, then a piece of one, are cut into exactly those messages. */
  lemma {:induction false} ParseFindsMessages(ms: seq<bytes>, tail: bytes)
    requires AllMessages(ms) && Parse(tail) == Cut([], tail, false)
    ensures Parse(Flat(ms) + tail) == Cut(ms, tail, false)
  {
    hide Le32, Parse;
    if ms == [] {
      assert [] + tail == tail;
    } else {
      ParseFindsMessages(ms[1..], tail);
      var rest := Flat(ms[1..]) + tail;
      assert Flat(ms) + tail == ms[0] + rest;
      SizeInFront(ms[0], rest);
      ParseStep(ms[0] + rest);
      assert (ms[0] + rest)[..|ms[0]|] == ms[0] && (ms[0] + rest)[|ms[0]|..] == rest;
      assert ms == [ms[0]] + ms[1..];
    }
  }

  lemma ParseStepMore(s: bytes, t: bytes)
    requires |s| >= 7 && 7 <= Le32(s) <= |s|
    ensures var size := Le32(s); var c := Parse(s[size..] + t); Parse(s + t) == c.(frames := [s[..size]] + c.frames)
  {
    SizeInFront(s, t);
    ParseStep(s + t);
    hide Le32, Parse;
    var size := Le32(s);
    assert (s + t)[..size] == s[..size] && (s + t)[size..] == s[size..] + t;
  }

  /** Cutting what has come so far and going on from the rest is cutting it all. */
  lemma {:induction false} ParseGoesOn(s: bytes, t: bytes)
    requires !Parse(s).bad
    ensures var c, d := Parse(s), Parse(Parse(s).rest + t); Parse(s + t) == d.(frames := c.frames + d.frames)
    decreases |s|
  {
    hide Le32, Parse;
    if |s| >= 7 && Le32(s) <= |s| {
      SoundSize(s);
      var size := Le32(s);
      ParseStep(s);
      ParseStepMore(s, t);
      ParseGoesOn(s[size..], t);
      var c, d := Parse(s[size..]), Parse(Parse(s[size..]).rest + t);
      assert [s[..size]] + (c.frames + d.frames) == ([s[..size]] + c.frames) + d.frames;
    } else {
      ShortStays(s);
      assert [] + Parse(s + t).frames == Parse(s + t).frames;
    }
  }

  lemma SoundSize(s: bytes)
    requires |s| >= 7 && !Parse(s).bad
    ensures Le32(s) >= 7
  {
  }

  lemma ShortStays(s: bytes)
    requires !Parse(s).bad && (|s| < 7 || |s| < Le32(s))
    ensures Parse(s) == Cut([], s, false)
  {
    hide Le32;
  }

  // --------------------------------------------------------------- requests and responses

  datatype Sent = Sent(cb: nat, msg: bytes)

  /** The bridge: callbacks by tag, the piece of a response, and what was delivered.  `asked` is every
      request so far, the callback of request `i` being `i`. */
  datatype Bridge = Bridge(pending: map<nat, nat>, buf: bytes, delivered: seq<Sent>, asked: seq<nat>)

  /** The responses that find a callback, and the callbacks left. */
  function Match(pending: map<nat, nat>, frames: seq<bytes>): (r: (map<nat, nat>, seq<Sent>))
    requires forall i :: 0 <= i < |frames| ==> |frames[i]| >= 7
  {
    if frames == [] then (pending, [])
    else
      var t := Tag(frames[0]);
      if t in pending then
        var rest := Match(pending - {t}, frames[1..]);
        (rest.0, [Sent(pending[t], frames[0])] + rest.1)
      else Match(pending, frames[1..])
  }

  /** A request: refused when it is too short, else registered under its tag. */
  function OnRequest(b: Bridge, req: bytes): Bridge {
    if |req| < 7 then b else b.(pending := b.pending[Tag(req) := |b.asked|], asked := b.asked + [Tag(req)])
  }

  /** Response bytes.  After a bad size the responses cut before it are not delivered. */
  function OnResponse(b: Bridge, p: bytes): Bridge {
    var c := Parse(b.buf + p);
    var m := Match(b.pending, c.frames);
    b.(pending := m.0, buf := c.rest, delivered := if c.bad then b.delivered else b.delivered + m.1)
  }

  /** The cutting loop, which three of the framers share. */
  method Extract(buf: bytes) returns (frames: seq<bytes>, rest: bytes, bad: bool)
    ensures Cut(frames, rest, bad) == Parse(buf)
  {
    frames, rest, bad := [], buf, false;
    while true
      invariant Parse(buf) == Parse(rest).(frames := frames + Parse(rest).frames)
      invariant !bad
      decreases |rest|
    {
      if |rest| < 7 {
        break;
      }
      var size := Le32(rest);
      if size < 7 {
        bad := true;
        break;
      }
      if |rest| < size {
        break;
      }
      assert frames + ([rest[..size]] + Parse(rest[size..]).frames) == (frames + [rest[..size]]) + Parse(rest[size..]).frames;
      frames := frames + [rest[..size]];
      rest := rest[size..];
    }
    assert frames + [] == frames;
  }

  class P9Channel {
    var pending: map<nat, nat>
    var respBuf: bytes
    var delivered: seq<Sent>
    var asked: seq<nat>

    ghost function Now(): Bridge
      reads this
    {
      Bridge(pending, respBuf, delivered, asked)
    }

    constructor ()
      ensures Now() == Bridge(map[], [], [], [])
    {
      pending, respBuf, delivered, asked := map[], [], [], [];
    }

    method Handle(req: bytes) returns (ok: bool)
      modifies this
      ensures ok == (|req| >= 7) && Now() == OnRequest(old(Now()), req)
    {
      if |req| < 7 {
        return false;
      }
      pending := pending[Tag(req) := |asked|];
      asked := asked + [Tag(req)];
      ok := true;
    }

    /** Under the lock: callbacks are taken out for the responses that find one. */
    method Take(frames: seq<bytes>) returns (dispatched: seq<Sent>)
      requires forall i :: 0 <= i < |frames| ==> |frames[i]| >= 7
      modifies this`pending
      ensures (pending, dispatched) == Match(old(pending), frames)
    {
      hide Tag;
      dispatched := [];
      ghost var was := pending;
      assert frames[0..] == frames && [] + Match(was, frames).1 == Match(was, frames).1;
      for i := 0 to |frames|
        invariant Match(was, frames) == (Match(pending, frames[i..]).0, dispatched + Match(pending, frames[i..]).1)
      {
        assert frames[i..][0] == frames[i] && frames[i..][1..] == frames[i + 1..];
        var tag := Tag(frames[i]);
        if tag in pending {
          ghost var rest := Match(pending - {tag}, frames[i + 1..]).1;
          assert dispatched + ([Sent(pending[tag], frames[i])] + rest) == (dispatched + [Sent(pending[tag], frames[i])]) + rest;
          dispatched := dispatched + [Sent(pending[tag], frames[i])];
          pending := pending - {tag};
        }
      }
      assert frames[|frames|..] == [] && dispatched + [] == dispatched;
    }

    /** `respWriter.Write`: cut, match under the lock, deliver after it. */
    method Write(p: bytes) returns (ok: bool)
      modifies this
      ensures ok == !Parse(old(respBuf) + p).bad && Now() == OnResponse(old(Now()), p)
    {
      hide Parse, Match;
      var frames, rest, bad := Extract(respBuf + p);
      assert Parse(respBuf + p) == Cut(frames, rest, bad);
      respBuf := rest;
      var dispatched := Take(frames);
      if bad {
        return false;
      }
      delivered := delivered + dispatched;
      ok := true;
    }
  }

  // ------------------------------------------------------------------------------- runs

  datatype Event = Request(req: bytes) | Response(piece: bytes)

  function Next(b: Bridge, e: Event): Bridge {
    match e
    case Request(req) => OnRequest(b, req)
    case Response(p) => OnResponse(b, p)
  }

  function After(b: Bridge, run: seq<Event>): Bridge {
    if run == [] then b else Next(After(b, run[..|run| - 1]), run[|run| - 1])
  }

  function Fresh(): Bridge { Bridge(map[], [], [], []) }

  /** The response bytes of a run. */
  function Stream(run: seq<Event>): bytes {
    if run == [] then []
    else Stream(run[..|run| - 1]) + (if run[|run| - 1].Response? then run[|run| - 1].piece else [])
  }

  /** A callback got only a response with the tag it was registered under, at most once, and is then
      waiting no longer. */
  predicate Correlated(b: Bridge) {
    && (forall t :: t in b.pending ==> b.pending[t] < |b.asked| && b.asked[b.pending[t]] == t)
    && (forall i :: 0 <= i < |b.delivered| ==>
          var d := b.delivered[i]; d.cb < |b.asked| && |d.msg| >= 7 && Tag(d.msg) == b.asked[d.cb])
    && (forall i, j :: 0 <= i < j < |b.delivered| ==> b.delivered[i].cb != b.delivered[j].cb)
    && (forall i, t :: 0 <= i < |b.delivered| && t in b.pending ==> b.pending[t] != b.delivered[i].cb)
  }

  lemma {:induction false} MatchCorrelates(b: Bridge, frames: seq<bytes>)
    requires Correlated(b) && forall i :: 0 <= i < |frames| ==> |frames[i]| >= 7
    ensures var m := Match(b.pending, frames);
            && Correlated(b.(pending := m.0, delivered := b.delivered + m.1))
            && (forall t :: t in m.0 ==> t in b.pending && m.0[t] == b.pending[t])
            && (forall t :: t in b.pending && t !in m.0 ==> exists i :: 0 <= i < |m.1| && m.1[i].cb == b.pending[t])
    decreases |frames|
  {
    hide Tag;
    if frames == [] {
      assert b.delivered + [] == b.delivered;
    } else {
      var t := Tag(frames[0]);
      if t in b.pending {
        var s := Sent(b.pending[t], frames[0]);
        var b1 := b.(pending := b.pending - {t}, delivered := b.delivered + [s]);
        OneCorrelates(b, frames[0]);
        MatchCorrelates(b1, frames[1..]);
        var m := Match(b1.pending, frames[1..]);
        hide Match, Correlated;
        assert (b.delivered + [s]) + m.1 == b.delivered + ([s] + m.1);
        assert ([s] + m.1)[0] == s && forall i :: 0 <= i < |m.1| ==> ([s] + m.1)[i + 1] == m.1[i];
      } else {
        MatchCorrelates(b, frames[1..]);
        hide Correlated;
      }
    }
  }

  lemma OneCorrelates(b: Bridge, msg: bytes)
    requires Correlated(b) && |msg| >= 7 && Tag(msg) in b.pending
    ensures Correlated(b.(pending := b.pending - {Tag(msg)}, delivered := b.delivered + [Sent(b.pending[Tag(msg)], msg)]))
  {
    hide Tag;
  }

  lemma NextCorrelates(b: Bridge, e: Event)
    requires Correlated(b)
    ensures Correlated(Next(b, e))
  {
    hide Correlated, OnRequest, OnResponse;
    match e
    case Request(req) => AskedCorrelates(b, req);
    case Response(p) => AnsweredCorrelates(b, p);
  }

  lemma AskedCorrelates(b: Bridge, req: bytes)
    requires Correlated(b)
    ensures Correlated(OnRequest(b, req))
  {
    hide Tag;
  }

  lemma AnsweredCorrelates(b: Bridge, p: bytes)
    requires Correlated(b)
    ensures Correlated(OnResponse(b, p))
  {
    hide Match, Tag, Parse;
    var c := Parse(b.buf + p);
    MatchCorrelates(b, c.frames);
    FewerCorrelate(b, Match(b.pending, c.frames), c.rest);
  }

  /** Callbacks may be taken out without being called. */
  lemma FewerCorrelate(b: Bridge, m: (map<nat, nat>, seq<Sent>), rest: bytes)
    requires Correlated(b) && Correlated(b.(pending := m.0, delivered := b.delivered + m.1))
    requires forall t :: t in m.0 ==> t in b.pending && m.0[t] == b.pending[t]
    ensures Correlated(b.(pending := m.0, buf := rest)) && Correlated(b.(pending := m.0, buf := rest, delivered := b.delivered + m.1))
  {
    hide Tag;
  }

  /** Whatever is asked and answered, in any order: each callback gets at most one response, one with
      its own tag. */
  lemma {:induction false} RunCorrelates(run: seq<Event>)
    ensures Correlated(After(Fresh(), run))
  {
    if run != [] {
      RunCorrelates(run[..|run| - 1]);
      NextCorrelates(After(Fresh(), run[..|run| - 1]), run[|run| - 1]);
    }
  }

  /** A step that loses no callback: a request that is refused or asks under a tag that is not out, and a
      response that is sound, or whose messages before the bad size are for nobody. */
  predicate Harmless(b: Bridge, e: Event) {
    match e
    case Request(req) => |req| < 7 || Tag(req) !in b.pending
    case Response(p) => var c := Parse(b.buf + p); !c.bad || forall i :: 0 <= i < |c.frames| ==> Tag(c.frames[i]) !in b.pending
  }

  predicate AllHarmless(run: seq<Event>) {
    run == [] || (AllHarmless(run[..|run| - 1]) && Harmless(After(Fresh(), run[..|run| - 1]), run[|run| - 1]))
  }

  /** A callback that waits no longer and got nothing. */
  ghost predicate Lost(b: Bridge, i: nat) {
    && i < |b.asked|
    && !(b.asked[i] in b.pending && b.pending[b.asked[i]] == i)
    && forall j :: 0 <= j < |b.delivered| ==> b.delivered[j].cb != i
  }

  /** Every callback is waiting under its tag or got its response. */
  ghost predicate Complete(b: Bridge) { forall i :: 0 <= i < |b.asked| ==> !Lost(b, i) }

  predicate From(pending: map<nat, nat>, sents: seq<Sent>) {
    forall j :: 0 <= j < |sents| ==>
      |sents[j].msg| >= 7 && Tag(sents[j].msg) in pending && pending[Tag(sents[j].msg)] == sents[j].cb
  }

  /** What is delivered was waiting under the tag of its message. */
  lemma {:induction false} MatchFrom(pending: map<nat, nat>, frames: seq<bytes>)
    requires forall i :: 0 <= i < |frames| ==> |frames[i]| >= 7
    ensures From(pending, Match(pending, frames).1)
    decreases |frames|
  {
    hide Tag;
    if frames != [] {
      var t := Tag(frames[0]);
      if t in pending {
        MatchFrom(pending - {t}, frames[1..]);
        var rest := Match(pending - {t}, frames[1..]).1;
        var all := Match(pending, frames).1;
        assert all == [Sent(pending[t], frames[0])] + rest;
        assert From(pending, [Sent(pending[t], frames[0])]) && From(pending, rest);
      } else {
        MatchFrom(pending, frames[1..]);
        assert Match(pending, frames) == Match(pending, frames[1..]);
      }
    }
  }

  /** Frames for nobody take nothing out. */
  lemma {:induction false} MatchNothing(pending: map<nat, nat>, frames: seq<bytes>)
    requires forall i :: 0 <= i < |frames| ==> |frames[i]| >= 7
    ensures Match(pending, frames).1 == [] <==> forall i :: 0 <= i < |frames| ==> Tag(frames[i]) !in pending
    ensures Match(pending, frames).1 == [] ==> Match(pending, frames).0 == pending
    decreases |frames|
  {
    hide Tag;
    if frames != [] {
      var t := Tag(frames[0]);
      assert forall i :: 0 < i < |frames| ==> frames[1..][i - 1] == frames[i];
      if t !in pending {
        MatchNothing(pending, frames[1..]);
      }
    }
  }

  lemma NextCompletes(b: Bridge, e: Event)
    requires Correlated(b) && Complete(b) && Harmless(b, e)
    ensures Complete(Next(b, e))
  {
    var b' := Next(b, e);
    forall i | 0 <= i < |b'.asked| ensures !Lost(b', i) {
      if i < |b.asked| {
        assert !Lost(b, i);
        if e.Response? {
          StillThere(b, e.piece, i);
        }
      }
    }
  }

  lemma StillThere(b: Bridge, p: bytes, i: nat)
    requires Correlated(b) && Harmless(b, Response(p)) && i < |b.asked| && !Lost(b, i)
    ensures !Lost(OnResponse(b, p), i)
  {
    hide Tag, Parse;
    var c := Parse(b.buf + p);
    var m := Match(b.pending, c.frames);
    MatchCorrelates(b, c.frames);
    if c.bad {
      MatchNothing(b.pending, c.frames);
    }
    hide Match;
    if j :| 0 <= j < |b.delivered| && b.delivered[j].cb == i {
      assert OnResponse(b, p).delivered[j].cb == i;
    } else if b.asked[i] !in m.0 {
      var k :| 0 <= k < |m.1| && m.1[k].cb == i;
      assert (b.delivered + m.1)[|b.delivered| + k].cb == i;
    }
  }

  /** What is lost stays lost. */
  lemma StaysLost(b: Bridge, e: Event, i: nat)
    requires Correlated(b) && Lost(b, i)
    ensures Lost(Next(b, e), i)
  {
    hide Tag, Parse;
    if e.Response? {
      var c := Parse(b.buf + e.piece);
      MatchCorrelates(b, c.frames);
      MatchFrom(b.pending, c.frames);
      hide Match;
    }
  }

  /** A step that is not harmless loses a callback. */
  lemma HarmLoses(b: Bridge, e: Event)
    requires Correlated(b) && !Harmless(b, e)
    ensures exists i :: 0 <= i < |b.asked| && Lost(Next(b, e), i)
  {
    hide Tag, Parse;
    match e
    case Request(req) =>
      assert Lost(Next(b, e), b.pending[Tag(req)]);
    case Response(p) =>
      var c := Parse(b.buf + p);
      var m := Match(b.pending, c.frames);
      MatchCorrelates(b, c.frames);
      MatchFrom(b.pending, c.frames);
      MatchNothing(b.pending, c.frames);
      hide Match, Correlated;
      TakenIsLost(b, m, c.rest);
      assert Lost(Next(b, e), m.1[0].cb);
  }

  /** What was taken out and not delivered is lost. */
  lemma TakenIsLost(b: Bridge, m: (map<nat, nat>, seq<Sent>), rest: bytes)
    requires Correlated(b) && Correlated(b.(pending := m.0, delivered := b.delivered + m.1)) && m.1 != []
    requires |m.1[0].msg| >= 7 && Tag(m.1[0].msg) in b.pending && b.pending[Tag(m.1[0].msg)] == m.1[0].cb
    ensures m.1[0].cb < |b.asked| && Lost(b.(pending := m.0, buf := rest), m.1[0].cb)
  {
    hide Tag;
    var d := b.delivered + m.1;
    assert d[|b.delivered|] == m.1[0];
  }

  /** No request loses its callback exactly if every step is harmless. */
  lemma {:induction false} RunCompletes(run: seq<Event>)
    ensures Complete(After(Fresh(), run)) <==> AllHarmless(run)
  {
    if run != [] {
      var before, e := run[..|run| - 1], run[|run| - 1];
      var b := After(Fresh(), before);
      RunCompletes(before);
      RunCorrelates(before);
      if !Complete(b) {
        var i :| 0 <= i < |b.asked| && Lost(b, i);
        StaysLost(b, e, i);
      } else if Harmless(b, e) {
        NextCompletes(b, e);
      } else {
        HarmLoses(b, e);
      }
    }
  }

  /** In every run, a request under a tag that is out takes the earlier request's callback away for good:
      whatever comes after it, that callback gets nothing. */
  lemma {:induction false} ReusedTag(before: seq<Event>, req: bytes, after: seq<Event>)
    requires |req| >= 7 && Tag(req) in After(Fresh(), before).pending
    ensures Lost(After(Fresh(), before + [Request(req)] + after), After(Fresh(), before).pending[Tag(req)])
    decreases |after|
  {
    hide Correlated, Lost, OnRequest, OnResponse, Parse, Match, Tag;
    var run := before + [Request(req)] + after;
    var b := After(Fresh(), before);
    RunCorrelates(before);
    if after == [] {
      assert run == before + [Request(req)] && run[..|run| - 1] == before;
      TakenAway(b, req);
    } else {
      var rest := after[..|after| - 1];
      assert run[..|run| - 1] == before + [Request(req)] + rest && run[|run| - 1] == after[|after| - 1];
      ReusedTag(before, req, rest);
      RunCorrelates(before + [Request(req)] + rest);
      StaysLost(After(Fresh(), before + [Request(req)] + rest), after[|after| - 1], b.pending[Tag(req)]);
    }
  }

  lemma TakenAway(b: Bridge, req: bytes)
    requires Correlated(b) && |req| >= 7 && Tag(req) in b.pending
    ensures Lost(Next(b, Request(req)), b.pending[Tag(req)])
  {
    hide Tag;
  }

  /** A channel through any run of requests and response bytes: each callback got at most one response, one
      with its own tag, and exactly if every step was harmless none is lost. */
  method Serve(run: seq<Event>) returns (ch: P9Channel)
    ensures ch.Now() == After(Fresh(), run)
    ensures Correlated(ch.Now()) && (Complete(ch.Now()) <==> AllHarmless(run))
    ensures !Parse(Stream(run)).bad ==> ch.respBuf == Parse(Stream(run)).rest
  {
    hide Correlated, Complete, AllHarmless, OnRequest, OnResponse, Parse;
    ch := new P9Channel();
    for i := 0 to |run|
      invariant ch.Now() == After(Fresh(), run[..i])
      modifies ch
    {
      assert run[..i + 1][..|run[..i + 1]| - 1] == run[..i];
      match run[i] {
        case Request(req) => var ok := ch.Handle(req);
        case Response(p) => var ok := ch.Write(p);
      }
    }
    assert run[..|run|] == run;
    RunCorrelates(run);
    RunCompletes(run);
    if !Parse(Stream(run)).bad { RunBuffers(run); }
  }

  // ------------------------------------------------------------------- messages by their fields

  /** The four bytes of a size, the lowest first. */
  function SizeBytes(n: nat): (s: bytes)
    requires n < 0x1_0000_0000
    ensures |s| == 4
  {
    [n % 256, n / 256 % 256, n / 65536 % 256, n / 16777216]
  }

  /** size[4] type[1] tag[2] body. */
  function Message(kind: byte, t: nat, body: bytes): (m: bytes)
    requires t < 65536 && |body| < 0x1_0000_0000 - 7
    ensures |m| == 7 + |body|
  {
    SizeBytes(7 + |body|) + [kind] + [t % 256, t / 256] + body
  }

  /** The size and the tag are little-endian numbers, at bytes 0 to 3 and 5 to 6. */
  lemma FieldsAre(m: bytes)
    requires |m| >= 7
    ensures Le32(m) == LittleEndian(m[..4]) && Tag(m) == LittleEndian(m[5..7])
  {
    LittleEndian4(m[..4]);
    assert m[5..7] == [m[5], m[6]] && m[5..7][1..] == [m[6]] && [m[6]][1..] == [];
    assert LittleEndian([m[6]]) == m[6];
  }

  lemma SizeReads(n: nat, rest: bytes)
    requires n < 0x1_0000_0000
    ensures Le32(SizeBytes(n) + rest) == n
  {
    assert n == n % 256 + 256 * (n / 256 % 256) + 65536 * (n / 65536 % 256) + 16777216 * (n / 16777216) by {
      assert n / 256 == n / 256 % 256 + 256 * (n / 65536);
      assert n / 65536 == n / 65536 % 256 + 256 * (n / 16777216);
    }
  }

  /** A message built with a tag is a message, and has that tag. */
  lemma MessageReads(kind: byte, t: nat, body: bytes)
    requires t < 65536 && |body| < 0x1_0000_0000 - 7
    ensures IsMessage(Message(kind, t, body)) && Tag(Message(kind, t, body)) == t
    ensures Message(kind, t, body)[4] == kind && Message(kind, t, body)[7..] == body
  {
    var m := Message(kind, t, body);
    assert m == SizeBytes(7 + |body|) + ([kind] + [t % 256, t / 256] + body);
    SizeReads(7 + |body|, [kind] + [t % 256, t / 256] + body);
    hide Le32, SizeBytes;
    assert m[5] == t % 256 && m[6] == t / 256;
  }

  /** A message of type `kind`, tag and body. */
  datatype Packet = Packet(kind: byte, t: nat, body: bytes)

  predicate Fits(p: Packet) { p.t < 65536 && |p.body| < 0x1_0000_0000 - 7 }

  predicate AllFit(ps: seq<Packet>) { forall i :: 0 <= i < |ps| ==> Fits(ps[i]) }

  function Wire(p: Packet): bytes requires Fits(p) { Message(p.kind, p.t, p.body) }

  function Asking(reqs: seq<Packet>): (run: seq<Event>)
    requires AllFit(reqs)
    ensures |run| == |reqs| && forall i :: 0 <= i < |run| ==> run[i] == Request(Wire(reqs[i]))
  {
    seq(|reqs|, i requires 0 <= i < |reqs| => Request(Wire(reqs[i])))
  }

  function Wires(ps: seq<Packet>): (ms: seq<bytes>)
    requires AllFit(ps)
    ensures |ms| == |ps| && forall i :: 0 <= i < |ms| ==> ms[i] == Wire(ps[i])
  {
    seq(|ps|, i requires 0 <= i < |ps| => Wire(ps[i]))
  }

  predicate DistinctTags(reqs: seq<Packet>) { forall i, j :: 0 <= i < j < |reqs| ==> reqs[i].t != reqs[j].t }

  /** Every request is registered under the tag it was built with. */
  lemma {:induction false} AllAsked(reqs: seq<Packet>)
    requires AllFit(reqs) && DistinctTags(reqs)
    ensures var b := After(Fresh(), Asking(reqs));
            && b.buf == [] && b.delivered == [] && |b.asked| == |reqs|
            && (forall i :: 0 <= i < |reqs| ==> reqs[i].t in b.pending && b.pending[reqs[i].t] == i)
            && (forall t :: t in b.pending ==> exists i :: 0 <= i < |reqs| && reqs[i].t == t)
  {
    if reqs != [] {
      var n := |reqs| - 1;
      AllAsked(reqs[..n]);
      MessageReads(reqs[n].kind, reqs[n].t, reqs[n].body);
      assert Asking(reqs)[..n] == Asking(reqs[..n]);
      hide Tag, Message, OnRequest;
      assert After(Fresh(), Asking(reqs)) == OnRequest(After(Fresh(), Asking(reqs[..n])), Wire(reqs[n]));
      hide After;
      OneMoreAsked(After(Fresh(), Asking(reqs[..n])), reqs);
    }
  }

  lemma OneMoreAsked(b: Bridge, reqs: seq<Packet>)
    requires AllFit(reqs) && DistinctTags(reqs) && reqs != [] && Tag(Wire(reqs[|reqs| - 1])) == reqs[|reqs| - 1].t
    requires var n := |reqs| - 1;
             && |b.asked| == n && |Wire(reqs[n])| >= 7
             && (forall i :: 0 <= i < n ==> reqs[..n][i].t in b.pending && b.pending[reqs[..n][i].t] == i)
             && (forall t :: t in b.pending ==> exists i :: 0 <= i < n && reqs[..n][i].t == t)
    ensures var b' := OnRequest(b, Wire(reqs[|reqs| - 1]));
            && b'.buf == b.buf && b'.delivered == b.delivered && |b'.asked| == |reqs|
            && (forall i :: 0 <= i < |reqs| ==> reqs[i].t in b'.pending && b'.pending[reqs[i].t] == i)
            && (forall t :: t in b'.pending ==> exists i :: 0 <= i < |reqs| && reqs[i].t == t)
  {
    var n := |reqs| - 1;
    hide Tag, Message;
    var b' := OnRequest(b, Wire(reqs[n]));
    forall i | 0 <= i < n ensures reqs[i].t in b'.pending && b'.pending[reqs[i].t] == i {
      assert reqs[..n][i] == reqs[i];
    }
    forall t | t in b'.pending ensures exists i :: 0 <= i < |reqs| && reqs[i].t == t {
      if t != reqs[n].t {
        var i :| 0 <= i < n && reqs[..n][i].t == t;
        assert reqs[i].t == t;
      } else {
        assert reqs[n].t == t;
      }
    }
  }

  /** The answers go, in the order they come, to the callbacks waiting under their tags. */
  lemma {:induction false} MatchFinds(pending: map<nat, nat>, answers: seq<Packet>, k: nat)
    requires AllFit(answers) && DistinctTags(answers) && k <= |answers|
    requires forall i :: k <= i < |answers| ==> answers[i].t in pending
    ensures forall i :: 0 <= i < |answers| ==> |Wires(answers)[i]| >= 7
    ensures var m := Match(pending, Wires(answers)[k..]);
            && |m.1| == |answers| - k
            && (forall i :: k <= i < |answers| ==> m.1[i - k] == Sent(pending[answers[i].t], Wire(answers[i])))
            && (forall t :: t in m.0 <==> t in pending && forall i :: k <= i < |answers| ==> answers[i].t != t)
    decreases |answers| - k
  {
    hide Tag, Message;
    if k < |answers| {
      var p := answers[k];
      MessageReads(p.kind, p.t, p.body);
      MatchFinds(pending - {p.t}, answers, k + 1);
      assert Wires(answers)[k..][0] == Wire(p) && Wires(answers)[k..][1..] == Wires(answers)[k + 1..];
    }
  }

  lemma {:induction false} WiresAreMessages(ps: seq<Packet>)
    requires AllFit(ps)
    ensures AllMessages(Wires(ps))
  {
    forall i | 0 <= i < |ps| ensures IsMessage(Wires(ps)[i]) {
      MessageReads(ps[i].kind, ps[i].t, ps[i].body);
    }
  }

  /** Requests built with distinct tags, then answers built with some of these tags, of any types and in any order:
      each answer is delivered, as it was built, to the callback of the request with its tag and to no other, and
      exactly the other requests are still waiting. */
  lemma AnswersFindTheirRequests(reqs: seq<Packet>, answers: seq<Packet>, whose: seq<nat>)
    requires AllFit(reqs) && AllFit(answers) && DistinctTags(reqs) && |whose| == |answers|
    requires forall i :: 0 <= i < |whose| ==> whose[i] < |reqs| && answers[i].t == reqs[whose[i]].t
    requires forall i, j :: 0 <= i < j < |whose| ==> whose[i] != whose[j]
    ensures var b := After(Fresh(), Asking(reqs) + [Response(Flat(Wires(answers)))]);
            && |b.delivered| == |answers| && b.buf == []
            && (forall i :: 0 <= i < |answers| ==> b.delivered[i] == Sent(whose[i], Wire(answers[i])))
            && (forall j :: 0 <= j < |reqs| ==> (reqs[j].t in b.pending <==> j !in whose))
  {
    hide Parse, Match, Tag, Message, OnResponse, OnRequest, After;
    var run := Asking(reqs) + [Response(Flat(Wires(answers)))];
    AllAsked(reqs);
    LastStep(Fresh(), Asking(reqs), Response(Flat(Wires(answers))));
    hide Asking, Wire;
    AnsweredAs(After(Fresh(), Asking(reqs)), reqs, answers, whose);
  }

  lemma AnsweredAs(b: Bridge, reqs: seq<Packet>, answers: seq<Packet>, whose: seq<nat>)
    requires AllFit(answers) && DistinctTags(reqs) && |whose| == |answers| && b.buf == [] && b.delivered == []
    requires forall i :: 0 <= i < |whose| ==> whose[i] < |reqs| && answers[i].t == reqs[whose[i]].t
    requires forall i, j :: 0 <= i < j < |whose| ==> whose[i] != whose[j]
    requires forall i :: 0 <= i < |reqs| ==> reqs[i].t in b.pending && b.pending[reqs[i].t] == i
    ensures var b' := OnResponse(b, Flat(Wires(answers)));
            && |b'.delivered| == |answers| && b'.buf == []
            && (forall i :: 0 <= i < |answers| ==> b'.delivered[i] == Sent(whose[i], Wire(answers[i])))
            && (forall j :: 0 <= j < |reqs| ==> (reqs[j].t in b'.pending <==> j !in whose))
  {
    hide OnResponse, Wire, Message;
    forall i, j | 0 <= i < j < |answers| ensures answers[i].t != answers[j].t {
      assert whose[i] != whose[j];
    }
    AnswersArrive(b, answers);
    var b' := OnResponse(b, Flat(Wires(answers)));
    forall i | 0 <= i < |answers| ensures b'.delivered[i] == Sent(whose[i], Wire(answers[i])) {
      assert b'.delivered[|b.delivered| + i] == Sent(b.pending[answers[i].t], Wire(answers[i]));
    }
    forall j | 0 <= j < |reqs| ensures reqs[j].t in b'.pending <==> j !in whose {
      if j in whose {
        var i :| 0 <= i < |whose| && whose[i] == j;
        assert answers[i].t == reqs[j].t;
      }
    }
  }

  lemma LastStep(b: Bridge, run: seq<Event>, e: Event)
    ensures After(b, run + [e]) == Next(After(b, run), e)
  {
    assert (run + [e])[..|run|] == run;
  }

  /** Answers that arrive whole, one after the other. */
  lemma AnswersArrive(b: Bridge, answers: seq<Packet>)
    requires AllFit(answers) && DistinctTags(answers) && b.buf == []
    requires forall i :: 0 <= i < |answers| ==> answers[i].t in b.pending
    ensures var b' := OnResponse(b, Flat(Wires(answers)));
            && b'.buf == [] && b'.asked == b.asked && |b'.delivered| == |b.delivered| + |answers|
            && (forall i :: 0 <= i < |answers| ==>
                  b'.delivered[|b.delivered| + i] == Sent(b.pending[answers[i].t], Wire(answers[i])))
            && (forall t :: t in b'.pending <==> t in b.pending && forall i :: 0 <= i < |answers| ==> answers[i].t != t)
  {
    hide Match, Tag, Message, Wire, OnResponse;
    MatchFinds(b.pending, answers, 0);
    assert Wires(answers)[0..] == Wires(answers);
    WhatArrives(b, answers);
    var m := Match(b.pending, Wires(answers));
    forall i | 0 <= i < |answers| ensures (b.delivered + m.1)[|b.delivered| + i] == m.1[i] {
    }
  }

  lemma WhatArrives(b: Bridge, answers: seq<Packet>)
    requires AllFit(answers) && b.buf == []
    ensures forall i :: 0 <= i < |answers| ==> |Wires(answers)[i]| >= 7
    ensures var m := Match(b.pending, Wires(answers));
            OnResponse(b, Flat(Wires(answers))) == b.(pending := m.0, buf := [], delivered := b.delivered + m.1)
  {
    AllCut(answers);
    hide Parse, Match, Wire;
    assert b.buf + Flat(Wires(answers)) == Flat(Wires(answers));
  }

  lemma AllCut(answers: seq<Packet>)
    requires AllFit(answers)
    ensures Parse(Flat(Wires(answers))) == Cut(Wires(answers), [], false)
  {
    WiresAreMessages(answers);
    ParseFindsMessages(Wires(answers), []);
    assert Flat(Wires(answers)) + [] == Flat(Wires(answers));
  }

  /** An answer built with a tag that is not out is for nobody. */
  lemma AnswerForNobody(b: Bridge, p: Packet)
    requires Fits(p) && b.buf == [] && p.t !in b.pending
    ensures OnResponse(b, Wire(p)) == b
  {
    MessageReads(p.kind, p.t, p.body);
    ParseFindsMessages([Wire(p)], []);
    assert Flat([Wire(p)]) + [] == Wire(p) && [] + Wire(p) == Wire(p);
    assert [Wire(p)][1..] == [] && b.buf + Wire(p) == Wire(p);
    assert Parse(b.buf + Wire(p)) == Cut([Wire(p)], [], false);
    hide Parse, Tag, Message, Match;
    MatchNothing(b.pending, [Wire(p)]);
    assert b.delivered + [] == b.delivered;
  }

  /** What is buffered is what the simple parser leaves of the whole stream. */
  lemma {:induction false} RunBuffers(run: seq<Event>)
    requires !Parse(Stream(run)).bad
    ensures After(Fresh(), run).buf == Parse(Stream(run)).rest
  {
    if run != [] {
      var before, e := run[..|run| - 1], run[|run| - 1];
      if e.Response? {
        if Parse(Stream(before)).bad {
          BadStays(Stream(before), e.piece);
        }
        RunBuffers(before);
        ParseGoesOn(Stream(before), e.piece);
      } else {
        assert Stream(run) == Stream(before);
        RunBuffers(before);
      }
    }
  }

  lemma {:induction false} BadStays(s: bytes, t: bytes)
    requires Parse(s).bad
    ensures Parse(s + t).bad
    decreases |s|
  {
    var size := Le32(s);
    assert Le32(s + t) == size;
    if size >= 7 {
      BadStays(s[size..], t);
      assert (s + t)[size..] == s[size..] + t;
    }
  }

  lemma {:induction false} MatchJoins(pending: map<nat, nat>, f: seq<bytes>, g: seq<bytes>)
    requires (forall i :: 0 <= i < |f| ==> |f[i]| >= 7) && forall i :: 0 <= i < |g| ==> |g[i]| >= 7
    ensures var m := Match(pending, f); var n := Match(m.0, g); Match(pending, f + g) == (n.0, m.1 + n.1)
    decreases |f|
  {
    if f == [] {
      assert [] + g == g && [] + Match(pending, g).1 == Match(pending, g).1;
    } else {
      assert (f + g)[1..] == f[1..] + g;
      var t := Tag(f[0]);
      if t in pending {
        MatchJoins(pending - {t}, f[1..], g);
        var m := Match(pending - {t}, f[1..]);
        assert ([Sent(pending[t], f[0])] + m.1) + Match(m.0, g).1 == [Sent(pending[t], f[0])] + (m.1 + Match(m.0, g).1);
      } else {
        MatchJoins(pending, f[1..], g);
      }
    }
  }

  /** However a writer cuts the responses, what is delivered and what is left are the same. */
  lemma ChunksDoNotMatter(b: Bridge, p: bytes, q: bytes)
    requires !Parse(b.buf + (p + q)).bad
    ensures OnResponse(OnResponse(b, p), q) == OnResponse(b, p + q)
  {
    hide Parse, Match;
    assert b.buf + (p + q) == (b.buf + p) + q;
    if Parse(b.buf + p).bad {
      BadStays(b.buf + p, q);
    }
    ParseGoesOn(b.buf + p, q);
    var c, d := Parse(b.buf + p), Parse(Parse(b.buf + p).rest + q);
    MatchJoins(b.pending, c.frames, d.frames);
    var m := Match(b.pending, c.frames);
    var n := Match(m.0, d.frames);
    var b1 := b.(pending := m.0, buf := c.rest, delivered := b.delivered + m.1);
    assert OnResponse(b, p) == b1;
    assert OnResponse(b1, q) == b1.(pending := n.0, buf := d.rest, delivered := b1.delivered + n.1);
    assert (b.delivered + m.1) + n.1 == b.delivered + (m.1 + n.1);
  }

  // ------------------------------------------------------------------- the other framers

  /** `P9PortReadWriter.Write`: every whole message is posted. */
  class PortWriter {
    var wbuf: bytes
    var posted: seq<bytes>

    constructor ()
      ensures wbuf == [] && posted == []
    {
      wbuf, posted := [], [];
    }

    method Write(b: bytes) returns (ok: bool)
      modifies this
      ensures var c := Parse(old(wbuf) + b);
              if b == [] then ok && wbuf == old(wbuf) && posted == old(posted)
              else ok == !c.bad && wbuf == c.rest && posted == old(posted) + c.frames
    {
      if |b| == 0 {
        return true;
      }
      var frames, rest, bad := Extract(wbuf + b);
      assert Parse(wbuf + b) == Cut(frames, rest, bad);
      posted, wbuf := posted + frames, rest;
      ok := !bad;
    }
  }

  /** What a framer that trusts every size cuts: a size that is too small to be reached any more stops it,
      others that are too small for a header do not. */
  function ByteCut(s: bytes): (seq<bytes>, bytes)
    decreases |s|
  {
    if |s| < 4 || Le32(s) < 4 || |s| < Le32(s) then ([], s)
    else var c := ByteCut(s[Le32(s)..]); ([s[..Le32(s)]] + c.0, c.1)
  }

  /** The emulator's serial port: one byte at a time, a message when its length is reached. */
  class ByteFramer {
    var buf: bytes
    var msgLen: nat
    var posted: seq<bytes>

    ghost predicate Valid()
      reads this
    {
      && (|buf| < 4 ==> msgLen == 0)
      && (|buf| >= 4 ==> msgLen == Le32(buf) && (msgLen < 4 || |buf| < msgLen))
    }

    constructor ()
      ensures Valid() && buf == [] && posted == []
    {
      buf, msgLen, posted := [], 0, [];
    }

    method Byte(b: byte)
      requires Valid()
      modifies this
      ensures Valid()
      ensures var c := ByteCut(old(buf) + [b]); buf == c.1 && posted == old(posted) + c.0
    {
      ghost var s := buf + [b];
      buf := buf + [b];
      if |buf| == 4 {
        msgLen := Le32(buf[..4]);
      }
      assert |s| >= 4 ==> msgLen == Le32(s);
      if msgLen > 0 && |buf| == msgLen {
        assert s[..msgLen] == s && s[msgLen..] == [];
        posted := posted + [buf];
        buf, msgLen := [], 0;
      }
      assert posted + [] == posted;
    }
  }

  /** Fed byte by byte, the emulator's framer cuts any stream as `ByteCut` says. */
  method Feed(f: ByteFramer, s: bytes)
    requires f.Valid() && f.buf == []
    modifies f
    ensures f.Valid() && f.buf == ByteCut(s).1 && f.posted == old(f.posted) + ByteCut(s).0
  {
    hide ByteCut;
    ghost var before := f.posted;
    NoByteCut();
    assert before + [] == before && s[..0] == [];
    for i := 0 to |s|
      invariant f.Valid() && f.buf == ByteCut(s[..i]).1 && f.posted == before + ByteCut(s[..i]).0
    {
      assert s[..i] + [s[i]] == s[..i + 1];
      ByteGoesOn(s[..i], [s[i]]);
      ghost var c, d := ByteCut(s[..i]), ByteCut(ByteCut(s[..i]).1 + [s[i]]);
      f.Byte(s[i]);
      assert (before + c.0) + d.0 == before + (c.0 + d.0);
    }
    assert s[..|s|] == s;
  }

  lemma NoByteCut()
    ensures ByteCut([]) == ([], [])
  {
  }

  lemma {:induction false} ByteGoesOn(s: bytes, t: bytes)
    ensures var c, d := ByteCut(s), ByteCut(ByteCut(s).1 + t); ByteCut(s + t) == (c.0 + d.0, d.1)
    decreases |s|
  {
    if |s| < 4 || Le32(s) < 4 || |s| < Le32(s) {
      hide Le32;
      assert [] + ByteCut(s + t).0 == ByteCut(s + t).0;
    } else {
      SizeInFront(s, t);
      var n := Le32(s);
      ByteGoesOn(s[n..], t);
      hide Le32;
      assert (s + t)[..n] == s[..n] && (s + t)[n..] == s[n..] + t;
      var c, d := ByteCut(s[n..]), ByteCut(ByteCut(s[n..]).1 + t);
      assert [s[..n]] + (c.0 + d.0) == ([s[..n]] + c.0) + d.0;
    }
  }

  /** No message that has arrived is announced with room for its size but not for its header. */
  predicate Roomy(s: bytes)
    decreases |s|
  {
    |s| < 4 || Le32(s) < 4 || |s| < Le32(s) || (Le32(s) >= 7 && Roomy(s[Le32(s)..]))
  }

  /** The emulator's framer cuts a stream as the parser does exactly if no message of 4, 5 or 6 bytes is in
      it, which the parser refuses. */
  lemma {:induction false} BytesAgree(s: bytes)
    ensures ByteCut(s) == (Parse(s).frames, Parse(s).rest) <==> Roomy(s)
    decreases |s|
  {
    if |s| >= 7 && 7 <= Le32(s) <= |s| {
      var n := Le32(s);
      BytesAgree(s[n..]);
      ParseStep(s);
      hide Le32, Parse;
      var c, d := ByteCut(s[n..]), Parse(s[n..]);
      assert ([s[..n]] + c.0)[1..] == c.0 && ([s[..n]] + d.frames)[1..] == d.frames;
    } else {
      Uncut(s);
    }
  }

  lemma Uncut(s: bytes)
    requires !(|s| >= 7 && 7 <= Le32(s) <= |s|)
    ensures Parse(s).frames == [] && Parse(s).rest == s
    ensures |s| >= 4 && 4 <= Le32(s) <= |s| ==> ByteCut(s).0 != []
  {
    hide Le32;
  }

  // ------------------------------------------------------------------------ the websocket side

  /** A message behind its length, big-endian, which does not count itself. */
  function Prefixed(m: bytes): bytes { Cbor.BE32(|m| % 0x1_0000_0000) + m }

  /** A message goes behind its length in four bytes, the most significant first. */
  lemma PrefixedIs(m: bytes)
    requires |m| < 0x1_0000_0000
    ensures |Prefixed(m)| == 4 + |m| && Prefixed(m)[4..] == m && BigEndian(Prefixed(m)[..4]) == |m|
  {
    var n: int, bs := |m|, Prefixed(m)[..4];
    assert bs == Cbor.BE32(n);
    hide BigEndian;
    BigEndian4(bs);
    Four(n);
    assert bs[0] == n / 0x1_0000 / 256 && bs[1] == n / 0x1_0000 % 256 && bs[2] == n % 0x1_0000 / 256 && bs[3] == n % 0x1_0000 % 256;
  }

  lemma Four(n: int)
    requires 0 <= n < 0x1_0000_0000
    ensures 0 <= n / 0x1_0000 < 0x1_0000 && 0 <= n % 0x1_0000 < 0x1_0000
    ensures 256 * (256 * (256 * (n / 0x1_0000 / 256) + n / 0x1_0000 % 256) + n % 0x1_0000 / 256) + n % 0x1_0000 % 256 == n
  {
  }

  function AllPrefixed(ms: seq<bytes>): bytes {
    if ms == [] then [] else AllPrefixed(ms[..|ms| - 1]) + Prefixed(ms[|ms| - 1])
  }

  lemma OneMorePrefixed(ms: seq<bytes>, m: bytes)
    ensures AllPrefixed(ms + [m]) == AllPrefixed(ms) + Prefixed(m)
  {
    assert (ms + [m])[..|ms|] == ms;
  }

  lemma Be16Undone(s: bytes)
    requires |s| >= 2
    ensures Cbor.U16(s) < 0x1_0000 && Cbor.BE16(Cbor.U16(s)) == s[..2]
  {
  }

  /** Writing a number as four bytes undoes reading it from them. */
  lemma Be32Undone(s: bytes)
    requires |s| >= 4
    ensures Cbor.U32(s) < 0x1_0000_0000 && Cbor.BE32(Cbor.U32(s)) == s[..4]
  {
    hide Cbor.U16, Cbor.BE16;
    var hi, lo := Cbor.U16(s), Cbor.U16(s[2..]);
    Be16Undone(s);
    Be16Undone(s[2..]);
    Halves(hi, lo);
    assert Cbor.U32(s) == hi * 0x1_0000 + lo;
    assert Cbor.BE32(hi * 0x1_0000 + lo) == Cbor.BE16(hi) + Cbor.BE16(lo);
    assert s[..2] + s[2..][..2] == s[..4];
  }

  lemma Halves(hi: nat, lo: nat)
    requires hi < 0x1_0000 && lo < 0x1_0000
    ensures (hi * 0x1_0000 + lo) / 0x1_0000 == hi && (hi * 0x1_0000 + lo) % 0x1_0000 == lo
    ensures 0 <= hi * 0x1_0000 + lo < 0x1_0000_0000
  {
  }

  lemma SplitAt(g: bytes, s: bytes, at: nat, k: nat)
    requires at + k <= |s|
    ensures g + s[at..] == (g + s[at..at + k]) + s[at + k..]
    ensures at + k == |s| ==> s[at + k..] == []
  {
  }

  class QemuAdapter {
    var readBuffer: bytes
    var readOffset: nat
    var writeBuffer: bytes
    var sent: seq<bytes>       // websocket messages written
    ghost var taken: seq<bytes>  // websocket messages read
    ghost var given: bytes       // bytes returned by Read

    ghost predicate Valid()
      reads this
    {
      (readBuffer != [] ==> readOffset < |readBuffer|) && AllPrefixed(taken) == given + Remaining()
    }

    /** What is buffered for reading. */
    ghost function Remaining(): bytes
      reads this
      requires readBuffer != [] ==> readOffset < |readBuffer|
    {
      if readBuffer == [] then [] else readBuffer[readOffset..]
    }

    constructor ()
      ensures Valid() && writeBuffer == [] && sent == [] && taken == [] && given == []
    {
      readBuffer, readOffset, writeBuffer, sent, taken, given := [], 0, [], [], [], [];
    }

    /** The next websocket message is taken. */
    method Fill(message: bytes)
      requires Valid() && readBuffer == []
      modifies this`readBuffer, this`readOffset, this`taken
      ensures Valid() && readBuffer != [] && taken == old(taken) + [message]
    {
      hide AllPrefixed;
      readBuffer := Prefixed(message);
      readOffset := 0;
      OneMorePrefixed(taken, message);
      assert given + [] == given && readBuffer[0..] == readBuffer;
      taken := taken + [message];
    }

    /** Up to `n` of the buffered bytes are given. */
    method Give(n: nat) returns (p: bytes)
      requires Valid() && readBuffer != []
      modifies this`readBuffer, this`readOffset, this`given
      ensures Valid() && given == old(given) + p && |p| <= n && (n > 0 ==> p != [])
      ensures |p| < n ==> readBuffer == []
    {
      hide AllPrefixed;
      var k := if n <= |readBuffer| - readOffset then n else |readBuffer| - readOffset;
      p := readBuffer[readOffset..readOffset + k];
      SplitAt(given, readBuffer, readOffset, k);
      given := given + p;
      readOffset := readOffset + k;
      if readOffset >= |readBuffer| {
        readBuffer := [];
      }
    }

    /** `Read` into `n` bytes; `message` is the next websocket message, taken if the buffer is empty.
        What was given, with what is buffered, is every message taken, behind its length. */
    method Read(n: nat, message: bytes) returns (p: bytes)
      requires Valid()
      modifies this`readBuffer, this`readOffset, this`taken, this`given
      ensures Valid() && given == old(given) + p && |p| <= n && (n > 0 ==> p != [])
      ensures |p| < n ==> readBuffer == []
      ensures taken == if old(readBuffer) == [] then old(taken) + [message] else old(taken)
      ensures AllPrefixed(taken) == given + Remaining()
    {
      if |readBuffer| == 0 {
        Fill(message);
      }
      p := Give(n);
    }

    /** `Write`: at most one message goes out per call; together with the buffer, what went out is what
        came in. */
    method Write(p: bytes)
      modifies this`writeBuffer, this`sent
      ensures AllPrefixed(sent) + writeBuffer == (AllPrefixed(old(sent)) + old(writeBuffer)) + p
      ensures |old(sent)| <= |sent| <= |old(sent)| + 1 && old(sent) <= sent
      ensures sent == old(sent) ==> |writeBuffer| < 4 || |writeBuffer| < Cbor.U32(writeBuffer) + 4
    {
      hide AllPrefixed, Cbor.BE32, Cbor.U32;
      assert (AllPrefixed(sent) + writeBuffer) + p == AllPrefixed(sent) + (writeBuffer + p);
      writeBuffer := writeBuffer + p;
      if |writeBuffer| < 4 {
        return;
      }
      var length := Cbor.U32(writeBuffer);
      if |writeBuffer| < length + 4 {
        return;
      }
      var message := writeBuffer[4..4 + length];
      Be32Undone(writeBuffer);
      OneMorePrefixed(sent, message);
      assert writeBuffer == (writeBuffer[..4] + message) + writeBuffer[4 + length..];
      sent := sent + [message];
      writeBuffer := writeBuffer[4 + length..];
    }
  }
}
