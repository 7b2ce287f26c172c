/** The writer's growing buffer, proved against `Cbor.Enc`: reallocation, the header guessed from
    the UTF-16 length and fixed by moving the text, and the object size written afterwards. */
module CborWriter {
  import opened Utf16
  import opened Cbor

  const MAX_BUFFER_SIZE := 2144337920

  /** Up to this size nothing is ever written beyond the largest buffer. */
  const LIMIT := MAX_BUFFER_SIZE - 10

  function Max(a: int, b: int): int { if a > b then a else b }
  function Min(a: int, b: int): int { if a < b then a else b }

  /** Size of the buffer `makeRoom(end)` allocates, `used` being `end - start`. */
  function NewSize(end: nat, used: nat, length: nat): (n: nat)
    requires used <= end
    ensures n >= Min(used + 10, MAX_BUFFER_SIZE)
  {
    if end > 67108864 then Min(MAX_BUFFER_SIZE, (Max(5 * used, 4 * 4194304) + 8192) / 16384 * 4096)
    else if end > 16777216 then Min(MAX_BUFFER_SIZE, (Max(2 * used, 4194304) + 2048) / 4096 * 4096)
    else (Max(4 * used, length - 1) / 4096 + 1) * 4096
  }

  /** Most bytes a value can take, counting three per UTF-16 unit. */
  function Bound(v: Value): (n: nat)
    ensures n >= 1
    decreases v
  {
    match v
    case Num(_) => 5
    case Big(_) => 9
    case Bytes(b) => 5 + |b|
    case Text(s) => 5 + 3 * |s|
    case Arr(items) => 5 + BoundItems(items)
    case Obj(es) => 3 + BoundEntries(es)
    case _ => 1
  }

  function BoundItems(items: seq<Value>): nat
    decreases items
  {
    if items == [] then 0 else Bound(items[0]) + BoundItems(items[1..])
  }

  function BoundEntries(es: seq<Entry>): nat
    decreases es
  {
    if es == [] then 0 else 5 + 3 * |es[0].key| + Bound(es[0].val) + BoundEntries(es[1..])
  }

  class Writer {
    const env: Env
    var target: array<byte>
    var position: nat
    var start: nat
    var safeEnd: int
    ghost var written: seq<byte>  // what the value under way has produced so far

    ghost predicate Valid()
      reads this, target
    {
      && start + |written| == position
      && safeEnd == target.Length - 10
      && (|written| <= LIMIT ==> position <= target.Length && target[start..position] == written)
    }

    /** `n` more bytes fit, or the buffer is as large as buffers get. */
    ghost predicate Room(n: nat)
      reads this
    {
      |written| <= MAX_BUFFER_SIZE ==> position + Min(n, MAX_BUFFER_SIZE - |written|) <= target.Length
    }

    /** The buffer is the old one or a new one, and earlier results in the old one are untouched. */
    twostate predicate Kept(buf: array<byte>)
      reads this, buf
    {
      && ((target == old(target) && start == old(start)) || fresh(target))
      && forall i :: 0 <= i < old(start) && i < buf.Length ==> buf[i] == old(buf[i])
    }

    /** The writer before its first use has no buffer; `encode` allocates 8192 bytes. */
    constructor (env: Env)
      ensures Valid() && this.env == env && fresh(target)
    {
      this.env := env;
      target := new byte[8192];
      position, start, safeEnd := 0, 0, 8182;
      written := [];
      new;
      assert target[0..0] == [];
    }

    method MakeRoom(end: nat) returns (ok: bool)
      requires Valid() && position <= end
      modifies this
      ensures Valid() && written == old(written)
      ensures ok == !(end > 16777216 && end - old(start) > MAX_BUFFER_SIZE)
      ensures ok ==> fresh(target) && start == 0
      ensures ok ==> target.Length >= Min(end - old(start) + 10, MAX_BUFFER_SIZE)
      ensures !ok ==> target == old(target) && start == old(start)
    {
      if end > 16777216 && end - start > MAX_BUFFER_SIZE {
        return false;
      }
      var size := NewSize(end, end - start, target.Length);
      hide NewSize;
      assert size >= Min(end - start + 10, MAX_BUFFER_SIZE);
      var newBuffer := new byte[size];
      var stop := Min(end, target.Length);
      var from, here := start, target;
      forall i | 0 <= i < stop - from {
        newBuffer[i] := here[from + i];
      }
      target, position, start, safeEnd := newBuffer, position - start, 0, size - 10;
      ok := true;
      if |written| <= LIMIT {
        CopiedFront(target[..], here[..], from, |written|);
        assert target[0..position] == target[..][..|written|] && here[from..from + |written|] == here[..][from..from + |written|];
      }
    }

    /** `target[position++] = b`; a store past the end of a typed array is dropped. */
    method Put(b: byte)
      requires Valid() && Room(1)
      modifies this`position, this`written, target
      ensures Valid() && position == old(position) + 1 && written == old(written) + [b]
      ensures forall i :: 0 <= i < target.Length && i != old(position) ==> target[i] == old(target[i])
    {
      ghost var before := target[..];
      if position < target.Length {
        target[position] := b;
      }
      if |written| < LIMIT {
        OneMore(before, target[..], start, position, b);
      }
      position := position + 1;
      written := written + [b];
    }

    /** `targetView.setUint32(position, n); position += 4`, which throws past the end. */
    method PutUint32(n: int) returns (ok: bool)
      requires Valid() && Room(4) && 0 <= n < 0x1_0000_0000
      modifies this`position, this`written, target
      ensures Valid()
      ensures ok ==> position == old(position) + 4 && written == old(written) + BE32(n)
      ensures !ok ==> position == old(position) && written == old(written) && |written| + 4 > LIMIT
      ensures forall i :: 0 <= i < target.Length && !(old(position) <= i < old(position) + 4)
                ==> target[i] == old(target[i])
    {
      if position + 4 > target.Length {
        return false;
      }
      var bs := BE32(n);
      ghost var w := written;
      Put(bs[0]);
      Put(bs[1]);
      Put(bs[2]);
      Put(bs[3]);
      assert written == w + bs;
      ok := true;
    }

    /** The two stores of a 16-bit length. */
    method PutUint16(n: int)
      requires Valid() && Room(2) && 0 <= n < 0x1_0000
      modifies this`position, this`written, target
      ensures Valid() && position == old(position) + 2 && written == old(written) + BE16(n)
      ensures forall i :: 0 <= i < target.Length && !(old(position) <= i < old(position) + 2)
                ==> target[i] == old(target[i])
    {
      ghost var w := written;
      Put(n / 256);
      Put(n % 256);
      assert written == w + BE16(n);
    }

    /** Initial byte and length, shortest form. */
    method PutHead(major: int, n: int) returns (ok: bool)
      requires Valid() && Room(5) && 0 <= major < 7 && 0 <= n < 0x1_0000_0000
      modifies this`position, this`written, target
      ensures Valid()
      ensures ok ==> position == old(position) + |Head(major, n)| && written == old(written) + Head(major, n)
      ensures !ok ==> |old(written)| + 5 > LIMIT
      ensures forall i :: 0 <= i < target.Length && (i < old(position) || (ok && position <= i))
                ==> target[i] == old(target[i])
    {
      ok := true;
      if n < 24 {
        Put(32 * major + n);
      } else if n < 256 {
        Put(32 * major + 24);
        Put(n);
      } else if n < 0x1_0000 {
        Put(32 * major + 25);
        PutUint16(n);
      } else {
        Put(32 * major + 26);
        ok := PutUint32(n);
      }
    }

    /** The UTF-8 loop, storing from `at` on; `native` is the platform encoder, which pairs or
        replaces surrogates and stops where the buffer is full. */
    method WriteUnits(s: str, at: nat, native: bool) returns (end: nat)
      modifies target
      ensures at <= end <= at + |Utf8(s)|
      ensures forall i :: 0 <= i < target.Length && i < at ==> target[i] == old(target[i])
      ensures at + |Utf8(s)| <= target.Length ==> end == at + |Utf8(s)| && target[at..end] == Utf8(s)
      ensures end == at + |Utf8(s)| || (native && at + |Utf8(s)| > target.Length && end + 4 > target.Length)
    {
      hide Utf8, TurnBytes, StartsWithPair, Turn;
      end := at;
      var i := 0;
      ghost var all := Utf8(s);
      while i < |s|
        invariant 0 <= i <= |s| && at <= end <= at + 3 * i
        invariant (end - at) + |Utf8(s[i..])| == |all|
        invariant end <= target.Length ==> target[at..end] + Utf8(s[i..]) == all
        invariant forall j :: 0 <= j < target.Length && j < at ==> target[j] == old(target[j])
      {
        var rest := s[i..];
        var bs := TurnBytes(rest);
        ghost var next := s[i + Turn(rest)..];
        assert rest[Turn(rest)..] == next;
        Utf8Step(rest);
        if native && end + |bs| > target.Length {
          return;
        }
        if end + |bs| <= target.Length {
          Split(target[at..end], bs, Utf8(next));
        }
        Store(at, end, bs);
        end := end + |bs|;
        i := i + Turn(rest);
      }
      assert s[i..] == [];
      Utf8Empty();
    }

    /** Consecutive element stores from `at`, behind what was stored from `lo` on; stores past the
        end are dropped. */
    method Store(ghost lo: nat, at: nat, bs: seq<byte>)
      requires lo <= at
      modifies target
      ensures forall i :: 0 <= i < target.Length && i < lo ==> target[i] == old(target[i])
      ensures at + |bs| <= target.Length ==> target[lo..at + |bs|] == old(target[lo..at]) + bs
    {
      ghost var before := target[..];
      forall i | at <= i < at + |bs| && i < target.Length {
        target[i] := bs[i - at];
      }
      if at + |bs| <= target.Length {
        assert target[lo..at + |bs|] == before[lo..at] + bs;
      }
    }

    /** `target.copyWithin(to, from, end)`. */
    method CopyWithin(to: nat, from: nat, end: nat)
      requires from <= to && from <= end
      modifies target
      ensures forall i :: 0 <= i < target.Length && i < to ==> target[i] == old(target[i])
      ensures to + (end - from) <= target.Length ==>
                target[to..to + (end - from)] == old(target[from..end])
    {
      ghost var before := target[..];
      forall i | to <= i < to + (end - from) && i < target.Length && from + (i - to) < target.Length {
        target[i] := target[from + (i - to)];
      }
      if to + (end - from) <= target.Length {
        assert target[to..to + (end - from)] == before[from..end];
      }
    }

    /** The check before a write: `k` bytes and ten more are available afterwards. */
    method Reserve(k: nat) returns (ok: bool)
      requires Valid()
      modifies this
      ensures Valid() && written == old(written) && Kept(old(target))
      ensures ok ==> Room(k + 10)
      ensures |written| + k <= LIMIT ==> ok
    {
      ok := true;
      if position + k > safeEnd {
        ok := MakeRoom(position + k);
      }
    }

    /** The check every value starts with, then the one for a string's worst case. */
    method ReserveText(maxBytes: nat) returns (ok: bool)
      requires Valid()
      modifies this
      ensures Valid() && written == old(written) && Kept(old(target))
      ensures ok ==> Room(maxBytes + 10)
      ensures |written| + maxBytes <= LIMIT ==> ok
    {
      ok := Reserve(0);
      if !ok { return; }
      ok := Reserve(maxBytes);
    }

    /** Header length guessed from the number of UTF-16 units. */
    function GuessHeader(units: nat): (n: nat)
      ensures n in {1, 2, 3, 5}
    {
      if units < 32 then 1 else if units < 256 then 2 else if units < 0x1_0000 then 3 else 5
    }

    /** The guess is never too long and at most one step too short, whatever the text. */
    lemma GuessIsClose(units: nat, length: nat)
      requires units <= length <= 3 * units && length < 0x1_0000_0000
      ensures GoodGuess(GuessHeader(units), length)
    {
    }

    /** The text behind the place of its header. */
    method StoreText(s: str, headerSize: nat, native: bool) returns (end: nat)
      requires Valid() && Room(3 * |s| + 10) && |s| < 0x4000_0000
      modifies target
      ensures Valid() && Room(|Utf8(s)| + 10)
      ensures forall i :: 0 <= i < position && i < target.Length ==> target[i] == old(target[i])
      ensures var at := position + headerSize;
              && at <= end <= at + |Utf8(s)|
              && (at + |Utf8(s)| <= target.Length ==> end == at + |Utf8(s)| && target[at..end] == Utf8(s))
              && (end < at + |Utf8(s)| ==> end + 4 > target.Length)
    {
      hide Utf8;
      ghost var before := target[..];
      end := WriteUnits(s, position + headerSize, native);
      assert forall i :: 0 <= i < position && i < target.Length ==> target[i] == before[i];
      if |written| <= LIMIT {
        assert target[start..position] == before[start..position];
      }
    }

    method EncodeText(s: str) returns (ok: bool)
      requires Valid() && |s| < 0x4000_0000
      modifies this, target
      ensures Valid() && Kept(old(target))
      ensures ok ==> |old(written)| <= |written| <= |old(written)| + 5 + 3 * |s|
      ensures ok && |written| <= LIMIT ==> written == old(written) + EncText(s, env)
      ensures |old(written)| + 5 + 3 * |s| <= LIMIT ==> ok
    {
      hide Head, Utf8, Scrub, TurnBytes, GoodGuess, EncText, TextBytes;
      ok := ReserveText(3 * |s|);
      if !ok { return; }
      var headerSize := GuessHeader(|s|);
      var native := |s| >= 64 && env.encodeUtf8;
      var sent := if native then Scrub(s) else s;
      TextIs(s, env, sent);
      hide Valid, Room, GuessHeader;
      ok := StoreAndPlace(sent, headerSize, native);
    }

    /** The text behind the guessed place, then its header. */
    method StoreAndPlace(s: str, headerSize: nat, native: bool) returns (ok: bool)
      requires Valid() && Room(3 * |s| + 10) && |s| < 0x4000_0000 && headerSize == GuessHeader(|s|)
      modifies this`position, this`written, target
      ensures Valid()
      ensures forall i :: 0 <= i < old(position) && i < target.Length ==> target[i] == old(target[i])
      ensures ok ==> |old(written)| <= |written| <= |old(written)| + 5 + |Utf8(s)|
      ensures ok && |written| <= LIMIT ==> written == old(written) + (Head(3, |Utf8(s)|) + Utf8(s))
      ensures |old(written)| + 5 + |Utf8(s)| <= LIMIT ==> ok
    {
      hide Head, Utf8, GoodGuess, Valid, Room;
      var end := StoreText(s, headerSize, native);
      var length := end - position - headerSize;
      GuessIsClose(|s|, |Utf8(s)|);
      hide GuessHeader;
      ok := PlaceText(length, headerSize, Utf8(s));
    }

    /** With the text stored behind the guessed header: move it if the guess was short. */
    method MoveText(length: nat, headerSize: nat, ghost text: seq<byte>)
      requires length < 0x1_0000_0000
      requires headerSize in {1, 2, 3, 5} && length == |text| ==> GoodGuess(headerSize, length)
      modifies target
      ensures forall i :: 0 <= i <= position && i < target.Length ==> target[i] == old(target[i])
      ensures length == |text| && headerSize in {1, 2, 3, 5} ==>
                var at := position + |Head(3, length)|;
                at + length <= target.Length && old(target[position + headerSize..position + headerSize + length]) == text
                ==> target[at..at + length] == text
    {
      hide Head;
      HeadSize(length);
      var p := position;
      if length < 24 {
      } else if length < 256 {
        if headerSize < 2 { CopyWithin(p + 2, p + 1, p + 1 + length); }
      } else if length < 0x1_0000 {
        if headerSize < 3 { CopyWithin(p + 3, p + 2, p + 2 + length); }
      } else {
        if headerSize < 5 { CopyWithin(p + 5, p + 3, p + 3 + length); }
      }
    }

    /** Within the limit, the text is then where it belongs. */
    method MakeTextReady(length: nat, headerSize: nat, ghost text: seq<byte>)
      requires Valid() && Room(|text| + 10) && |text| < 0x1_0000_0000
      requires headerSize in {1, 2, 3, 5} && length <= |text|
      requires GoodGuess(headerSize, |text|)
      requires position + headerSize + |text| <= target.Length ==>
                 length == |text| && target[position + headerSize..position + headerSize + length] == text
      requires length < |text| ==> position + headerSize + length + 4 > target.Length
      modifies target
      ensures Valid() && Room(5)
      ensures forall i :: 0 <= i < position && i < target.Length ==> target[i] == old(target[i])
      ensures var at := position + |Head(3, length)|;
              |written| + |Head(3, length)| + length <= LIMIT ==>
                at + length <= target.Length && length == |text| && target[at..at + length] == text
    {
      hide BE16, BE32, Head;
      EnoughRoom(text);
      ghost var before := target[..];
      MoveText(length, headerSize, text);
      if |written| <= LIMIT {
        assert target[start..position] == before[start..position];
      }
    }

    /** ... and write the header in front of it. */
    method PutTextHead(length: nat, headerSize: nat, ghost text: seq<byte>) returns (ok: bool)
      requires Valid() && Room(|text| + 10) && |text| < 0x1_0000_0000
      requires headerSize in {1, 2, 3, 5} && length <= |text|
      requires GoodGuess(headerSize, |text|)
      requires position + headerSize + |text| <= target.Length ==>
                 length == |text| && target[position + headerSize..position + headerSize + length] == text
      requires length < |text| ==> position + headerSize + length + 4 > target.Length
      modifies this`position, this`written, target
      ensures Valid()
      ensures forall i :: 0 <= i < old(position) && i < target.Length ==> target[i] == old(target[i])
      ensures ok ==> |old(written)| <= |written| <= |old(written)| + 5
      ensures ok && |written| + length <= LIMIT ==> written == old(written) + Head(3, |text|) && length == |text|
      ensures ok && |written| + length <= LIMIT ==> position + length <= target.Length && target[position..position + length] == text
      ensures |old(written)| + 5 + |text| <= LIMIT ==> ok
    {
      hide BE16, BE32, Head, GoodGuess, Valid, Room;
      MakeTextReady(length, headerSize, text);
      ghost var moved := target[..];
      ok := PutHead(3, length);
      if !ok { return; }
      ghost var now := target[..];
      if |written| + length <= LIMIT {
        SameSlice(now, moved, position, position + length);
        assert target[position..position + length] == now[position..position + length];
      }
    }

    lemma EnoughRoom(text: seq<byte>)
      requires Valid() && Room(|text| + 10)
      ensures Room(5)
    {
    }

    method PlaceText(length: nat, headerSize: nat, ghost text: seq<byte>) returns (ok: bool)
      requires Valid() && Room(|text| + 10) && |text| < 0x1_0000_0000
      requires headerSize in {1, 2, 3, 5} && length <= |text|
      requires GoodGuess(headerSize, |text|)
      requires position + headerSize + |text| <= target.Length ==>
                 length == |text| && target[position + headerSize..position + headerSize + length] == text
      requires length < |text| ==> position + headerSize + length + 4 > target.Length
      modifies this`position, this`written, target
      ensures Valid()
      ensures forall i :: 0 <= i < old(position) && i < target.Length ==> target[i] == old(target[i])
      ensures ok ==> |old(written)| <= |written| <= |old(written)| + 5 + length
      ensures ok && |written| <= LIMIT ==> written == old(written) + (Head(3, |text|) + text)
      ensures |old(written)| + 5 + |text| <= LIMIT ==> ok
    {
      hide Head, Valid, GoodGuess;
      ok := PutTextHead(length, headerSize, text);
      if !ok { return; }
      Finish(length, text);
    }

    /** `position += length` over text that is already there. */
    method Finish(length: nat, ghost text: seq<byte>)
      requires Valid()
      requires |written| + length <= LIMIT ==>
                 position + length <= target.Length && length == |text| && target[position..position + length] == text
      modifies this`position, this`written
      ensures Valid() && position == old(position) + length
      ensures |written| == |old(written)| + length
      ensures |written| <= LIMIT ==> written == old(written) + text
    {
      if |written| + length <= LIMIT {
        assert target[start..position + length] == target[start..position] + target[position..position + length];
        written := written + text;
      } else {
        written := written + seq(length, _ => 0);
      }
      position := position + length;
    }

    /** One value, after whatever was written before. */
    method Encode2(v: Value) returns (ok: bool)
      requires Valid() && IsJs(v)
      modifies this, target
      ensures Valid() && Kept(old(target))
      ensures ok ==> |old(written)| <= |written| <= |old(written)| + Bound(v)
      ensures ok && |written| <= LIMIT ==> written == old(written) + Enc(v, env)
      ensures |old(written)| + Bound(v) <= LIMIT ==> ok
      decreases v, 1
    {
      hide Enc, EncText, Bound;
      match v
      case Text(s) =>
        EncOfText(s, env);
        ok := EncodeText(s);
      case Arr(items) => ok := WriteArray(items);
      case Obj(es) => ok := WriteObject(es);
      case Bytes(b) => ok := WriteBuffer(b);
      case Big(i) => ok := WriteBigint(i);
      case _ => ok := WriteSmall(v);
    }

    method WriteSmall(v: Value) returns (ok: bool)
      requires Valid() && IsJs(v) && (v.Null? || v.Undefined? || v.Bool? || v.Num?)
      modifies this, target
      ensures Valid() && Kept(old(target))
      ensures ok ==> |old(written)| <= |written| <= |old(written)| + Bound(v)
      ensures ok && |written| <= LIMIT ==> written == old(written) + Enc(v, env)
      ensures |old(written)| + Bound(v) <= LIMIT ==> ok
    {
      hide Head;
      ok := Reserve(0);
      if !ok { return; }
      if v.Num? {
        ok := PutHead(if v.n >= 0 then 0 else 1, if v.n >= 0 then v.n else -1 - v.n);
      } else if v.Bool? {
        Put(if v.b then 245 else 244);
      } else {
        Put(if v.Null? then 246 else 247);
      }
    }

    method WriteBigint(i: int) returns (ok: bool)
      requires Valid() && IsJs(Big(i))
      modifies this, target
      ensures Valid() && Kept(old(target))
      ensures ok ==> |old(written)| <= |written| <= |old(written)| + Bound(Big(i))
      ensures ok && |written| <= LIMIT ==> written == old(written) + Enc(Big(i), env)
      ensures |old(written)| + Bound(Big(i)) <= LIMIT ==> ok
    {
      hide BE64, Enc, Bound;
      EncOfBig(i, env);
      ok := Reserve(0);
      if !ok { return; }
      Put(if i >= 0 then 27 else 59);
      ok := PutUint64(if i >= 0 then i else -1 - i);
    }

    /** `targetView.setBigUint64(position, n); position += 8`, which throws past the end. */
    method PutUint64(n: int) returns (ok: bool)
      requires Valid() && Room(8) && 0 <= n < 0x1_0000_0000_0000_0000
      modifies this`position, this`written, target
      ensures Valid()
      ensures ok ==> position == old(position) + 8 && written == old(written) + BE64(n)
      ensures !ok ==> |old(written)| + 8 > LIMIT
      ensures forall i :: 0 <= i < target.Length && i < old(position) ==> target[i] == old(target[i])
    {
      hide BE32;
      if position + 8 > target.Length {
        return false;
      }
      ghost var w := written;
      ok := PutUint32(n / 0x1_0000_0000);
      if !ok { return; }
      ok := PutUint32(n % 0x1_0000_0000);
      assert ok ==> written == w + BE64(n);
    }

    /** A byte array: the header needs no check of its own, the contents have one. */
    method WriteBuffer(b: seq<byte>) returns (ok: bool)
      requires Valid() && IsJs(Bytes(b))
      modifies this, target
      ensures Valid() && Kept(old(target))
      ensures ok ==> |old(written)| <= |written| <= |old(written)| + Bound(Bytes(b))
      ensures ok && |written| <= LIMIT ==> written == old(written) + Enc(Bytes(b), env)
      ensures |old(written)| + Bound(Bytes(b)) <= LIMIT ==> ok
    {
      hide Head, Enc, Bound, Valid;
      EncOfBytes(b, env);
      ok := Reserve(0);
      if !ok { return; }
      ok := PutHead(2, |b|);
      if !ok { return; }
      ok := GrowFor(b);
    }

    /** The rest of `writeBuffer`: its own check, then the contents. */
    method GrowFor(b: seq<byte>) returns (ok: bool)
      requires Valid()
      modifies this, target
      ensures Valid() && Kept(old(target))
      ensures ok ==> |written| == |old(written)| + |b|
      ensures ok && |written| <= LIMIT ==> written == old(written) + b
      ensures |old(written)| + |b| <= LIMIT ==> ok
    {
      if position + |b| >= target.Length {
        ok := MakeRoom(position + |b|);
        if !ok { return; }
      }
      ok := SetBytes(b);
    }

    /** `target.set(buffer, position); position += length`, which throws when it does not fit. */
    method SetBytes(b: seq<byte>) returns (ok: bool)
      requires Valid()
      modifies this`position, this`written, target
      ensures Valid()
      ensures ok == (old(position) + |b| <= target.Length)
      ensures ok ==> |written| == |old(written)| + |b|
      ensures ok && |written| <= LIMIT ==> written == old(written) + b
      ensures forall i :: 0 <= i < target.Length && i < old(position) ==> target[i] == old(target[i])
    {
      if position + |b| > target.Length {
        return false;
      }
      ghost var before := target[..];
      Store(position, position, b);
      if |written| <= LIMIT {
        assert target[start..position] == before[start..position];
      }
      Finish(|b|, b);
      ok := true;
    }

    method WriteArray(items: seq<Value>) returns (ok: bool)
      requires Valid() && IsJs(Arr(items))
      modifies this, target
      ensures Valid() && Kept(old(target))
      ensures ok ==> |old(written)| <= |written| <= |old(written)| + Bound(Arr(items))
      ensures ok && |written| <= LIMIT ==> written == old(written) + Enc(Arr(items), env)
      ensures |old(written)| + Bound(Arr(items)) <= LIMIT ==> ok
      decreases items, 1
    {
      ok := Reserve(0);
      if !ok { return; }
      hide Head, EncItems, BoundItems;
      Split(written, Head(4, |items|), EncItems(items, env));
      ok := PutHead(4, |items|);
      if !ok { return; }
      ok := WriteItems(items);
    }

    method WriteItems(items: seq<Value>) returns (ok: bool)
      requires Valid() && forall x :: x in items ==> IsJs(x)
      modifies this, target
      ensures Valid() && Kept(old(target))
      ensures ok ==> |old(written)| <= |written| <= |old(written)| + BoundItems(items)
      ensures ok && |written| <= LIMIT ==> written == old(written) + EncItems(items, env)
      ensures |old(written)| + BoundItems(items) <= LIMIT ==> ok
      decreases items, 0
    {
      hide Enc, Bound, IsJs;
      ok := true;
      ghost var goal := written + EncItems(items, env);
      ghost var most := |written| + BoundItems(items);
      var i := 0;
      while i < |items|
        invariant 0 <= i <= |items| && ok
        invariant Valid() && Kept(old(target))
        invariant |old(written)| <= |written| && |written| + BoundItems(items[i..]) <= most
        invariant |written| <= LIMIT ==> written + EncItems(items[i..], env) == goal
      {
        ghost var next := items[i + 1..];
        assert items[i..][1..] == next;
        Split(written, Enc(items[i], env), EncItems(next, env));
        assert EncItems(items[i..], env) == Enc(items[i], env) + EncItems(next, env);
        ok := Encode2(items[i]);
        if !ok { return; }
        i := i + 1;
      }
      assert items[i..] == [];
    }

    /** An object: three bytes of header, the count filled in when all properties are out. */
    method WriteObject(es: seq<Entry>) returns (ok: bool)
      requires Valid() && IsJs(Obj(es))
      modifies this, target
      ensures Valid() && Kept(old(target))
      ensures ok ==> |old(written)| <= |written| <= |old(written)| + Bound(Obj(es))
      ensures ok && |written| <= LIMIT ==> written == old(written) + Enc(Obj(es), env)
      ensures |old(written)| + Bound(Obj(es)) <= LIMIT ==> ok
      decreases es, 1
    {
      hide EncEntries, BoundEntries, Bound, Enc;
      ok := Reserve(0);
      if !ok { return; }
      EntriesAreJs(es);
      hide IsJs;
      ghost var w := written;
      Put(185);
      var objectOffset := position - start;
      ghost var hole := Skip();
      ok := WriteEntries(es);
      if !ok { return; }
      Patch(objectOffset, |es| / 256 % 256, |es| % 256, w + [185], hole, EncEntries(es, env));
      EncObj(es, env, w);
    }

    /** `position += 2`: two bytes to be filled in later. */
    method Skip() returns (ghost hole: seq<byte>)
      requires Valid() && Room(2)
      modifies this`position, this`written
      ensures Valid() && |hole| == 2 && written == old(written) + hole && position == old(position) + 2
    {
      hole := if position + 2 <= target.Length then target[position..position + 2] else [0, 0];
      if |written| + 2 <= LIMIT {
        assert target[start..position + 2] == target[start..position] + hole;
      }
      position := position + 2;
      written := written + hole;
    }

    method Patch(objectOffset: nat, hi: byte, lo: byte, ghost before: seq<byte>, ghost hole: seq<byte>, ghost after: seq<byte>)
      requires Valid() && |before| == objectOffset && |hole| == 2 && objectOffset + 2 <= |written|
      requires |written| <= LIMIT ==> written == before + hole + after
      modifies target, this`written
      ensures Valid() && |written| == |old(written)|
      ensures |written| <= LIMIT ==> written == before + [hi, lo] + after
      ensures forall i :: 0 <= i < target.Length && i < start ==> target[i] == old(target[i])
    {
      ghost var was := target[..];
      if objectOffset + start < target.Length {
        target[objectOffset + start] := hi;
      }
      if objectOffset + 1 + start < target.Length {
        target[objectOffset + 1 + start] := lo;
      }
      if |written| <= LIMIT {
        assert was[start..position] == before + hole + after;
        written := before + [hi, lo] + after;
        assert target[start..position] == written;
      }
    }

    method WriteEntries(es: seq<Entry>) returns (ok: bool)
      requires Valid() && forall e :: e in es ==> |e.key| < 0x4000_0000 && IsJs(e.val)
      modifies this, target
      ensures Valid() && Kept(old(target))
      ensures ok ==> |old(written)| <= |written| <= |old(written)| + BoundEntries(es)
      ensures ok && |written| <= LIMIT ==> written == old(written) + EncEntries(es, env)
      ensures |old(written)| + BoundEntries(es) <= LIMIT ==> ok
      decreases es, 0
    {
      hide Enc, EncText, Bound, IsJs, EncEntries, BoundEntries;
      ok := true;
      assert es[0..] == es;
      ghost var goal := written + EncEntries(es, env);
      ghost var most := |written| + BoundEntries(es);
      var i := 0;
      while i < |es|
        invariant 0 <= i <= |es| && ok
        invariant Valid() && Kept(old(target))
        invariant |old(written)| <= |written| && |written| + BoundEntries(es[i..]) <= most
        invariant |written| <= LIMIT ==> written + EncEntries(es[i..], env) == goal
      {
        ghost var next := es[i + 1..];
        EntriesStep(es, i, env);
        ghost var k, v, r := EncText(es[i].key, env), Enc(es[i].val, env), EncEntries(next, env);
        Split(written, k, v + r);
        Split(written + k, v, r);
        ok := EncodeText(es[i].key);
        if !ok { return; }
        ok := Encode2(es[i].val);
        if !ok { return; }
        i := i + 1;
      }
      assert es[i..] == [];
      NoEntries(env);
    }

    /** `encode(value)`: the bytes between `start` and `position` of the buffer.  On success and
        within the limit they are the encoding; a value whose worst case is within the limit always
        succeeds; and the bytes of earlier results, which are views of the same buffer, stay. */
    method Encode(v: Value) returns (ok: bool, bytes: seq<byte>)
      requires Valid() && IsJs(v)
      modifies this, target
      ensures Valid()
      ensures ok && position - start <= 2144337910 ==> bytes == Enc(v, env)
      ensures Bound(v) <= 2144337910 ==> ok && position - start <= Bound(v)
      ensures forall i :: 0 <= i < old(position) && i < old(target).Length ==> old(target)[i] == old(target[i])
    {
      bytes := [];
      safeEnd := target.Length - 10;
      if safeEnd - position < 2048 {
        target := new byte[target.Length];
        position := 0;
      }
      start := position;
      written := [];
      assert start <= target.Length ==> target[start..start] == [];
      ok := Encode2(v);
      if ok {
        bytes := target[Min(start, target.Length)..Min(position, target.Length)];
      }
    }
  }

  lemma EncOfBig(i: int, env: Env)
    requires IsJs(Big(i))
    ensures Enc(Big(i), env) == [if i >= 0 then 27 else 59] + BE64(if i >= 0 then i else -1 - i)
    ensures Bound(Big(i)) >= 9
  {
  }

  lemma EncOfBytes(b: seq<byte>, env: Env)
    requires IsJs(Bytes(b))
    ensures |b| < 0x1_0000_0000 && Enc(Bytes(b), env) == Head(2, |b|) + b && Bound(Bytes(b)) == 5 + |b|
  {
  }

  lemma SameSlice(a: seq<byte>, b: seq<byte>, lo: nat, hi: nat)
    requires |a| == |b| && lo <= hi <= |a| && forall i :: lo <= i < hi ==> a[i] == b[i]
    ensures a[lo..hi] == b[lo..hi]
  {
  }

  lemma EncOfText(s: str, env: Env)
    requires |s| < 0x4000_0000
    ensures Enc(Text(s), env) == EncText(s, env) && Bound(Text(s)) == 5 + 3 * |s|
  {
  }

  lemma EntriesAreJs(es: seq<Entry>)
    requires IsJs(Obj(es))
    ensures forall e :: e in es ==> |e.key| < 0x4000_0000 && IsJs(e.val)
    ensures Bound(Obj(es)) == 3 + BoundEntries(es)
  {
  }

  lemma EntriesStep(es: seq<Entry>, i: nat, env: Env)
    requires i < |es| && forall e :: e in es ==> |e.key| < 0x4000_0000 && IsJs(e.val)
    ensures EncEntries(es[i..], env) == EncText(es[i].key, env) + (Enc(es[i].val, env) + EncEntries(es[i + 1..], env))
    ensures BoundEntries(es[i..]) == 5 + 3 * |es[i].key| + Bound(es[i].val) + BoundEntries(es[i + 1..])
  {
    hide Enc, EncText, Bound, IsJs;
    assert es[i..][1..] == es[i + 1..];
  }

  lemma NoEntries(env: Env)
    ensures EncEntries([], env) == [] && BoundEntries([]) == 0
  {
  }

  lemma OneMore(a: seq<byte>, b: seq<byte>, lo: nat, p: nat, x: byte)
    requires |a| == |b| && lo <= p < |b| && b[p] == x && forall i :: lo <= i < p ==> b[i] == a[i]
    ensures b[lo..p + 1] == a[lo..p] + [x]
  {
  }

  lemma CopiedFront(a: seq<byte>, b: seq<byte>, from: nat, n: nat)
    requires n <= |a| && from + n <= |b| && forall i :: 0 <= i < n ==> a[i] == b[from + i]
    ensures a[..n] == b[from..from + n]
  {
  }

  lemma TextIs(s: str, env: Env, sent: str)
    requires |s| < 0x4000_0000 && sent == if |s| >= 64 && env.encodeUtf8 then Scrub(s) else s
    ensures |sent| == |s| && EncText(s, env) == Head(3, |Utf8(sent)|) + Utf8(sent)
  {
  }

  lemma Utf8Step(s: str)
    requires s != []
    ensures Utf8(s) == TurnBytes(s) + Utf8(s[Turn(s)..])
  {
  }

  lemma Utf8Empty()
    ensures Utf8([]) == []
  {
  }

  /** The encoding of an object, its count patched in. */
  lemma EncObj(es: seq<Entry>, env: Env, w: seq<byte>)
    requires IsJs(Obj(es))
    ensures Bound(Obj(es)) == 3 + BoundEntries(es)
    ensures w + Enc(Obj(es), env) == w + [185] + [|es| / 256 % 256, |es| % 256] + EncEntries(es, env)
  {
    hide EncEntries, BoundEntries;
    CountBytes(|es|);
    var count := BE16(|es| % 0x1_0000);
    Split(w, [185] + count, EncEntries(es, env));
    assert w + ([185] + count) == w + [185] + count;
  }

  lemma CountBytes(n: nat)
    ensures BE16(n % 0x1_0000) == [n / 256 % 256, n % 256]
  {
    var q, r := n / 256, n % 256;
    var a := q % 256;
    assert q == (q / 256) * 256 + a;
    Wrap(q / 256, a * 256 + r);
    Low(a, r);
  }

  lemma Wrap(k: nat, r: int)
    requires 0 <= r < 0x1_0000
    ensures (k * 0x1_0000 + r) % 0x1_0000 == r
  {
  }

  lemma Low(a: int, r: int)
    requires 0 <= a < 256 && 0 <= r < 256
    ensures (a * 256 + r) / 256 == a && (a * 256 + r) % 256 == r
  {
  }

  /** The header needed for `length` bytes is the guessed one or the next longer one. */
  lemma HeadSize(length: nat)
    requires length < 0x1_0000_0000
    ensures |Head(3, length)| == if length < 24 then 1 else if length < 256 then 2 else if length < 0x1_0000 then 3 else 5
  {
  }

  predicate GoodGuess(guess: int, length: nat)
    requires length < 0x1_0000_0000
  {
    var need := |Head(3, length)|;
    need == guess || (guess, need) in {(1, 2), (2, 3), (3, 5)}
  }
}
