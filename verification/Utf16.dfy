/** JavaScript strings and the UTF-8 loops of the CBOR writer and reader.

    A JavaScript string is a sequence of 16-bit units.  The writer's own loop pairs surrogates
    when it can and writes a lone surrogate as three bytes; the reader's loop is its inverse on
    every string, well formed or not.  Only the platform's own encoder and decoder are pickier. */
module Utf16 {

  type byte = b: int | 0 <= b < 256
  type unit = u: int | 0 <= u < 65536
  type str = seq<unit>

  predicate IsHigh(u: unit) { 55296 <= u < 56320 }
  predicate IsLow(u: unit) { 56320 <= u < 57344 }

  /** The two units at the front of `s` are a surrogate pair. */
  predicate StartsWithPair(s: str) { |s| >= 2 && IsHigh(s[0]) && IsLow(s[1]) }

  /** Number of units the writer's loop consumes in one turn. */
  function Turn(s: str): (n: nat)
    requires s != []
    ensures 1 <= n <= |s|
  {
    if s[0] >= 2048 && StartsWithPair(s) then 2 else 1
  }

  /** The code point of a surrogate pair. */
  function CodePoint(hi: int, lo: int): (p: int)
    ensures 65536 <= p < 65536 + 1048576
  {
    65536 + (hi % 1024) * 1024 + lo % 1024
  }

  /** The bytes one turn of the writer's loop stores. */
  function TurnBytes(s: str): (bs: seq<byte>)
    requires s != []
    ensures 1 <= |bs| <= 4 && Turn(s) <= |bs| <= 3 * Turn(s)
  {
    var c := s[0];
    if c < 128 then [c]
    else if c < 2048 then [c / 64 + 192, c % 64 + 128]
    else if StartsWithPair(s) then
      var p := CodePoint(c, s[1]);
      [p / 262144 + 240, (p / 4096) % 64 + 128, (p / 64) % 64 + 128, p % 64 + 128]
    else [c / 4096 + 224, (c / 64) % 64 + 128, c % 64 + 128]
  }

  /** What the writer's loop stores for a whole string. */
  function Utf8(s: str): (bs: seq<byte>)
    ensures |s| <= |bs| <= 3 * |s|
  {
    if s == [] then [] else TurnBytes(s) + Utf8(s[Turn(s)..])
  }

  /** Every surrogate is part of a pair. */
  predicate WellFormed(s: str) {
    s == [] ||
    (if StartsWithPair(s) then WellFormed(s[2..])
     else !IsHigh(s[0]) && !IsLow(s[0]) && WellFormed(s[1..]))
  }

  /** The platform encoder replaces a lone surrogate by the replacement character. */
  function Scrub(s: str): (r: str)
    ensures |r| == |s|
  {
    if s == [] then []
    else if StartsWithPair(s) then s[..2] + Scrub(s[2..])
    else [if IsHigh(s[0]) || IsLow(s[0]) then 65533 else s[0]] + Scrub(s[1..])
  }

  lemma {:induction false} ScrubFixes(s: str)
    ensures WellFormed(Scrub(s))
    ensures Scrub(s) == s <==> WellFormed(s)
  {
    if s == [] {
    } else if StartsWithPair(s) {
      ScrubFixes(s[2..]);
      var r := Scrub(s);
      assert r[0] == s[0] && r[1] == s[1] && r[2..] == Scrub(s[2..]);
      assert StartsWithPair(r);
      assert s == s[..2] + s[2..];
    } else {
      ScrubFixes(s[1..]);
      var r := Scrub(s);
      assert r[1..] == Scrub(s[1..]);
      assert !StartsWithPair(r);
      assert s == [s[0]] + s[1..];
      assert WellFormed(r);
    }
  }

  /** A string or byte string read so far, and the bytes after it; or the end was overrun. */
  datatype Parsed<T> = Ok(value: T, rest: seq<byte>) | Err

  /** Length of the sequence the reader's loop takes for first byte `b`. */
  function SequenceLength(b: byte): (n: nat)
    ensures 1 <= n <= 4
  {
    if b < 128 then 1
    else if b / 32 == 6 then 2
    else if b / 16 == 14 then 3
    else if b / 8 == 30 then 4
    else 1
  }

  /** The units one turn of the reader's loop pushes. */
  function TurnUnits(bs: seq<byte>): (us: str)
    requires bs != [] && |bs| >= SequenceLength(bs[0])
    ensures 1 <= |us| <= 2
  {
    var b: int := bs[0];
    if b < 128 then [b]
    else if b / 32 == 6 then
      var b2: int := bs[1];
      [(b % 32) * 64 + b2 % 64]
    else if b / 16 == 14 then
      var b2: int, b3: int := bs[1], bs[2];
      [(b % 16) * 4096 + (b2 % 64) * 64 + b3 % 64]
    else if b / 8 == 30 then
      var b2: int, b3: int, b4: int := bs[1], bs[2], bs[3];
      var u: int := (b % 8) * 262144 + (b2 % 64) * 4096 + (b3 % 64) * 64 + b4 % 64;
      if u > 65535 then
        [((u - 65536) / 1024) % 1024 + 55296, 56320 + (u - 65536) % 1024]
      else [u]
    else [b]
  }

  /** The reader's loop: turns are taken until `n` bytes have been used up. */
  function Units(bs: seq<byte>, n: int): (r: Parsed<str>)
    ensures r.Ok? ==> |r.rest| <= |bs|
    decreases |bs|
  {
    if n <= 0 then Ok([], bs)
    else if bs == [] || |bs| < SequenceLength(bs[0]) then Err
    else
      var k := SequenceLength(bs[0]);
      match Units(bs[k..], n - k)
      case Err => Err
      case Ok(us, rest) => Ok(TurnUnits(bs) + us, rest)
  }

  lemma SplitThree(c: int)
    requires 2048 <= c < 65536
    ensures var b1 := c / 4096 + 224;
            b1 / 32 != 6 && b1 / 16 == 14 && b1 < 256 &&
            (b1 % 16) * 4096 + (((c / 64) % 64 + 128) % 64) * 64 + (c % 64 + 128) % 64 == c
  {
    var x, y, z := c / 4096, (c / 64) % 64, c % 64;
    assert c == x * 4096 + y * 64 + z;
    assert (y + 128) % 64 == y && (z + 128) % 64 == z;
    assert (x + 224) % 16 == x;
  }

  lemma SplitFour(p: int)
    requires 65536 <= p < 65536 + 1048576
    ensures var b1 := p / 262144 + 240;
            b1 / 16 == 15 && b1 / 8 == 30 && b1 < 256 &&
            (b1 % 8) * 262144 + (((p / 4096) % 64 + 128) % 64) * 4096
              + (((p / 64) % 64 + 128) % 64) * 64 + (p % 64 + 128) % 64 == p
  {
    var w, x, y, z := p / 262144, (p / 4096) % 64, (p / 64) % 64, p % 64;
    assert p / 64 == (p / 4096) * 64 + y;
    assert p / 4096 == w * 64 + x;
    Digits(w, x, y, z);
  }

  lemma Digits(w: int, x: int, y: int, z: int)
    requires 0 <= w <= 4 && 0 <= x < 64 && 0 <= y < 64 && 0 <= z < 64
    ensures (w + 240) / 16 == 15 && (w + 240) / 8 == 30
    ensures ((w + 240) % 8) * 262144 + ((x + 128) % 64) * 4096 + ((y + 128) % 64) * 64 + (z + 128) % 64
            == ((w * 64 + x) * 64 + y) * 64 + z
  {
    assert (x + 128) % 64 == x && (y + 128) % 64 == y && (z + 128) % 64 == z;
    assert (w + 240) % 8 == w;
  }

  lemma PairFromCodePoint(hi: int, lo: int)
    requires 55296 <= hi < 56320 && 56320 <= lo < 57344
    ensures var q := CodePoint(hi, lo) - 65536;
            (q / 1024) % 1024 + 55296 == hi && 56320 + q % 1024 == lo
  {
  }

  lemma SplitTwo(c: int)
    requires 128 <= c < 2048
    ensures var b1 := c / 64 + 192; 128 <= b1 < 224 && b1 / 32 == 6 && (b1 % 32) * 64 + (c % 64 + 128) % 64 == c
  {
    var x, y := c / 64, c % 64;
    assert c == x * 64 + y && (y + 128) % 64 == y && (x + 192) % 32 == x;
  }

  lemma TurnTwo(s: str, all: seq<byte>)
    requires s != [] && 128 <= s[0] < 2048 && |all| >= 2 && all[0] == s[0] / 64 + 192 && all[1] == s[0] % 64 + 128
    ensures SequenceLength(all[0]) == 2 && TurnUnits(all) == [s[0]]
  {
    SplitTwo(s[0]);
  }

  lemma TurnThree(s: str, all: seq<byte>)
    requires s != [] && s[0] >= 2048 && |all| >= 3
    requires all[0] == s[0] / 4096 + 224 && all[1] == (s[0] / 64) % 64 + 128 && all[2] == s[0] % 64 + 128
    ensures SequenceLength(all[0]) == 3 && TurnUnits(all) == [s[0]]
  {
    SplitThree(s[0]);
  }

  lemma TurnFour(s: str, all: seq<byte>)
    requires StartsWithPair(s) && |all| >= 4
    requires var p := CodePoint(s[0], s[1]);
             all[0] == p / 262144 + 240 && all[1] == (p / 4096) % 64 + 128 && all[2] == (p / 64) % 64 + 128 && all[3] == p % 64 + 128
    ensures SequenceLength(all[0]) == 4 && TurnUnits(all) == [s[0], s[1]]
  {
    var p := CodePoint(s[0], s[1]);
    SplitFour(p);
    PairFromCodePoint(s[0], s[1]);
    hide CodePoint;
  }

  /** One turn of the reader's loop takes back what one turn of the writer's loop stored. */
  lemma TurnRoundTrip(s: str, all: seq<byte>)
    requires s != [] && TurnBytes(s) <= all
    ensures var bs := TurnBytes(s);
            SequenceLength(all[0]) == |bs| && TurnUnits(all) == s[..Turn(s)]
  {
    var bs := TurnBytes(s);
    assert forall i :: 0 <= i < |bs| ==> all[i] == bs[i];
    hide CodePoint;
    if s[0] >= 128 {
      hide SequenceLength, TurnUnits;
      if s[0] < 2048 {
        TurnTwo(s, all);
      } else if StartsWithPair(s) {
        TurnFour(s, all);
      } else {
        TurnThree(s, all);
      }
    }
  }

  /** The reader's loop undoes the writer's loop on every string of units. */
  lemma {:induction false} UnitsUndoUtf8(s: str, rest: seq<byte>)
    ensures Units(Utf8(s) + rest, |Utf8(s)|) == Ok(s, rest)
  {
    hide TurnBytes, TurnUnits, SequenceLength, StartsWithPair;
    if s == [] {
      assert Utf8(s) == [] && [] + rest == rest;
    } else {
      var head, tail := TurnBytes(s), s[Turn(s)..];
      UnitsUndoUtf8(tail, rest);
      assert Utf8(s) == head + Utf8(tail);
      Split(head, Utf8(tail), rest);
      TurnRoundTrip(s, Utf8(s) + rest);
      hide Utf8, Units;
      UnitsStep(Utf8(s) + rest, |Utf8(s)|, |head|, Utf8(tail) + rest, tail, rest);
      assert s == s[..Turn(s)] + tail;
    }
  }

  lemma Split<T>(a: seq<T>, b: seq<T>, c: seq<T>)
    ensures (a + b) + c == a + (b + c)
    ensures ((a + b) + c)[|a|..] == b + c
    ensures a <= (a + b) + c
  {
  }

  lemma UnitsStep(all: seq<byte>, n: nat, k: nat, more: seq<byte>, us: str, rest: seq<byte>)
    requires 0 < n && 0 < k <= |all| && k == SequenceLength(all[0]) && all[k..] == more
    requires Units(more, n - k) == Ok(us, rest)
    ensures Units(all, n) == Ok(TurnUnits(all) + us, rest)
  {
  }

  lemma {:induction false} AsciiUnits(bs: seq<byte>, n: nat)
    requires n <= |bs|
    requires forall i :: 0 <= i < n ==> bs[i] < 128
    ensures Units(bs, n) == Ok(bs[..n], bs[n..])
  {
    if n > 0 {
      AsciiUnits(bs[1..], n - 1);
      assert [bs[0]] + bs[1..][..n - 1] == bs[..n];
      assert bs[1..][n - 1..] == bs[n..];
    } else {
      assert bs[..0] == [] && bs[0..] == bs;
    }
  }
}
