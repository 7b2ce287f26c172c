/** The bytes the codec writes and reads, against section 3 of RFC 8949 and its Appendix A: which initial byte,
    which argument, and that what is written could not be shorter. */
module CborFormat {
  import opened Utf16
  import opened Cbor
  import opened CborRoundTrip
  import opened Numbers

  // ---------------------------------------------------------------------------- the header

  /** Bytes of the argument after the initial byte, by its low five bits; section 3 of RFC 8949. */
  function Width(info: int): int {
    if info < 24 then 0 else if info == 24 then 1 else if info == 25 then 2 else if info == 26 then 4
    else if info == 27 then 8 else -1
  }

  function Argument(s: seq<byte>, width: nat): int
    requires |s| > width
  {
    if width == 0 then s[0] % 32 else BigEndian(s[1..1 + width])
  }

  /** The reader takes the major type from the top three bits and the argument, in any of its five widths, in
      network byte order.  What it does not take: tags, simple values but the four constants, lengths beyond 32 bits
      and anything cut off. */
  lemma DecHeadIs(s: seq<byte>)
    ensures DecHead(s) ==
      if s == [] then Err else
      var major, width := s[0] / 32, Width(s[0] % 32);
      if width < 0 || |s| <= width || major == 6 || (major == 7 && !(20 <= s[0] % 32 < 24))
         || (width == 8 && major > 1 && Argument(s, width) >= 0x1_0000_0000) then Err
      else Ok(Header(major, Argument(s, width), width == 8 && major <= 1), s[1 + width..])
  {
    if s != [] {
      var width := Width(s[0] % 32);
      if |s| > width {
        if width == 1 {
          assert s[1..2] == [s[1]] && [s[1]][..0] == [];
          assert BigEndian([s[1]]) == s[1];
        } else if width == 2 {
          assert s[1..3] == [s[1], s[2]];
          BigEndian2(s[1], s[2]);
        } else if width == 4 {
          U32Is(s[1..]);
          assert s[1..][..4] == s[1..5];
        } else if width == 8 {
          U64Is(s[1..]);
          assert s[1..][..8] == s[1..9] && s[1..][4..] == s[5..];
        }
      }
    }
  }

  lemma U32Is(s: seq<byte>)
    requires |s| >= 4
    ensures U32(s) == BigEndian(s[..4])
  {
    BigEndian4(s[..4]);
  }

  lemma U64Is(s: seq<byte>)
    requires |s| >= 8
    ensures U64(s) == BigEndian(s[..8]) == U32(s) * 0x1_0000_0000 + U32(s[4..])
  {
    U32Is(s);
    U32Is(s[4..]);
    BigEndian8(s[..8]);
    assert s[..8][..4] == s[..4] && s[..8][4..] == s[4..][..4];
  }

  /** No header that is read as this one is shorter. */
  lemma HeadIsShortest(major: int, n: int, s: seq<byte>, rest: seq<byte>)
    requires 0 <= major < 6 && 0 <= n < 0x1_0000_0000 && DecHead(s) == Ok(Header(major, n, false), rest)
    ensures |s| >= |Head(major, n)| + |rest|
    ensures |s| == |Head(major, n)| + |rest| ==> s == Head(major, n) + rest
  {
    HeadBack(major, n, rest);
    var t := Head(major, n) + rest;
    if |s| == |t| {
      SameHeader(s, t);
    }
  }

  /** What a readable header looks like. */
  lemma Shape(s: seq<byte>) returns (w: nat)
    requires DecHead(s).Ok?
    ensures |s| > w && w == Width(s[0] % 32) && DecHead(s).rest == s[1 + w..]
    ensures DecHead(s).value.major == s[0] / 32 && DecHead(s).value.arg == Argument(s, w)
  {
    DecHeadIs(s);
    w := Width(s[0] % 32);
  }

  /** Two headers of one length that say the same are the same. */
  lemma SameHeader(s: seq<byte>, t: seq<byte>)
    requires |s| == |t| && DecHead(s).Ok? && DecHead(s) == DecHead(t)
    ensures s == t
  {
    hide DecHead;
    var w := Shape(s);
    var w' := Shape(t);
    assert w == w' by { assert |s[1 + w..]| == |t[1 + w'..]|; }
    if w > 0 {
      SameNumber(s[1..1 + w], t[1..1 + w]);
      assert s[0] % 32 == t[0] % 32;
      assert s == [s[0]] + s[1..1 + w] + s[1 + w..];
      assert t == [t[0]] + t[1..1 + w] + t[1 + w..];
    } else {
      assert s == [s[0]] + s[1..] && t == [t[0]] + t[1..];
    }
  }

  lemma {:induction false} SameNumber(a: seq<byte>, b: seq<byte>)
    requires |a| == |b| && BigEndian(a) == BigEndian(b)
    ensures a == b
  {
    if a != [] {
      var k := |a| - 1;
      SameNumber(a[..k], b[..k]);
      assert a == a[..k] + [a[k]] && b == b[..k] + [b[k]];
    }
  }

  // ----------------------------------------------------------------------- what is written

  /** The initial byte has the major type of section 3.1 of RFC 8949 in its top three bits; an object's is always
      that of a map with a two-byte count. */
  lemma InitialByte(v: Value, env: Env)
    requires IsJs(v)
    ensures var first: int := Enc(v, env)[0];
            match v
            case Num(n) => first / 32 == if n >= 0 then 0 else 1
            case Big(i) => first == if i >= 0 then 0x1b else 0x3b
            case Bytes(b) => first / 32 == 2
            case Text(s) => first / 32 == 3
            case Arr(items) => first / 32 == 4
            case Obj(es) => first == 0xb9 && |Enc(v, env)| >= 3 && BigEndian(Enc(v, env)[1..3]) == |es| % 0x1_0000
            case Bool(b) => Enc(v, env) == [if b then 0xf5 else 0xf4]
            case Null => Enc(v, env) == [0xf6]
            case Undefined => Enc(v, env) == [0xf7]
    ensures v.Num? && 0 <= v.n < 24 ==> Enc(v, env) == [v.n]
    ensures v.Num? && -24 <= v.n < 0 ==> Enc(v, env) == [31 - v.n]
    ensures v.Bytes? ==> |Enc(v, env)| >= |v.bytes| && Enc(v, env)[|Enc(v, env)| - |v.bytes|..] == v.bytes
  {
    if v.Obj? {
      var n := |v.entries| % 0x1_0000;
      BigEndian2(n / 256, n % 256);
      assert Enc(v, env)[1..3] == [n / 256, n % 256];
    }
  }

  /** A value without text and objects, for which the codec has more than one form or a fixed one. */
  predicate Lean(v: Value) {
    match v
    case Text(_) => false
    case Obj(_) => false
    case Arr(items) => forall x :: x in items ==> Lean(x)
    case _ => true
  }

  /** Whatever is read as the value is at least as long as what is written for it. */
  lemma {:induction false} EncIsShortest(v: Value, env: Env, s: seq<byte>, rest: seq<byte>)
    requires IsJs(v) && Lean(v) && Dec(s, env) == Ok(v, rest)
    ensures |s| >= |Enc(v, env)| + |rest|
    decreases v, 1
  {
    var h := DecHead(s);
    match v
    case Num(n) => NumIsShortest(n, env, s, rest);
    case Big(i) => BigIsShortest(i, env, s, rest);
    case Bytes(b) => HeadIsShortest(2, |b|, s, h.rest);
    case Arr(items) =>
      ArrHeader(items, env, s, rest);
      HeadIsShortest(4, |items|, s, h.rest);
      ItemsAreShortest(items, env, h.rest, rest);
    case _ =>
  }

  lemma ArrHeader(items: seq<Value>, env: Env, s: seq<byte>, rest: seq<byte>)
    requires Dec(s, env) == Ok(Arr(items), rest)
    ensures DecHead(s).Ok? && DecHead(s).value == Header(4, |items|, false)
    ensures DecItems(DecHead(s).rest, |items|, env) == Ok(items, rest)
  {
  }

  lemma {:induction false} ItemsAreShortest(items: seq<Value>, env: Env, s: seq<byte>, rest: seq<byte>)
    requires forall x :: x in items ==> IsJs(x) && Lean(x)
    requires DecItems(s, |items|, env) == Ok(items, rest)
    ensures |s| >= |EncItems(items, env)| + |rest|
    decreases items, 0
  {
    if items != [] {
      var d := Dec(s, env);
      assert d.Ok?;
      var r := DecItems(d.rest, |items| - 1, env);
      assert r.Ok? && items == [d.value] + r.value;
      assert items[0] == d.value && items[1..] == r.value && items[0] in items;
      EncIsShortest(items[0], env, s, d.rest);
      ItemsAreShortest(items[1..], env, d.rest, rest);
    }
  }

  lemma NumIsShortest(n: int, env: Env, s: seq<byte>, rest: seq<byte>)
    requires IsJs(Num(n)) && Dec(s, env) == Ok(Num(n), rest)
    ensures |s| >= |Enc(Num(n), env)| + |rest|
  {
    var major, arg := NumHeader(n, env, s, rest);
    hide Dec, DecHead;
    HeadIsShortest(major, arg, s, rest);
    hide Enc;
    NumIsHead(n, env);
  }

  lemma NumHeader(n: int, env: Env, s: seq<byte>, rest: seq<byte>) returns (major: int, arg: int)
    requires Dec(s, env) == Ok(Num(n), rest)
    ensures 0 <= arg < 0x1_0000_0000 && DecHead(s) == Ok(Header(major, arg, false), rest)
    ensures (major == 0 && arg == n) || (major == 1 && BitNot(arg) == n)
  {
    hide DecHead;
    major, arg := DecHead(s).value.major, DecHead(s).value.arg;
  }

  lemma NumIsHead(n: int, env: Env)
    requires IsJs(Num(n))
    ensures n >= 0 ==> Enc(Num(n), env) == Head(0, n)
    ensures n < 0 ==> Enc(Num(n), env) == Head(1, -1 - n)
  {
  }

  lemma BigIsShortest(i: int, env: Env, s: seq<byte>, rest: seq<byte>)
    requires IsJs(Big(i)) && Dec(s, env) == Ok(Big(i), rest)
    ensures |s| >= |Enc(Big(i), env)| + |rest|
  {
    DecHeadIs(s);
    assert |Enc(Big(i), env)| == 9;
    hide DecHead;
  }

  /** A text item is the shortest header for its bytes, then its bytes. */
  lemma TextIs(s: str, env: Env, t: seq<byte>, more: seq<byte>)
    requires IsJs(Text(s)) && DecHead(t) == Ok(Header(3, |TextBytes(s, env)|, false), more)
    ensures |t| - |more| >= |Enc(Text(s), env)| - |TextBytes(s, env)|
    ensures Enc(Text(s), env)[|Enc(Text(s), env)| - |TextBytes(s, env)|..] == TextBytes(s, env)
  {
    HeadIsShortest(3, |TextBytes(s, env)|, t, more);
  }

  // --------------------------------------------------------------------------------- text

  function Over(b: byte, base: int): int { b - base }

  predicate Continues(b: byte) { 0x80 <= b < 0xc0 }

  /** The four rows of the table of section 3 of RFC 3629; a surrogate alone is written like any other. */
  predicate OneByte(b: seq<byte>, c: int) { 0 <= c < 0x80 && |b| == 1 && b[0] == c }

  predicate TwoBytes(b: seq<byte>, c: int) {
    && 0x80 <= c < 0x800 && |b| == 2 && 0xc0 <= b[0] < 0xe0 && Continues(b[1])
    && c == Over(b[0], 0xc0) * 0x40 + Over(b[1], 0x80)
  }

  predicate ThreeBytes(b: seq<byte>, c: int) {
    && 0x800 <= c < 0x10000 && |b| == 3 && 0xe0 <= b[0] < 0xf0 && Continues(b[1]) && Continues(b[2])
    && c == Over(b[0], 0xe0) * 0x1000 + Over(b[1], 0x80) * 0x40 + Over(b[2], 0x80)
  }

  predicate FourBytes(b: seq<byte>, c: int) {
    && 0x10000 <= c < 0x110000 && |b| == 4 && 0xf0 <= b[0] < 0xf8 && Continues(b[1]) && Continues(b[2]) && Continues(b[3])
    && c == Over(b[0], 0xf0) * 0x40000 + Over(b[1], 0x80) * 0x1000 + Over(b[2], 0x80) * 0x40 + Over(b[3], 0x80)
  }

  /** The code point at the front of a string; a surrogate alone stands for itself. */
  function Front(s: str): int
    requires s != []
  {
    var hi: int := s[0];
    if |s| >= 2 && 0xd800 <= hi < 0xdc00 && 0xdc00 <= s[1] < 0xe000 then
      var lo: int := s[1];
      0x10000 + (hi - 0xd800) * 0x400 + (lo - 0xdc00)
    else hi
  }

  /** One turn of the writer's loop writes the code point as that table has it. */
  lemma Utf8Is(s: str)
    requires s != []
    ensures Turn(s) == if Front(s) >= 0x10000 then 2 else 1
    ensures var c, b := Front(s), TurnBytes(s); OneByte(b, c) || TwoBytes(b, c) || ThreeBytes(b, c) || FourBytes(b, c)
  {
    var c := Front(s);
    if c >= 0x10000 {
      PairTurn(s);
    } else if c >= 0x800 {
      ThreeDigits(c);
    }
  }

  lemma PairTurn(s: str)
    requires s != [] && Front(s) >= 0x10000
    ensures Turn(s) == 2 && FourBytes(TurnBytes(s), Front(s))
  {
    PairIs(s[0], s[1]);
    hide CodePoint;
    var c := Front(s);
    FourIs(c);
    assert TurnBytes(s) == [c / 262144 + 240, (c / 4096) % 64 + 128, (c / 64) % 64 + 128, c % 64 + 128];
    hide FourBytes, TurnBytes;
  }

  lemma PairIs(hi: int, lo: int)
    requires 0xd800 <= hi < 0xdc00 && 0xdc00 <= lo < 0xe000
    ensures CodePoint(hi, lo) == 0x10000 + (hi - 0xd800) * 0x400 + (lo - 0xdc00) < 0x110000
  {
  }

  lemma FourIs(c: int)
    requires 0x10000 <= c < 0x110000
    ensures 0 <= c / 262144 + 240 < 256
    ensures FourBytes([c / 262144 + 240, (c / 4096) % 64 + 128, (c / 64) % 64 + 128, c % 64 + 128], c)
  {
    FourDigits(c);
  }

  lemma ThreeDigits(c: int)
    requires 0x800 <= c < 0x10000
    ensures c == (c / 4096) * 4096 + ((c / 64) % 64) * 64 + c % 64
    ensures 0 <= c / 4096 < 16
  {
  }

  lemma FourDigits(c: int)
    requires 0x10000 <= c < 0x110000
    ensures c == (c / 262144) * 262144 + ((c / 4096) % 64) * 4096 + ((c / 64) % 64) * 64 + c % 64
    ensures 0 <= c / 262144 < 8
  {
    assert c / 64 == (c / 4096) * 64 + (c / 64) % 64;
    assert c / 4096 == (c / 262144) * 64 + (c / 4096) % 64;
  }

  /** The reader's loop takes a byte that starts no sequence as a unit of its own. */
  lemma {:induction false} StrayBytes(bs: seq<byte>)
    requires forall i :: 0 <= i < |bs| ==> bs[i] < 0xc0 || bs[i] >= 0xf8
    ensures Units(bs, |bs|) == Ok(bs, [])
  {
    hide SequenceLength, TurnUnits;
    if bs != [] {
      Stray(bs);
      StrayBytes(bs[1..]);
      assert bs == [bs[0]] + bs[1..];
    }
  }

  lemma Stray(bs: seq<byte>)
    requires bs != [] && (bs[0] < 0xc0 || bs[0] >= 0xf8)
    ensures Units(bs, |bs|) == match Units(bs[1..], |bs| - 1) case Err => Err case Ok(us, rest) => Ok([bs[0]] + us, rest)
  {
    OwnUnit(bs);
    hide SequenceLength, TurnUnits;
  }

  lemma OwnUnit(bs: seq<byte>)
    requires bs != [] && (bs[0] < 0xc0 || bs[0] >= 0xf8)
    ensures SequenceLength(bs[0]) == 1 && TurnUnits(bs) == [bs[0]]
  {
  }

  /** The reader's negative numbers wrap as 32-bit numbers do. */
  lemma BitNotWraps(n: int)
    requires 0 <= n < 0x1_0000_0000
    ensures -0x8000_0000 <= BitNot(n) < 0x8000_0000
    ensures BitNot(n) == -1 - n || BitNot(n) == -1 - n + 0x1_0000_0000
  {
  }

  /** The key that is not kept, and what it becomes. */
  lemma ProtoIs()
    ensures |PROTO| == |"__proto__"| && forall i :: 0 <= i < |PROTO| ==> PROTO[i] == "__proto__"[i] as int
    ensures |SAFE_PROTO| == |"__proto_"| && forall i :: 0 <= i < |SAFE_PROTO| ==> SAFE_PROTO[i] == "__proto_"[i] as int
  {
  }

  /** Examples of Appendix A of RFC 8949. */
  lemma AppendixA(env: Env)
    ensures Enc(Num(0), env) == [0x00] && Enc(Num(23), env) == [0x17] && Enc(Num(24), env) == [0x18, 0x18]
    ensures Enc(Num(100), env) == [0x18, 0x64] && Enc(Num(1000), env) == [0x19, 0x03, 0xe8]
    ensures Enc(Num(1000000), env) == [0x1a, 0x00, 0x0f, 0x42, 0x40]
  {
  }

  lemma AppendixANegative(env: Env)
    ensures Enc(Num(-1), env) == [0x20] && Enc(Num(-10), env) == [0x29] && Enc(Num(-100), env) == [0x38, 0x63]
    ensures Enc(Num(-1000), env) == [0x39, 0x03, 0xe7]
  {
  }

  lemma AppendixAMore(env: Env)
    ensures Enc(Big(1000000000000), env) == [0x1b, 0x00, 0x00, 0x00, 0xe8, 0xd4, 0xa5, 0x10, 0x00]
    ensures Enc(Bytes([1, 2, 3, 4]), env) == [0x44, 0x01, 0x02, 0x03, 0x04]
    ensures Enc(Arr([]), env) == [0x80]
  {
  }

  lemma AppendixAItems(env: Env)
    ensures Enc(Arr([Num(1), Num(2), Num(3)]), env) == [0x83, 0x01, 0x02, 0x03]
  {
    assert [Num(1), Num(2), Num(3)][1..] == [Num(2), Num(3)] && [Num(2), Num(3)][1..] == [Num(3)] && [Num(3)][1..] == [];
    assert EncItems([Num(3)], env) == [3];
    assert EncItems([Num(2), Num(3)], env) == [2, 3];
  }

  lemma AppendixAText(env: Env)
    ensures Enc(Text([0x61]), env) == [0x61, 0x61] && Enc(Text([]), env) == [0x60]
    ensures Enc(Text([0xfc]), env) == [0x62, 0xc3, 0xbc]
    ensures Enc(Text([0x6c34]), env) == [0x63, 0xe6, 0xb0, 0xb4]
  {
    OneChar(0x61, env);
    OneChar(0xfc, env);
    OneChar(0x6c34, env);
    EncOfText([], env);
    hide Enc;
  }

  lemma AppendixAPair(env: Env)
    ensures Enc(Text([0xd800, 0xdd51]), env) == [0x64, 0xf0, 0x90, 0x85, 0x91]
  {
    var pair: str := [0xd800, 0xdd51];
    EncOfText(pair, env);
    hide Enc;
    PairBytes(pair);
    hide TurnBytes;
    assert pair[2..] == [];
    assert Utf8(pair) == TurnBytes(pair) + [];
  }

  lemma PairBytes(pair: str)
    requires pair == [0xd800, 0xdd51]
    ensures Turn(pair) == 2 && TurnBytes(pair) == [0xf0, 0x90, 0x85, 0x91]
  {
    assert StartsWithPair(pair) && CodePoint(0xd800, 0xdd51) == 0x10151;
  }

  lemma EncOfText(s: str, env: Env)
    requires |s| < 64
    ensures Enc(Text(s), env) == Head(3, |Utf8(s)|) + Utf8(s)
  {
  }

  lemma OneChar(u: unit, env: Env)
    requires !IsHigh(u)
    ensures Enc(Text([u]), env) == [0x60 + |TurnBytes([u])|] + TurnBytes([u])
  {
    EncOfText([u], env);
    hide Enc;
    assert [u][1..] == [];
    assert Utf8([u]) == TurnBytes([u]) + [];
  }
}
