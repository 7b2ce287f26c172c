/** The CBOR items the Go/JS workers exchange, as the bundled codec writes and reads them.

    `Enc` and `Dec` state what the writer and the reader compute (section 3 of RFC 8949 gives
    the format); `CborWriter` and `CborReader` hold the loops, buffers and fast paths, proved
    against these two functions.  The main result is `RoundTripExactly`. */
module Cbor {
  import opened Utf16

  datatype Value =
    | Null
    | Undefined
    | Bool(b: bool)
    | Num(n: int)             // a JavaScript number that is a 32-bit integer
    | Big(i: int)             // a JavaScript bigint
    | Bytes(bytes: seq<byte>)
    | Text(units: str)
    | Arr(items: seq<Value>)
    | Obj(entries: seq<Entry>)  // own properties in enumeration order

  datatype Entry = Entry(key: str, val: Value)

  /** The platform the codec runs on: is there a native UTF-8 encoder, is there a native decoder,
      and what does the native decoder return. */
  datatype Env = Env(encodeUtf8: bool, textDecoder: bool, native: seq<byte> -> str)

  /** The native decoder returns only paired surrogates, undoes UTF-8 on well-formed strings, and
      drops one leading byte order mark (Encoding Standard, `TextDecoder` with default options). */
  ghost predicate Lawful(env: Env) {
    && (forall bs: seq<byte> :: WellFormed(env.native(bs)))
    && (forall s: str :: WellFormed(s) ==> env.native(Utf8(s)) == DropMark(s))
  }

  function DropMark(s: str): str {
    if s != [] && s[0] == 65279 then s[1..] else s
  }

  function Keys(es: seq<Entry>): (ks: set<str>) {
    set i | 0 <= i < |es| :: es[i].key
  }

  predicate Distinct(es: seq<Entry>) {
    forall i, j :: 0 <= i < j < |es| ==> es[i].key != es[j].key
  }

  /** `v` is a value JavaScript can hold and the writer accepts. */
  predicate IsJs(v: Value) {
    match v
    case Num(n) => -0x8000_0000 <= n < 0x1_0000_0000
    case Big(i) => -0x1_0000_0000_0000_0000 < i < 0x1_0000_0000_0000_0000
    case Bytes(bs) => |bs| < 0x1_0000_0000
    case Text(s) => |s| < 0x4000_0000
    case Arr(items) => |items| < 0x1_0000_0000 && forall x :: x in items ==> IsJs(x)
    case Obj(es) => Distinct(es) && forall e :: e in es ==> |e.key| < 0x4000_0000 && IsJs(e.val)
    case _ => true
  }

  // ----------------------------------------------------------------------------- writing

  function BE16(n: int): seq<byte>
    requires 0 <= n < 0x1_0000
  { [n / 256, n % 256] }

  function BE32(n: int): (bs: seq<byte>)
    requires 0 <= n < 0x1_0000_0000
    ensures |bs| == 4
  { BE16(n / 0x1_0000) + BE16(n % 0x1_0000) }

  function BE64(n: int): (bs: seq<byte>)
    requires 0 <= n < 0x1_0000_0000_0000_0000
    ensures |bs| == 8
  { BE32(n / 0x1_0000_0000) + BE32(n % 0x1_0000_0000) }

  /** Initial byte and argument of an item of major type `major`, shortest form. */
  function Head(major: int, n: int): (bs: seq<byte>)
    requires 0 <= major < 7 && 0 <= n < 0x1_0000_0000
    ensures 1 <= |bs| <= 5
  {
    if n < 24 then [32 * major + n]
    else if n < 256 then [32 * major + 24, n]
    else if n < 0x1_0000 then [32 * major + 25] + BE16(n)
    else [32 * major + 26] + BE32(n)
  }

  /** The UTF-8 bytes of a string: long strings go to the native encoder when there is one. */
  function TextBytes(s: str, env: Env): (bs: seq<byte>)
    ensures |s| <= |bs| <= 3 * |s|
  {
    if |s| < 64 || !env.encodeUtf8 then Utf8(s) else Utf8(Scrub(s))
  }

  function EncText(s: str, env: Env): (bs: seq<byte>)
    requires |s| < 0x4000_0000
    ensures 1 <= |bs| <= 5 + 3 * |s|
  {
    Head(3, |TextBytes(s, env)|) + TextBytes(s, env)
  }

  /** The bytes of a value.  An object's header always has a two-byte count, and the count is
      stored modulo 65536. */
  function Enc(v: Value, env: Env): (bs: seq<byte>)
    requires IsJs(v)
    ensures bs != []
    decreases v
  {
    match v
    case Null => [246]
    case Undefined => [247]
    case Bool(b) => [if b then 245 else 244]
    case Num(n) => if n >= 0 then Head(0, n) else Head(1, -1 - n)
    case Big(i) => if i >= 0 then [27] + BE64(i) else [59] + BE64(-1 - i)
    case Bytes(b) => Head(2, |b|) + b
    case Text(s) => EncText(s, env)
    case Arr(items) => Head(4, |items|) + EncItems(items, env)
    case Obj(es) => [185] + BE16(|es| % 0x1_0000) + EncEntries(es, env)
  }

  function EncItems(items: seq<Value>, env: Env): (bs: seq<byte>)
    requires forall x :: x in items ==> IsJs(x)
    decreases items
  {
    if items == [] then [] else Enc(items[0], env) + EncItems(items[1..], env)
  }

  function EncEntries(es: seq<Entry>, env: Env): (bs: seq<byte>)
    requires forall e :: e in es ==> |e.key| < 0x4000_0000 && IsJs(e.val)
    decreases es
  {
    if es == [] then []
    else EncText(es[0].key, env) + (Enc(es[0].val, env) + EncEntries(es[1..], env))
  }

  // ----------------------------------------------------------------------------- reading

  function U16(s: seq<byte>): (n: int)
    requires |s| >= 2
    ensures 0 <= n < 0x1_0000
  {
    var hi: int, lo: int := s[0], s[1];
    hi * 256 + lo
  }

  function U32(s: seq<byte>): (n: int)
    requires |s| >= 4
    ensures 0 <= n < 0x1_0000_0000
  {
    U16(s) * 0x1_0000 + U16(s[2..])
  }

  function U64(s: seq<byte>): (n: int)
    requires |s| >= 8
    ensures 0 <= n < 0x1_0000_0000_0000_0000
  {
    U32(s) * 0x1_0000_0000 + U32(s[4..])
  }

  /** Major type and argument of the item at the front; `wide` marks a bigint argument. */
  datatype Header = Header(major: int, arg: int, wide: bool)

  /** The initial byte and argument.  Floats, simple values outside 20..23, indefinite lengths and
      tags are outside the model and read as `Err`, as does running past the end. */
  function DecHead(s: seq<byte>): (r: Parsed<Header>)
    ensures r.Ok? ==> |r.rest| < |s| && 0 <= r.value.major < 8 && 0 <= r.value.arg
    ensures r.Ok? ==> (r.value.wide ==> r.value.major <= 1) && (!r.value.wide ==> r.value.arg < 0x1_0000_0000)
    ensures r.Ok? && r.value.major == 7 ==> 20 <= r.value.arg < 24
  {
    if s == [] then Err else
    var first: int := s[0];
    var major, info := first / 32, first % 32;
    if major == 6 || (major == 7 && !(20 <= info < 24)) then Err
    else if info < 24 then Ok(Header(major, info, false), s[1..])
    else if info == 24 && |s| >= 2 then Ok(Header(major, s[1], false), s[2..])
    else if info == 25 && |s| >= 3 then Ok(Header(major, U16(s[1..]), false), s[3..])
    else if info == 26 && |s| >= 5 then Ok(Header(major, U32(s[1..]), false), s[5..])
    else if info == 27 && |s| >= 9 then
      if major > 1 then
        if U32(s[1..]) > 0 then Err else Ok(Header(major, U32(s[5..]), false), s[9..])
      else Ok(Header(major, U64(s[1..]), true), s[9..])
    else Err
  }

  /** JavaScript's `~` on a 32-bit number. */
  function BitNot(n: int): int
    requires 0 <= n < 0x1_0000_0000
  {
    if n < 0x8000_0000 then -1 - n else 0xFFFF_FFFF - n
  }

  /** A text item's payload of `n` bytes.  Only payloads over 64 bytes use the native decoder. */
  function DecText(s: seq<byte>, n: nat, env: Env): (r: Parsed<str>)
    ensures r.Ok? ==> |r.rest| <= |s|
  {
    if n > 64 && env.textDecoder then
      if n > |s| then Err else Ok(env.native(s[..n]), s[n..])
    else Units(s, n)
  }

  const PROTO: str := [95, 95, 112, 114, 111, 116, 111, 95, 95]
  const SAFE_PROTO: str := [95, 95, 112, 114, 111, 116, 111, 95]

  function SafeKey(k: str): str {
    if k == PROTO then SAFE_PROTO else k
  }

  /** Assigning a property: a present one keeps its place. */
  function Assign(es: seq<Entry>, k: str, v: Value): (r: seq<Entry>)
    ensures if k in Keys(es) then |r| == |es| else r == es + [Entry(k, v)]
  {
    if es == [] then [Entry(k, v)]
    else if es[0].key == k then [Entry(k, v)] + es[1..]
    else
      var r := Assign(es[1..], k, v);
      AssignKeys(es, k);
      [es[0]] + r
  }

  lemma AssignKeys(es: seq<Entry>, k: str)
    requires es != [] && es[0].key != k
    ensures k in Keys(es) <==> k in Keys(es[1..])
  {
    if k in Keys(es) {
      var i :| 0 <= i < |es| && es[i].key == k;
      assert es[1..][i - 1].key == k;
    }
    if k in Keys(es[1..]) {
      var i :| 0 <= i < |es[1..]| && es[1..][i].key == k;
      assert es[i + 1].key == k;
    }
  }

  /** The value at the front of `s`. */
  function Dec(s: seq<byte>, env: Env): (r: Parsed<Value>)
    ensures r.Ok? ==> |r.rest| < |s|
    decreases |s|, 0
  {
    match DecHead(s)
    case Err => Err
    case Ok(h, rest) =>
      match h.major
      case 0 => Ok(if h.wide then Big(h.arg) else Num(h.arg), rest)
      case 1 => Ok(if h.wide then Big(-1 - h.arg) else Num(BitNot(h.arg)), rest)
      case 2 => if h.arg > |rest| then Err else Ok(Bytes(rest[..h.arg]), rest[h.arg..])
      case 3 =>
        (match DecText(rest, h.arg, env)
         case Err => Err
         case Ok(t, more) => Ok(Text(t), more))
      case 4 =>
        (match DecItems(rest, h.arg, env)
         case Err => Err
         case Ok(items, more) => Ok(Arr(items), more))
      case 5 =>
        (match DecEntries(rest, h.arg, [], env)
         case Err => Err
         case Ok(es, more) => Ok(Obj(es), more))
      case _ =>
        Ok(if h.arg == 20 then Bool(false) else if h.arg == 21 then Bool(true)
           else if h.arg == 22 then Null else Undefined, rest)
  }

  function DecItems(s: seq<byte>, n: nat, env: Env): (r: Parsed<seq<Value>>)
    ensures r.Ok? ==> |r.rest| <= |s| && |r.value| == n
    decreases |s|, 1
  {
    if n == 0 then Ok([], s) else
    match Dec(s, env)
    case Err => Err
    case Ok(v, rest) =>
      match DecItems(rest, n - 1, env)
      case Err => Err
      case Ok(vs, more) => Ok([v] + vs, more)
  }

  /** `n` properties assigned to `acc` one after another.  A key that is not text is outside the
      model. */
  function DecEntries(s: seq<byte>, n: nat, acc: seq<Entry>, env: Env): (r: Parsed<seq<Entry>>)
    ensures r.Ok? ==> |r.rest| <= |s|
    decreases |s|, 1
  {
    if n == 0 then Ok(acc, s) else
    match Dec(s, env)
    case Err => Err
    case Ok(k, afterKey) =>
      if !k.Text? then Err else
      match Dec(afterKey, env)
      case Err => Err
      case Ok(v, rest) => DecEntries(rest, n - 1, Assign(acc, SafeKey(k.units), v), env)
  }
}
