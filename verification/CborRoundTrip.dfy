/** Reading back what was written: exactly which values survive. */
module CborRoundTrip {
  import opened Utf16
  import opened Cbor

  /** A string comes back unchanged.  Lone surrogates are lost where the native encoder or decoder
      is used, and the native decoder eats a leading byte order mark. */
  predicate TextSurvives(s: str, env: Env) {
    && (|s| >= 64 && env.encodeUtf8 ==> WellFormed(s))
    && (|TextBytes(s, env)| > 64 && env.textDecoder ==> WellFormed(s) && s[0] != 65279)
  }

  /** What a caller can check before encoding: every string survives, no object has 65536 or more
      properties, and no property is called `__proto__`. */
  predicate Survives(v: Value, env: Env) {
    match v
    case Text(s) => TextSurvives(s, env)
    case Arr(items) => ItemsSurvive(items, env)
    case Obj(es) => |es| < 0x1_0000 && EntriesSurvive(es, env)
    case _ => true
  }

  predicate ItemsSurvive(items: seq<Value>, env: Env) {
    items == [] || (Survives(items[0], env) && ItemsSurvive(items[1..], env))
  }

  predicate EntrySurvives(e: Entry, env: Env) {
    e.key != PROTO && TextSurvives(e.key, env) && Survives(e.val, env)
  }

  predicate EntriesSurvive(es: seq<Entry>, env: Env) {
    es == [] || (EntrySurvives(es[0], env) && EntriesSurvive(es[1..], env))
  }

  lemma BE16Back(n: int, rest: seq<byte>)
    requires 0 <= n < 0x1_0000
    ensures U16(BE16(n) + rest) == n
    ensures (BE16(n) + rest)[2..] == rest
  {
  }

  lemma BE32Back(n: int, rest: seq<byte>)
    requires 0 <= n < 0x1_0000_0000
    ensures U32(BE32(n) + rest) == n
    ensures (BE32(n) + rest)[4..] == rest
  {
    var hi, lo := BE16(n / 0x1_0000), BE16(n % 0x1_0000);
    assert BE32(n) + rest == hi + (lo + rest);
    BE16Back(n / 0x1_0000, lo + rest);
    BE16Back(n % 0x1_0000, rest);
  }

  lemma BE64Back(n: int, rest: seq<byte>)
    requires 0 <= n < 0x1_0000_0000_0000_0000
    ensures U64(BE64(n) + rest) == n
    ensures (BE64(n) + rest)[8..] == rest
  {
    var hi, lo := BE32(n / 0x1_0000_0000), BE32(n % 0x1_0000_0000);
    assert BE64(n) + rest == hi + (lo + rest);
    BE32Back(n / 0x1_0000_0000, lo + rest);
    BE32Back(n % 0x1_0000_0000, rest);
  }

  lemma HeadBack(major: int, n: int, rest: seq<byte>)
    requires 0 <= major < 6 && 0 <= n < 0x1_0000_0000
    ensures DecHead(Head(major, n) + rest) == Ok(Header(major, n, false), rest)
  {
    var s := Head(major, n) + rest;
    if n < 24 {
      assert s[1..] == rest;
    } else if n < 256 {
      assert s[2..] == rest;
    } else if n < 0x1_0000 {
      assert s[1..] == BE16(n) + rest && s[3..] == s[1..][2..];
      BE16Back(n, rest);
    } else {
      assert s[1..] == BE32(n) + rest && s[5..] == s[1..][4..];
      BE32Back(n, rest);
    }
  }

  lemma BigHeadBack(major: int, n: int, rest: seq<byte>)
    requires 0 <= major < 2 && 0 <= n < 0x1_0000_0000_0000_0000
    ensures DecHead([32 * major + 27] + BE64(n) + rest) == Ok(Header(major, n, true), rest)
  {
    var s := [32 * major + 27] + BE64(n) + rest;
    assert s[1..] == BE64(n) + rest && s[9..] == s[1..][8..];
    BE64Back(n, rest);
  }

  lemma ObjHeadBack(n: int, rest: seq<byte>)
    requires 0 <= n < 0x1_0000
    ensures DecHead([185] + BE16(n) + rest) == Ok(Header(5, n, false), rest)
  {
    var s := [185] + BE16(n) + rest;
    assert s[1..] == BE16(n) + rest && s[3..] == s[1..][2..];
    BE16Back(n, rest);
  }

  /** The native decoder on what the writer sent for `s`. */
  lemma NativeBack(s: str, sent: str, env: Env)
    requires Lawful(env) && s != [] && |sent| == |s|
    requires sent == s || (sent == Scrub(s) && WellFormed(sent))
    requires sent == s <== WellFormed(s)
    ensures env.native(Utf8(sent)) == s <==> WellFormed(s) && s[0] != 65279
  {
    var t := env.native(Utf8(sent));
    assert WellFormed(t);
    if WellFormed(sent) {
      assert t == DropMark(sent);
    }
  }

  /** A text payload is always consumed whole, and equals the string iff the string survives. */
  lemma TextBack(s: str, env: Env, rest: seq<byte>)
    requires Lawful(env)
    ensures var b := TextBytes(s, env);
            var r := DecText(b + rest, |b|, env);
            r.Ok? && r.rest == rest && (r.value == s <==> TextSurvives(s, env))
  {
    var b := TextBytes(s, env);
    var native := |s| >= 64 && env.encodeUtf8;
    var sent := if native then Scrub(s) else s;
    ScrubFixes(s);
    assert b == Utf8(sent);
    if |b| > 64 && env.textDecoder {
      assert (b + rest)[..|b|] == b && (b + rest)[|b|..] == rest;
      NativeBack(s, sent, env);
    } else {
      UnitsUndoUtf8(sent, rest);
      assert DecText(b + rest, |b|, env) == Ok(sent, rest);
    }
  }

  /** A whole text item. */
  lemma TextItemBack(s: str, env: Env, rest: seq<byte>)
    requires Lawful(env) && |s| < 0x4000_0000
    ensures var r := Dec(EncText(s, env) + rest, env);
            r.Ok? && r.value.Text? && r.rest == rest && (r.value.units == s <==> TextSurvives(s, env))
  {
    hide DecHead, Head, DecText, TextSurvives, TextBytes;
    var b := TextBytes(s, env);
    HeadBack(3, |b|, b + rest);
    TextBack(s, env, rest);
    assert EncText(s, env) + rest == Head(3, |b|) + (b + rest);
  }

  lemma AssignDistinct(es: seq<Entry>, k: str, v: Value)
    ensures |Assign(es, k, v)| <= |es| + 1
    ensures forall i :: 0 <= i < |es| ==> Assign(es, k, v)[i].key == es[i].key
    ensures |Assign(es, k, v)| == |es| + 1 ==> Assign(es, k, v) == es + [Entry(k, v)]
    ensures |Assign(es, k, v)| >= |es|
  {
    if es != [] && es[0].key != k {
      AssignDistinct(es[1..], k, v);
    }
  }

  /** Reading `n` properties keeps the keys already there; it ends with `n` more only if every one
      of them was new, and then what was there is untouched. */
  lemma {:induction false} EntriesGrow(s: seq<byte>, n: nat, acc: seq<Entry>, env: Env)
    ensures var r := DecEntries(s, n, acc, env);
            r.Ok? ==> |acc| <= |r.value| <= |acc| + n &&
                      (forall i :: 0 <= i < |acc| ==> r.value[i].key == acc[i].key) &&
                      (|r.value| == |acc| + n ==> r.value[..|acc|] == acc)
    decreases n
  {
    hide DecEntries, Assign, SafeKey;
    var r := DecEntries(s, n, acc, env);
    if n == 0 {
      NoneLeft(s, acc, env);
    } else if r.Ok? {
      var acc', rest := OneEntry(s, n, acc, env);
      EntriesGrow(rest, n - 1, acc', env);
      if |r.value| == |acc| + n {
        assert r.value[..|acc|] == r.value[..|acc'|][..|acc|] == acc;
      }
    }
  }

  lemma NoneLeft(s: seq<byte>, acc: seq<Entry>, env: Env)
    ensures DecEntries(s, 0, acc, env) == Ok(acc, s) && acc[..|acc|] == acc
  {
  }

  /** One entry of a decoded object. */
  lemma OneEntry(s: seq<byte>, n: nat, acc: seq<Entry>, env: Env) returns (acc': seq<Entry>, rest: seq<byte>)
    requires n > 0 && DecEntries(s, n, acc, env).Ok?
    ensures DecEntries(s, n, acc, env) == DecEntries(rest, n - 1, acc', env)
    ensures |acc| <= |acc'| <= |acc| + 1 && (forall i :: 0 <= i < |acc| ==> acc'[i].key == acc[i].key)
    ensures |acc'| == |acc| + 1 ==> acc'[..|acc|] == acc
  {
    hide Dec, Assign, SafeKey;
    var k := Dec(s, env);
    var v := Dec(k.rest, env);
    acc', rest := Assign(acc, SafeKey(k.value.units), v.value), v.rest;
    AssignDistinct(acc, SafeKey(k.value.units), v.value);
  }

  /** The result of reading `bs + rest` is `v` with `rest` left over if `good`, and never `v`
      otherwise. */
  ghost predicate Exactly<T(!new)>(r: Parsed<T>, v: T, rest: seq<byte>, good: bool) {
    if good then r == Ok(v, rest) else r.Ok? ==> r.value != v
  }

  /** Main result.  Writing a value and reading it back, with any bytes behind it, gives the value
      back and stops right behind it if the value survives, and never gives it back otherwise. */
  lemma {:induction false} RoundTripExactly(v: Value, env: Env, rest: seq<byte>)
    requires Lawful(env) && IsJs(v)
    ensures Exactly(Dec(Enc(v, env) + rest, env), v, rest, Survives(v, env))
    decreases v
  {
    hide Dec, Enc, EncText, TextSurvives, TextBytes;
    match v
    case Text(s) => TextValueBack(s, env, rest);
    case Arr(items) => ArrBack(items, env, rest);
    case Obj(es) => ObjBack(es, env, rest);
    case Bytes(b) => BytesBack(b, env, rest);
    case Num(n) => NumBack(n, env, rest);
    case Big(i) => BigBack(i, env, rest);
    case _ => ConstBack(v, env, rest);
  }

  lemma ConstBack(v: Value, env: Env, rest: seq<byte>)
    requires v.Null? || v.Undefined? || v.Bool?
    ensures Dec(Enc(v, env) + rest, env) == Ok(v, rest)
  {
    assert (Enc(v, env) + rest)[1..] == rest;
  }

  lemma TextValueBack(s: str, env: Env, rest: seq<byte>)
    requires Lawful(env) && IsJs(Text(s))
    ensures Exactly(Dec(Enc(Text(s), env) + rest, env), Text(s), rest, TextSurvives(s, env))
  {
    TextItemBack(s, env, rest);
    hide Dec, EncText, TextSurvives;
  }

  lemma NumBack(n: int, env: Env, rest: seq<byte>)
    requires IsJs(Num(n))
    ensures Dec(Enc(Num(n), env) + rest, env) == Ok(Num(n), rest)
  {
    HeadBack(if n >= 0 then 0 else 1, if n >= 0 then n else -1 - n, rest);
  }

  lemma BigBack(i: int, env: Env, rest: seq<byte>)
    requires IsJs(Big(i))
    ensures Dec(Enc(Big(i), env) + rest, env) == Ok(Big(i), rest)
  {
    hide DecHead, BE64;
    if i >= 0 {
      BigHeadBack(0, i, rest);
    } else {
      BigHeadBack(1, -1 - i, rest);
    }
  }

  lemma BytesBack(b: seq<byte>, env: Env, rest: seq<byte>)
    requires IsJs(Bytes(b))
    ensures Dec(Enc(Bytes(b), env) + rest, env) == Ok(Bytes(b), rest)
  {
    HeadBack(2, |b|, b + rest);
    assert Enc(Bytes(b), env) + rest == Head(2, |b|) + (b + rest);
    assert (b + rest)[..|b|] == b && (b + rest)[|b|..] == rest;
  }

  lemma ArrBack(items: seq<Value>, env: Env, rest: seq<byte>)
    requires Lawful(env) && IsJs(Arr(items))
    ensures Exactly(Dec(Enc(Arr(items), env) + rest, env), Arr(items), rest, Survives(Arr(items), env))
    decreases items, 1
  {
    ItemsBack(items, env, rest);
    DecArr(items, env, rest);
    hide Dec, Enc, DecItems, EncItems, ItemsSurvive;
  }

  lemma DecArr(items: seq<Value>, env: Env, rest: seq<byte>)
    requires IsJs(Arr(items))
    ensures Dec(Enc(Arr(items), env) + rest, env) ==
      match DecItems(EncItems(items, env) + rest, |items|, env)
      case Err => Err
      case Ok(xs, more) => Ok(Arr(xs), more)
  {
    var body := EncItems(items, env);
    HeadBack(4, |items|, body + rest);
    Split(Head(4, |items|), body, rest);
    DecOfArrHead(Enc(Arr(items), env) + rest, |items|, body + rest, env);
  }

  lemma DecOfArrHead(s: seq<byte>, n: nat, body: seq<byte>, env: Env)
    requires DecHead(s) == Ok(Header(4, n, false), body)
    ensures Dec(s, env) ==
      match DecItems(body, n, env) case Err => Err case Ok(xs, more) => Ok(Arr(xs), more)
  {
  }

  lemma ItemsStep(s: seq<byte>, n: nat, env: Env, v: Value, rest: seq<byte>)
    requires n > 0 && Dec(s, env) == Ok(v, rest)
    ensures DecItems(s, n, env) ==
      match DecItems(rest, n - 1, env) case Err => Err case Ok(vs, more) => Ok([v] + vs, more)
  {
  }

  lemma {:induction false} ItemsBack(items: seq<Value>, env: Env, rest: seq<byte>)
    requires Lawful(env) && forall x :: x in items ==> IsJs(x)
    ensures Exactly(DecItems(EncItems(items, env) + rest, |items|, env), items, rest,
                    ItemsSurvive(items, env))
    decreases items, 0
  {
    if items == [] {
      assert EncItems(items, env) + rest == rest;
    } else {
      var x, xs := items[0], items[1..];
      var tail := EncItems(xs, env) + rest;
      assert x in items && forall y :: y in xs ==> y in items;
      RoundTripExactly(x, env, tail);
      ItemsBack(xs, env, rest);
      Split(Enc(x, env), EncItems(xs, env), rest);
      ItemsConclude(EncItems(items, env) + rest, items, tail, rest, env);
    }
  }

  lemma ItemsConclude(s: seq<byte>, items: seq<Value>, tail: seq<byte>, rest: seq<byte>, env: Env)
    requires items != []
    requires Exactly(Dec(s, env), items[0], tail, Survives(items[0], env))
    requires Exactly(DecItems(tail, |items| - 1, env), items[1..], rest, ItemsSurvive(items[1..], env))
    ensures Exactly(DecItems(s, |items|, env), items, rest, ItemsSurvive(items, env))
  {
    hide Dec, Survives;
    assert items == [items[0]] + items[1..];
    var d := Dec(s, env);
    if d.Ok? {
      ItemsStep(s, |items|, env, d.value, d.rest);
      hide DecItems;
      var r := DecItems(d.rest, |items| - 1, env);
      if r.Ok? && [d.value] + r.value == items {
        assert items[0] == d.value;
        assert items[1..] == r.value;
      }
    }
  }

  lemma ObjBack(es: seq<Entry>, env: Env, rest: seq<byte>)
    requires Lawful(env) && IsJs(Obj(es))
    ensures Exactly(Dec(Enc(Obj(es), env) + rest, env), Obj(es), rest, Survives(Obj(es), env))
    decreases es, 2
  {
    if |es| < 0x1_0000 {
      DistinctIsNew(es, {});
      SmallObjBack(es, env, rest);
      DecSmallObj(es, env, rest, DecEntries(EncEntries(es, env) + rest, |es|, [], env));
    } else {
      LargeObjLost(es, env, rest);
    }
  }

  lemma DecSmallObj(es: seq<Entry>, env: Env, rest: seq<byte>, r: Parsed<seq<Entry>>)
    requires IsJs(Obj(es)) && |es| < 0x1_0000
    requires r == DecEntries(EncEntries(es, env) + rest, |es|, [], env)
    ensures Dec(Enc(Obj(es), env) + rest, env) ==
      match r case Err => Err case Ok(xs, more) => Ok(Obj(xs), more)
  {
    hide Dec, Enc, DecEntries, EncEntries;
    DecObj(es, env, rest);
  }

  /** The count wraps, so too few properties are read. */
  lemma LargeObjLost(es: seq<Entry>, env: Env, rest: seq<byte>)
    requires IsJs(Obj(es)) && |es| >= 0x1_0000
    ensures var r := Dec(Enc(Obj(es), env) + rest, env);
            r.Ok? ==> r.value.Obj? && |r.value.entries| < |es|
  {
    DecObj(es, env, rest);
    EntriesGrow(EncEntries(es, env) + rest, |es| % 0x1_0000, [], env);
  }

  lemma SmallObjBack(es: seq<Entry>, env: Env, rest: seq<byte>)
    requires Lawful(env) && forall e :: e in es ==> |e.key| < 0x4000_0000 && IsJs(e.val)
    requires NewTo(es, {})
    ensures Exactly(DecEntries(EncEntries(es, env) + rest, |es|, [], env), es, rest, EntriesSurvive(es, env))
    decreases es, 1
  {
    assert [] + es == es;
    assert Keys([]) == {};
    EntriesBack(es, [], env, rest);
  }

  lemma DecObj(es: seq<Entry>, env: Env, rest: seq<byte>)
    requires IsJs(Obj(es))
    ensures Dec(Enc(Obj(es), env) + rest, env) ==
      match DecEntries(EncEntries(es, env) + rest, |es| % 0x1_0000, [], env)
      case Err => Err
      case Ok(xs, more) => Ok(Obj(xs), more)
  {
    var n := |es| % 0x1_0000;
    var body := EncEntries(es, env);
    ObjHeadBack(n, body + rest);
    Split([185] + BE16(n), body, rest);
    DecOfObjHead(Enc(Obj(es), env) + rest, n, body + rest, env);
  }

  lemma DecOfObjHead(s: seq<byte>, n: int, body: seq<byte>, env: Env)
    requires n >= 0 && DecHead(s) == Ok(Header(5, n, false), body)
    ensures Dec(s, env) ==
      match DecEntries(body, n, [], env) case Err => Err case Ok(xs, more) => Ok(Obj(xs), more)
  {
  }

  /** The keys of `es` are distinct and none is in `ks`. */
  predicate NewTo(es: seq<Entry>, ks: set<str>) {
    es == [] || (es[0].key !in ks && NewTo(es[1..], ks + {es[0].key}))
  }

  lemma {:induction false} DistinctIsNew(es: seq<Entry>, ks: set<str>)
    requires Distinct(es) && forall i :: 0 <= i < |es| ==> es[i].key !in ks
    ensures NewTo(es, ks)
  {
    if es != [] {
      DistinctIsNew(es[1..], ks + {es[0].key});
    }
  }

  lemma KeysAppend(acc: seq<Entry>, e: Entry)
    ensures Keys(acc + [e]) == Keys(acc) + {e.key}
  {
    var all := acc + [e];
    assert all[|acc|] == e;
    assert forall i :: 0 <= i < |acc| ==> all[i] == acc[i];
  }

  /** The rest of an object once a key was read and its value read as `v`. */
  ghost function AfterKey(v: Parsed<Value>, n: nat, acc: seq<Entry>, key: str, env: Env): Parsed<seq<Entry>> {
    match v
    case Err => Err
    case Ok(val, rest) => DecEntries(rest, n, Assign(acc, key, val), env)
  }

  lemma EntriesStep(s: seq<byte>, n: nat, acc: seq<Entry>, env: Env, k: str, mid: seq<byte>)
    requires n > 0 && Dec(s, env) == Ok(Text(k), mid)
    ensures DecEntries(s, n, acc, env) == AfterKey(Dec(mid, env), n - 1, acc, SafeKey(k), env)
  {
  }

  lemma {:induction false} EntriesBack(es: seq<Entry>, acc: seq<Entry>, env: Env, rest: seq<byte>)
    requires Lawful(env) && forall e :: e in es ==> |e.key| < 0x4000_0000 && IsJs(e.val)
    requires NewTo(es, Keys(acc))
    ensures Exactly(DecEntries(EncEntries(es, env) + rest, |es|, acc, env), acc + es, rest,
                    EntriesSurvive(es, env))
    decreases es, 0
  {
    if es == [] {
      assert EncEntries(es, env) + rest == rest && acc + es == acc;
    } else {
      var e, tl := es[0], es[1..];
      assert e in es && forall x :: x in tl ==> x in es;
      var tail := EncEntries(tl, env) + rest;
      var v := Dec(Enc(e.val, env) + tail, env);
      var k := KeyBack(es, acc, env, rest);
      RoundTripExactly(e.val, env, tail);
      EntryRead(e, k, v, tail, env);
      if EntrySurvives(e, env) {
        KeysAppend(acc, e);
        EntriesBack(tl, acc + [e], env, rest);
      } else if v.Ok? {
        LostEntry(v.rest, tl, acc, e, Entry(SafeKey(k), v.value), env);
      }
      EntriesConclude(es, acc, env, rest, k, v);
    }
  }

  lemma EntryRead(e: Entry, k: str, v: Parsed<Value>, tail: seq<byte>, env: Env)
    requires k == e.key <==> TextSurvives(e.key, env)
    requires Exactly(v, e.val, tail, Survives(e.val, env))
    ensures EntrySurvives(e, env) ==> SafeKey(k) == e.key && v == Ok(e.val, tail)
    ensures !EntrySurvives(e, env) && v.Ok? ==> Entry(SafeKey(k), v.value) != e
  {
    assert |PROTO| == 9 && |SAFE_PROTO| == 8;
    assert TextSurvives(SAFE_PROTO, env);
    hide TextSurvives, Survives;
  }

  lemma EntriesConclude(es: seq<Entry>, acc: seq<Entry>, env: Env, rest: seq<byte>, k: str, v: Parsed<Value>)
    requires es != [] && forall e :: e in es ==> |e.key| < 0x4000_0000 && IsJs(e.val)
    requires es[0].key !in Keys(acc)
    requires DecEntries(EncEntries(es, env) + rest, |es|, acc, env) == AfterKey(v, |es| - 1, acc, SafeKey(k), env)
    requires EntrySurvives(es[0], env) ==> SafeKey(k) == es[0].key && v == Ok(es[0].val, EncEntries(es[1..], env) + rest)
    requires EntrySurvives(es[0], env) ==>
               Exactly(DecEntries(EncEntries(es[1..], env) + rest, |es| - 1, acc + [es[0]], env),
                       acc + [es[0]] + es[1..], rest, EntriesSurvive(es[1..], env))
    requires !EntrySurvives(es[0], env) && v.Ok? ==>
               var r := DecEntries(v.rest, |es| - 1, Assign(acc, SafeKey(k), v.value), env);
               r.Ok? ==> r.value != acc + [es[0]] + es[1..]
    ensures Exactly(DecEntries(EncEntries(es, env) + rest, |es|, acc, env), acc + es, rest,
                    EntriesSurvive(es, env))
  {
    hide EntrySurvives, SafeKey, DecEntries, EncEntries;
    assert acc + es == acc + [es[0]] + es[1..];
  }

  /** The first key of `es` is read as some `k`, and right only if it survives. */
  lemma KeyBack(es: seq<Entry>, acc: seq<Entry>, env: Env, rest: seq<byte>) returns (k: str)
    requires Lawful(env) && es != [] && forall e :: e in es ==> |e.key| < 0x4000_0000 && IsJs(e.val)
    ensures k == es[0].key <==> TextSurvives(es[0].key, env)
    ensures DecEntries(EncEntries(es, env) + rest, |es|, acc, env) ==
            AfterKey(Dec(Enc(es[0].val, env) + (EncEntries(es[1..], env) + rest), env),
                     |es| - 1, acc, SafeKey(k), env)
  {
    var e := es[0];
    var tail := EncEntries(es[1..], env);
    var valTail := Enc(e.val, env) + (tail + rest);
    TextItemBack(e.key, env, valTail);
    Split(EncText(e.key, env), Enc(e.val, env) + tail, rest);
    Split(Enc(e.val, env), tail, rest);
    var s := EncEntries(es, env) + rest;
    k := Dec(s, env).value.units;
    EntriesStep(s, |es|, acc, env, k, valTail);
  }

  /** Once a property was read as something else, the object cannot come out right. */
  lemma LostEntry(s: seq<byte>, tl: seq<Entry>, acc: seq<Entry>, e: Entry, got: Entry, env: Env)
    requires got != e
    ensures var r := DecEntries(s, |tl|, Assign(acc, got.key, got.val), env);
            r.Ok? ==> r.value != acc + [e] + tl
  {
    var whole := acc + [e] + tl;
    var acc' := Assign(acc, got.key, got.val);
    AssignDistinct(acc, got.key, got.val);
    EntriesGrow(s, |tl|, acc', env);
    var r := DecEntries(s, |tl|, acc', env);
    assert whole[|acc|] == e;
    if r.Ok? && |r.value| == |whole| {
      assert |acc'| == |acc| + 1 && acc'[|acc|] == got;
      assert r.value[..|acc'|][|acc|] == got;
    }
  }
}
