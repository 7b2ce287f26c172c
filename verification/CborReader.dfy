/** The reader, which moves one `position` over the source bytes, proved against `Cbor.Dec`.  The
    short and long ASCII paths either produce what the UTF-8 loop would or put `position` back. */
module CborReader {
  import opened Utf16
  import opened Cbor

  datatype Outcome<T> = Got(value: T) | Fail

  /** What a fast path found: only ASCII, something else, or the end of the source. */
  datatype Fast = Ascii(s: str) | NotAscii | PastEnd

  class Reader {
    const env: Env
    const src: seq<byte>
    var position: nat

    constructor (env: Env, src: seq<byte>)
      ensures this.env == env && this.src == src && position == 0
    {
      this.env := env;
      this.src := src;
      position := 0;
    }

    /** The reader did what `r` says and stands behind what `r` consumed. */
    ghost predicate Follows<T>(out: Outcome<T>, r: Parsed<T>)
      reads this
    {
      match r
      case Err => out.Fail?
      case Ok(v, rest) => out == Got(v) && position <= |src| && src[position..] == rest
    }

    /** The unrolled comparisons of the short path read groups of four bytes, then two, then one, and
        check each group before reading the next. */
    method ShortStringInJS(length: nat) returns (r: Fast)
      requires length < 16 && position <= |src|
      modifies this
      ensures r.Ascii? ==> position == old(position) + length <= |src| && |r.s| == length
                           && Units(src[old(position)..], length) == Ok(r.s, src[position..])
      ensures r.NotAscii? ==> position == old(position)
      ensures r.PastEnd? ==> old(position) + length > |src|
    {
      var p := position;
      var i := 0;
      while i < length
        invariant 0 <= i <= length && position == p + i <= |src|
        invariant forall j :: p <= j < p + i ==> src[j] < 128
      {
        var left := length - i;
        var group := if left >= 4 then 4 else if left >= 2 then 2 else 1;
        if position + group > |src| {
          return PastEnd;
        }
        var high := exists j :: position <= j < position + group && src[j] >= 128;
        position := position + group;
        if high {
          position := position - (i + group);
          return NotAscii;
        }
        i := i + group;
      }
      AsciiUnits(src[p..], length);
      assert src[p..][..length] == src[p..p + length] && src[p..][length..] == src[position..];
      r := Ascii(src[p..p + length]);
    }

    method LongStringInJS(length: nat) returns (r: Fast)
      requires position <= |src|
      modifies this
      ensures r.Ascii? ==> position == old(position) + length <= |src|
                           && Units(src[old(position)..], length) == Ok(r.s, src[position..])
      ensures r.NotAscii? ==> position == old(position)
      ensures r.PastEnd? ==> old(position) + length > |src|
    {
      var start := position;
      var bytes: str := [];
      for i := 0 to length
        invariant position == start + i <= |src|
        invariant bytes == src[start..start + i]
        invariant forall j :: start <= j < start + i ==> src[j] < 128
      {
        if position >= |src| {
          return PastEnd;
        }
        var b := src[position];
        position := position + 1;
        if b >= 128 {
          position := start;
          return NotAscii;
        }
        bytes := bytes + [b];
      }
      AsciiUnits(src[start..], length);
      assert src[start..][..length] == src[start..start + length] && src[start..][length..] == src[position..];
      r := Ascii(bytes);
    }

    /** One turn of the UTF-8 loop. */
    method ReadTurn() returns (turn: Outcome<str>)
      requires position <= |src|
      modifies this
      ensures if OneTurn(src[old(position)..]) then
                position == old(position) + SequenceLength(src[old(position)]) && turn == Got(TurnUnits(src[old(position)..]))
              else turn.Fail?
    {
      if position >= |src| {
        return Fail;
      }
      var k := SequenceLength(src[position]);
      if position + k > |src| {
        return Fail;
      }
      turn := Got(TurnUnits(src[position..]));
      position := position + k;
    }

    /** The UTF-8 loop, which hands over its units in chunks of 4096. */
    method ReadUnits(length: nat) returns (r: Outcome<str>)
      requires position <= |src|
      modifies this
      ensures Follows(r, Units(src[old(position)..], length))
    {
      hide Units, TurnUnits, SequenceLength, Flush;
      var end := position + length;
      var units: str, result: str := [], [];
      ghost var goal := Units(src[position..], length);
      ghost var done: str := [];
      assert goal.Ok? ==> [] + [] + goal.value == goal.value;
      while position < end
        invariant position <= |src|
        invariant done == result + units && Pending(done, Units(src[position..], end - position), goal)
        decreases end - position
      {
        ghost var p, n := position, end - position;
        var turn := ReadTurn();
        UnitsLoopStep(src, p, n, done, goal);
        if turn.Fail? {
          return Fail;
        }
        var flushed := Flush(result, units + turn.value);
        done := done + turn.value;
        assert result + (units + turn.value) == done;
        result, units := flushed.0, flushed.1;
      }
      UnitsDone(src[position..], end - position);
      assert result + units + [] == result + units && (units == [] ==> result + units == result);
      if |units| > 0 {
        result := result + units;
      }
      r := Got(result);
    }

    method ReadStringJS(length: nat) returns (r: Outcome<str>)
      requires position <= |src|
      modifies this
      ensures Follows(r, DecText(src[old(position)..], length, env))
    {
      if length < 16 {
        var fast := ShortStringInJS(length);
        match fast
        case PastEnd => UnitsPastEnd(src[old(position)..], length); return Fail;
        case Ascii(s) => if s != [] { return Got(s); }
        case NotAscii =>
      }
      if length > 64 && env.textDecoder {
        if position + length > |src| {
          return Fail;
        }
        assert src[position..][..length] == src[position..position + length];
        assert src[position..][length..] == src[position + length..];
        position := position + length;
        return Got(env.native(src[position - length..position]));
      }
      r := ReadUnits(length);
    }

    /** A text item's payload, trying the ASCII paths first on small sources. */
    method ReadText(token: nat) returns (r: Outcome<str>)
      requires position <= |src|
      modifies this
      ensures Follows(r, DecText(src[old(position)..], token, env))
    {
      if |src| < 140 && token < 32 {
        var fast;
        if token < 16 {
          fast := ShortStringInJS(token);
        } else {
          fast := LongStringInJS(token);
        }
        match fast
        case PastEnd => UnitsPastEnd(src[old(position)..], token); return Fail;
        case Ascii(s) => return Got(s);
        case NotAscii =>
      }
      r := ReadStringJS(token);
    }

    /** Initial byte and argument. */
    method ReadHead() returns (r: Outcome<Header>)
      requires position <= |src|
      modifies this
      ensures Follows(r, DecHead(src[old(position)..]))
    {
      hide U16, U32, U64;
      var p := position;
      ghost var s := src[p..];
      if p >= |src| { return Fail; }
      var token: int := src[p];
      position := p + 1;
      var majorType := token / 32;
      token := token % 32;
      if majorType == 6 || (majorType == 7 && !(20 <= token < 24)) { return Fail; }
      var wide := false;
      if token > 23 {
        var size := if token == 24 then 1 else if token == 25 then 2 else if token == 26 then 4 else if token == 27 then 8 else 0;
        if size == 0 || position + size > |src| { return Fail; }
        var arg := src[position..position + size];
        assert arg == s[1..][..size] && |s[1..]| >= size;
        Prefix(s[1..], size);
        assert size == 8 ==> arg[4..] == s[5..][..4] && s[1..][4..] == s[5..];
        if size == 8 { Prefix(s[5..], 4); }
        if size == 1 {
          token := arg[0];
        } else if size == 2 {
          token := U16(arg);
        } else if size == 4 {
          token := U32(arg);
        } else if majorType > 1 {
          if U32(arg) > 0 { return Fail; }
          token := U32(arg[4..]);
        } else {
          token := U64(arg);
          wide := true;
        }
        position := position + size;
        assert src[position..] == s[1 + size..];
      }
      r := Got(Header(majorType, token, wide));
    }

    /** One value. */
    method Read() returns (r: Outcome<Value>)
      requires position <= |src|
      modifies this
      ensures Follows(r, Dec(src[old(position)..], env))
      decreases |src| - position, 0
    {
      hide DecHead, DecText, DecItems, DecEntries;
      var head := ReadHead();
      if head.Fail? { return Fail; }
      var token := head.value.arg;
      match head.value.major
      case 0 => r := Got(if head.value.wide then Big(token) else Num(token));
      case 1 => r := Got(if head.value.wide then Big(-1 - token) else Num(BitNot(token)));
      case 2 =>
        if position + token > |src| { return Fail; }
        r := Got(Bytes(src[position..position + token]));
        assert src[position..][..token] == src[position..position + token];
        assert src[position..][token..] == src[position + token..];
        position := position + token;
      case 3 =>
        var t := ReadText(token);
        r := if t.Got? then Got(Text(t.value)) else Fail;
      case 4 =>
        var items := ReadItems(token);
        r := if items.Got? then Got(Arr(items.value)) else Fail;
      case 5 =>
        var es := ReadEntries(token);
        r := if es.Got? then Got(Obj(es.value)) else Fail;
      case _ =>
        r := Got(if token == 20 then Bool(false) else if token == 21 then Bool(true)
                 else if token == 22 then Null else Undefined);
    }

    /** The loop that fills an array. */
    method ReadItems(token: nat) returns (r: Outcome<seq<Value>>)
      requires position <= |src|
      modifies this
      ensures Follows(r, DecItems(src[old(position)..], token, env))
      decreases |src| - position, 1
    {
      hide Dec;
      var array' := [];
      ghost var goal := DecItems(src[position..], token, env);
      assert goal.Ok? ==> [] + goal.value == goal.value;
      var i := 0;
      while i < token
        invariant 0 <= i <= token && old(position) <= position <= |src|
        invariant Pending(array', DecItems(src[position..], token - i, env), goal)
      {
        ghost var here := src[position..];
        var v := Read();
        if v.Fail? { return Fail; }
        PendingStep(array', [v.value], DecItems(src[position..], token - i - 1, env), DecItems(here, token - i, env), goal);
        array' := array' + [v.value];
        i := i + 1;
      }
      assert array' + [] == array';
      r := Got(array');
    }

    /** The loop that assigns an object's properties. */
    method ReadEntries(token: nat) returns (r: Outcome<seq<Entry>>)
      requires position <= |src|
      modifies this
      ensures Follows(r, DecEntries(src[old(position)..], token, [], env))
      decreases |src| - position, 1
    {
      hide Dec;
      var object' := [];
      ghost var goal := DecEntries(src[position..], token, [], env);
      var i := 0;
      while i < token
        invariant 0 <= i <= token && old(position) <= position <= |src|
        invariant DecEntries(src[position..], token - i, object', env) == goal
      {
        var key := Read();
        if key.Fail? || !key.value.Text? { return Fail; }
        var val := Read();
        if val.Fail? { return Fail; }
        object' := Assign(object', SafeKey(key.value.units), val.value);
        i := i + 1;
      }
      r := Got(object');
    }

    /** `decode(source)`: a value that ends exactly where the source ends. */
    method Decode() returns (r: Outcome<Value>)
      modifies this
      ensures r == match Dec(src, env) case Err => Fail case Ok(v, rest) => if rest == [] then Got(v) else Fail
    {
      position := 0;
      assert src[0..] == src;
      r := Read();
      if r.Got? && position != |src| {
        r := Fail;
      }
    }
  }

  /** `r` is what is still to be read behind `done`, and `goal` the whole. */
  ghost predicate Pending<T(!new)>(done: seq<T>, r: Parsed<seq<T>>, goal: Parsed<seq<T>>) {
    match r
    case Err => goal.Err?
    case Ok(more, rest) => goal == Ok(done + more, rest)
  }

  lemma PendingStep<T(!new)>(done: seq<T>, one: seq<T>, r: Parsed<seq<T>>, before: Parsed<seq<T>>, goal: Parsed<seq<T>>)
    requires before == match r case Err => Err case Ok(more, rest) => Ok(one + more, rest)
    requires Pending(done, before, goal)
    ensures Pending(done + one, r, goal)
  {
    assert r.Ok? ==> done + (one + r.value) == (done + one) + r.value;
  }

  /** The units are handed over when there are 4096 of them. */
  function Flush(result: str, units: str): (r: (str, str))
    ensures r.0 + r.1 == result + units
  {
    if |units| >= 4096 then assert result + units + [] == result + units; (result + units, []) else (result, units)
  }

  lemma UnitsDone(bs: seq<byte>, n: int)
    requires n <= 0
    ensures Units(bs, n) == Ok([], bs)
  {
  }

  predicate OneTurn(bs: seq<byte>) {
    bs != [] && |bs| >= SequenceLength(bs[0])
  }

  lemma UnitsLoopStep(src: seq<byte>, p: nat, n: int, done: str, goal: Parsed<str>)
    requires p <= |src| && n > 0
    requires Pending(done, Units(src[p..], n), goal)
    ensures if OneTurn(src[p..]) then
              var k := SequenceLength(src[p]);
              Pending(done + TurnUnits(src[p..]), Units(src[p + k..], n - k), goal)
            else goal.Err?
  {
    hide Units, TurnUnits, SequenceLength;
    var here := src[p..];
    if !OneTurn(here) {
      UnitsStuck(here, n);
    } else {
      var k := SequenceLength(src[p]);
      assert here[k..] == src[p + k..];
      UnitsUnfold(here, n, k);
      PendingStep(done, TurnUnits(here), Units(here[k..], n - k), Units(here, n), goal);
    }
  }

  lemma UnitsStuck(here: seq<byte>, n: int)
    requires n > 0 && !OneTurn(here)
    ensures Units(here, n).Err?
  {
  }

  lemma UnitsUnfold(here: seq<byte>, n: int, k: nat)
    requires n > 0 && OneTurn(here) && k == SequenceLength(here[0])
    ensures Units(here, n) ==
      match Units(here[k..], n - k) case Err => Err case Ok(us, rest) => Ok(TurnUnits(here) + us, rest)
  {
  }

  lemma {:induction false} UnitsPastEnd(bs: seq<byte>, n: nat)
    requires n > |bs|
    ensures Units(bs, n).Err?
    decreases n
  {
    if bs != [] && |bs| >= SequenceLength(bs[0]) {
      var k := SequenceLength(bs[0]);
      UnitsPastEnd(bs[k..], n - k);
    }
  }

  lemma Prefix(s: seq<byte>, n: nat)
    requires n <= |s|
    ensures n >= 2 ==> U16(s[..n]) == U16(s)
    ensures n >= 4 ==> U32(s[..n]) == U32(s)
    ensures n >= 8 ==> U64(s[..n]) == U64(s)
  {
    if n >= 4 {
      assert U16(s[..n][2..]) == U16(s[2..]);
    }
    if n >= 8 {
      assert s[..n][4..] == s[4..n];
      assert U16(s[4..n]) == U16(s[4..]) && U16(s[4..n][2..]) == U16(s[4..][2..]);
    }
  }
}
