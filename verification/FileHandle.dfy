/** An open file of the in-memory file system: a private copy of the bytes and an offset. */
module FileHandle {

  function Min(a: nat, b: nat): nat { if a < b then a else b }

  /** `b` written over `data` at `at`, with zeros up to there if need be. */
  function Spliced(data: seq<int>, at: nat, b: seq<int>): seq<int> {
    var head := if at <= |data| then data[..at] else data + seq(at - |data|, i => 0);
    head + b + (if at + |b| <= |data| then data[at + |b|..] else [])
  }

  class Handle {
    var data: seq<int>
    var offset: nat
    var dirty: bool
    var closed: bool

    constructor (bytes: seq<int>)
      ensures data == bytes && offset == 0 && !dirty && !closed
    {
      data, offset, dirty, closed := bytes, 0, false, false;
    }

    /** The three cases of `Write`: past the end, across the end, within. */
    method Write(b: seq<int>) returns (ok: bool)
      modifies this
      ensures closed == old(closed) && ok == !closed
      ensures ok ==> data == Spliced(old(data), old(offset), b) && offset == old(offset) + |b| && dirty
      ensures !ok ==> data == old(data) && offset == old(offset) && dirty == old(dirty)
    {
      if closed {
        return false;
      }
      var cur, end := offset, offset + |b|;
      if cur > |data| {
        data := data + seq(cur - |data|, i => 0) + b;
      } else if end > |data| {
        data := data[..cur] + b;
      } else {
        data := data[..cur] + b + data[end..];
      }
      dirty := true;
      offset := end;
      ok := true;
    }

    /** Up to `n` bytes; none at the end of the file. */
    method Read(n: nat) returns (b: seq<int>, eof: bool)
      requires !closed
      modifies this`offset
      ensures eof == (old(offset) >= |data|)
      ensures eof ==> b == [] && offset == old(offset)
      ensures !eof ==> old(offset) <= offset <= |data| && b == data[old(offset)..offset]
      ensures !eof ==> |b| <= n && (|b| < n ==> offset == |data|)
    {
      if offset >= |data| {
        return [], true;
      }
      b := data[offset..offset + Min(n, |data| - offset)];
      offset := offset + |b|;
      eof := false;
    }

    /** `Seek`, refused outside the file. */
    method Seek(delta: int, whence: int) returns (ok: bool)
      requires !closed
      modifies this`offset
      ensures var goal := if whence == 1 then delta + old(offset) else if whence == 2 then delta + |data| else delta;
              ok == (0 <= goal <= |data|) && offset == if ok then goal else old(offset)
    {
      var goal := delta;
      if whence == 1 {
        goal := goal + offset;
      } else if whence == 2 {
        goal := goal + |data|;
      }
      if goal < 0 || goal > |data| {
        return false;
      }
      offset := goal;
      ok := true;
    }
  }

  /** What was written is what is read back there, and the rest is what it was. */
  lemma SplicedReads(data: seq<int>, at: nat, b: seq<int>)
    ensures var d := Spliced(data, at, b);
            && at + |b| <= |d| && d[at..at + |b|] == b
            && (forall i :: 0 <= i < |d| && !(at <= i < at + |b|) ==> d[i] == if i < |data| then data[i] else 0)
            && |d| == if at + |b| <= |data| then |data| else at + |b|
  {
  }

  /** Bytes written, with the offset set back to where they went, are the bytes read; the bytes around them
      are as they were, and zeros fill a gap. */
  method WriteThenRead(h: Handle, b: seq<int>) returns (r: seq<int>, eof: bool)
    requires !h.closed
    modifies h
    ensures if b == [] && old(h.offset) >= |h.data| then eof && r == [] else !eof && r == b
    ensures h.offset == old(h.offset) + |b|
    ensures forall i :: 0 <= i < |h.data| && !(old(h.offset) <= i < h.offset) ==>
      h.data[i] == if i < |old(h.data)| then old(h.data)[i] else 0
    ensures |h.data| == if h.offset <= |old(h.data)| then |old(h.data)| else h.offset
  {
    ghost var data, at := h.data, h.offset;
    SplicedReads(data, at, b);
    var ok := h.Write(b);
    var back := h.Seek(-|b|, 1);
    r, eof := h.Read(|b|);
  }

  /** `io.Copy`: reads and writes in pieces of `piece` bytes until the end. */
  method Copy(dst: Handle, src: Handle, piece: nat)
    requires dst != src && piece > 0 && !dst.closed && !src.closed
    requires dst.data == [] && dst.offset == 0 && src.offset == 0
    modifies dst, src
    ensures dst.data == src.data == old(src.data) && !dst.closed
    ensures src.data != [] ==> dst.dirty
  {
    var eof := false;
    while !eof
      invariant src.data == old(src.data) && !dst.closed && !src.closed && src.offset <= |src.data|
      invariant dst.offset == src.offset == |dst.data| && dst.data == src.data[..src.offset]
      invariant eof ==> src.offset == |src.data|
      invariant dst.data != [] ==> dst.dirty
      decreases |src.data| - src.offset, !eof
    {
      var b, end := src.Read(piece);
      eof := end;
      if !eof {
        ghost var was := dst.data;
        var ok := dst.Write(b);
        assert dst.data == was + b;
      }
    }
  }
}
