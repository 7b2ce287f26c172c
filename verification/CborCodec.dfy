/** The writer and the reader together. */
module CborCodec {
  import opened Utf16
  import opened Cbor
  import opened CborRoundTrip
  import opened CborReader
  import CborWriter

  /** Sending a value through both: whatever the writer returns within the limit is read back as
      the same value if the value survives, and never as the same value otherwise. */
  method Transfer(w: CborWriter.Writer, v: Value) returns (ok: bool, out: Outcome<Value>)
    requires w.Valid() && IsJs(v) && Lawful(w.env)
    modifies w, w.target
    ensures ok && w.position - w.start <= CborWriter.LIMIT ==> (out == Got(v) <==> Survives(v, w.env))
    ensures CborWriter.Bound(v) <= CborWriter.LIMIT ==>
              ok && w.position - w.start <= CborWriter.LIMIT
  {
    var bytes;
    ok, bytes := w.Encode(v);
    out := Fail;
    if ok {
      var r := new Reader(w.env, bytes);
      out := r.Decode();
      assert Enc(v, w.env) + [] == Enc(v, w.env);
      RoundTripExactly(v, w.env, []);
    }
  }
}
