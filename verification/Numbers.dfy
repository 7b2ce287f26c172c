/** Numbers written in bytes, most or least significant byte first. */
module Numbers {

  function BigEndian(bs: seq<int>): int {
    if bs == [] then 0 else 256 * BigEndian(bs[..|bs| - 1]) + bs[|bs| - 1]
  }

  function LittleEndian(bs: seq<int>): int {
    if bs == [] then 0 else bs[0] + 256 * LittleEndian(bs[1..])
  }

  lemma BigEndian2(a: int, b: int)
    ensures BigEndian([a, b]) == 256 * a + b
  {
    assert [a, b][..1] == [a] && [a][..0] == [];
    assert BigEndian([a]) == a;
  }

  lemma BigEndian4(bs: seq<int>)
    requires |bs| == 4
    ensures BigEndian(bs) == 256 * (256 * (256 * bs[0] + bs[1]) + bs[2]) + bs[3]
  {
    assert bs[..3][..2] == [bs[0], bs[1]];
    BigEndian2(bs[0], bs[1]);
    assert BigEndian(bs[..3]) == 256 * BigEndian([bs[0], bs[1]]) + bs[2];
  }

  lemma BigEndian8(bs: seq<int>)
    requires |bs| == 8
    ensures BigEndian(bs) == BigEndian(bs[..4]) * 0x1_0000_0000 + BigEndian(bs[4..])
  {
    BigEndian4(bs[4..]);
    var a, b, c := bs[..7], bs[..6], bs[..5];
    assert a[..6] == b && b[..5] == c && c[..4] == bs[..4];
    assert BigEndian(c) == 256 * BigEndian(bs[..4]) + bs[4];
    assert BigEndian(b) == 256 * BigEndian(c) + bs[5];
    assert BigEndian(a) == 256 * BigEndian(b) + bs[6];
  }

  lemma LittleEndian4(bs: seq<int>)
    requires |bs| == 4
    ensures LittleEndian(bs) == bs[0] + 256 * (bs[1] + 256 * (bs[2] + 256 * bs[3]))
  {
    var a, b, c := bs[1..], bs[2..], bs[3..];
    assert a[1..] == b && b[1..] == c && c[1..] == [];
    assert LittleEndian(c) == bs[3];
  }
}
