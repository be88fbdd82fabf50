/** Bytes, big-endian 16-bit numbers, and what stands where in a byte sequence. */
module Bytes {
  type byte = x: int | 0 <= x < 256

  /** The big-endian number at position `pos`. */
  function U16(s: seq<byte>, pos: nat): nat
    requires pos + 2 <= |s|
  {
    256 * (s[pos] as int) + s[pos + 1] as int
  }

  function PutU16(n: nat): (bs: seq<byte>)
    requires n < 0x1_0000
    ensures |bs| == 2
  {
    [n / 256, n % 256]
  }

  /** `bs` stands at position `pos` of `s`. */
  ghost predicate At(s: seq<byte>, pos: nat, bs: seq<byte>) {
    pos + |bs| <= |s| && forall i {:trigger bs[i]} :: 0 <= i < |bs| ==> s[pos + i] == bs[i]
  }

  lemma AtStart(a: seq<byte>, b: seq<byte>)
    ensures At(a + b, 0, a)
  {
  }

  lemma AtSplit(s: seq<byte>, pos: nat, a: seq<byte>, b: seq<byte>)
    requires At(s, pos, a + b)
    ensures At(s, pos, a) && At(s, pos + |a|, b)
  {
    assert forall i {:trigger a[i]} :: 0 <= i < |a| ==> (a + b)[i] == a[i];
    assert forall i {:trigger b[i]} :: 0 <= i < |b| ==> (a + b)[|a| + i] == b[i];
  }

  /** Reading through a prefix: a byte, a 16-bit number, a stretch. */
  lemma SeeByte(p: seq<byte>, s: seq<byte>, pos: nat, b: byte)
    requires p <= s && At(s, pos, [b]) && pos < |p|
    ensures p[pos] == b
  {
    assert [b][0] == b;
  }

  lemma SeeU16(p: seq<byte>, s: seq<byte>, pos: nat, n: nat)
    requires n < 0x1_0000 && p <= s && At(s, pos, PutU16(n)) && pos + 2 <= |p|
    ensures U16(p, pos) == n
  {
    var bs := PutU16(n);
    assert s[pos + 0] == bs[0] && s[pos + 1] == bs[1];
  }

  lemma SeeBytes(p: seq<byte>, s: seq<byte>, pos: nat, bs: seq<byte>)
    requires p <= s && At(s, pos, bs) && pos + |bs| <= |p|
    ensures p[pos..pos + |bs|] == bs
  {
    forall i | 0 <= i < |bs| ensures p[pos + i] == bs[i] {
    }
  }
}
