/** Raw byte buffers: the per-channel output regions and the temporary
    buffers the renderer fills, and the two primitive operations it applies
    to them (memset to zero and memcpy). */
module Buffers {

  newtype byte = x: int | 0 <= x < 256

  /** `len` zero bytes. */
  function Zeros(len: nat): (r: seq<byte>)
    ensures |r| == len
    ensures forall k :: 0 <= k < len ==> r[k] == 0
  {
    seq(len, _ => 0)
  }

  /** `buf` with `data` written over it starting at byte `at`. */
  function Overlay(buf: seq<byte>, at: nat, data: seq<byte>): (r: seq<byte>)
    requires at + |data| <= |buf|
    ensures |r| == |buf|
  {
    buf[..at] + data + buf[at + |data|..]
  }

  /** Byte `k` of the overlay comes from `data` inside [at, at + |data|) and
      from `buf` everywhere else. */
  lemma OverlayContents(buf: seq<byte>, at: nat, data: seq<byte>)
    requires at + |data| <= |buf|
    ensures var r := Overlay(buf, at, data);
      (forall k :: 0 <= k < |buf| ==>
        r[k] == if at <= k < at + |data| then data[k - at] else buf[k]) &&
      r[..at] == buf[..at] && r[at..at + |data|] == data &&
      r[at + |data|..] == buf[at + |data|..]
  {
    var r := Overlay(buf, at, data);
    assert r[..at] == buf[..at];
    assert r[at..at + |data|] == data;
  }

  /** Writing inside the first `len` bytes changes nothing after them. */
  lemma OverlayPrefix(buf: seq<byte>, len: nat, at: nat, data: seq<byte>)
    requires at + |data| <= len <= |buf|
    ensures Overlay(buf, at, data)[..len] == Overlay(buf[..len], at, data)
    ensures Overlay(buf, at, data)[len..] == buf[len..]
  {
    OverlayContents(buf, at, data);
    OverlayContents(buf[..len], at, data);
  }

  lemma MulMono(a: nat, b: nat, s: nat)
    requires a <= b
    ensures a * s <= b * s
  {
  }

  lemma MulSub(a: nat, b: nat, s: nat)
    requires a <= b
    ensures (b - a) * s == b * s - a * s
  {
  }

  lemma MulAdd(a: nat, b: nat, s: nat)
    ensures (a + b) * s == a * s + b * s
  {
  }

  /** memset(a, 0, len): the first `len` bytes become zero, the rest stay. */
  method ZeroFill(a: array<byte>, len: nat)
    requires len <= a.Length
    modifies a
    ensures a[..len] == Zeros(len)
    ensures a[len..] == old(a[len..])
  {
    var k := 0;
    while k < len
      invariant k <= len
      invariant forall j :: 0 <= j < k ==> a[j] == 0
      invariant forall j :: len <= j < a.Length ==> a[j] == old(a[j])
    {
      a[k] := 0;
      k := k + 1;
    }
  }

  /** memcpy(dst + at, src, |src|). */
  method CopyInto(dst: array<byte>, at: nat, src: seq<byte>)
    requires at + |src| <= dst.Length
    modifies dst
    ensures dst[..] == Overlay(old(dst[..]), at, src)
  {
    var k := 0;
    while k < |src|
      invariant k <= |src|
      invariant forall j :: 0 <= j < dst.Length ==>
        dst[j] == if at <= j < at + k then src[j - at] else old(dst[j])
    {
      dst[at + k] := src[k];
      k := k + 1;
    }
    OverlayContents(old(dst[..]), at, src);
    assert forall j :: 0 <= j < dst.Length ==>
      dst[..][j] == Overlay(old(dst[..]), at, src)[j];
  }
}
