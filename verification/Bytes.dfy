/** Bytes, 32-bit words and the raw copies of `string.h` that the C modules rely on.
    Words are stored in the host order of the machines the system targets: little endian. */
module Bytes {

  type Byte = b: nat | b < 0x100
  type Uint32 = n: nat | n < 0x1_0000_0000

  const PALABRA: nat := 4   // sizeof(uint32_t)

  function Le32(n: Uint32): (b: seq<Byte>)
    ensures |b| == PALABRA
  {
    [n % 0x100, n / 0x100 % 0x100, n / 0x1_0000 % 0x100, n / 0x100_0000]
  }

  function DeLe32(b: seq<Byte>): Uint32
    requires |b| == PALABRA
  {
    b[0] as int + 0x100 * (b[1] as int) + 0x1_0000 * (b[2] as int) + 0x100_0000 * (b[3] as int)
  }

  /** Storing a word and loading it back gives the word. */
  lemma IdaYVuelta32(n: Uint32)
    ensures DeLe32(Le32(n)) == n
  {
    assert n / 0x100 == 0x100 * (n / 0x1_0000) + n / 0x100 % 0x100;
    assert n / 0x1_0000 == 0x100 * (n / 0x100_0000) + n / 0x1_0000 % 0x100;
  }

  lemma Cociente(q: nat, r: nat)
    requires r < 0x100
    ensures (0x100 * q + r) / 0x100 == q && (0x100 * q + r) % 0x100 == r
  {
  }

  lemma DosVeces(n: nat)
    ensures n / 0x1_0000 == n / 0x100 / 0x100
  {
  }

  lemma TresVeces(n: nat)
    ensures n / 0x100_0000 == n / 0x100 / 0x100 / 0x100
  {
  }

  /** Four bytes are the image of exactly the word they load as. */
  lemma VueltaEIda32(b: seq<Byte>)
    requires |b| == PALABRA
    ensures Le32(DeLe32(b)) == b
  {
    var n := DeLe32(b);
    var n3: nat := b[3];
    var n2: nat := 0x100 * n3 + b[2];
    var n1: nat := 0x100 * n2 + b[1];
    assert n == 0x100 * n1 + b[0];
    Cociente(n1, b[0]);
    Cociente(n2, b[1]);
    Cociente(n3, b[2]);
    DosVeces(n);
    TresVeces(n);
    hide DeLe32;
  }

  /** `memcpy(dst + off, src, |src|)`. */
  method Memcpy(dst: array<Byte>, off: nat, src: seq<Byte>)
    requires off + |src| <= dst.Length
    modifies dst
    ensures dst[..] == old(dst[..off]) + src + old(dst[off + |src|..])
  {
    var i := 0;
    while i < |src|
      invariant 0 <= i <= |src|
      invariant dst[..off] == old(dst[..off])
      invariant dst[off..off + i] == src[..i]
      invariant dst[off + i..] == old(dst[off + i..])
    {
      dst[off + i] := src[i];
      i := i + 1;
    }
    assert src[..|src|] == src;
    assert dst[..] == dst[..off] + dst[off..off + |src|] + dst[off + |src|..];
  }

  /** `memmove(a, a + desde, n)`: the regions overlap, so bytes move in ascending order. */
  method Memmove(a: array<Byte>, desde: nat, n: nat)
    requires desde + n <= a.Length
    modifies a
    ensures a[..n] == old(a[desde..desde + n])
  {
    var i := 0;
    while i < n
      invariant 0 <= i <= n
      invariant forall k :: 0 <= k < i ==> a[k] == old(a[desde + k])
      invariant forall k :: i <= k < a.Length ==> a[k] == old(a[k])
    {
      a[i] := a[desde + i];
      i := i + 1;
    }
  }

  /** `realloc(a, n)`: a block of the new size that keeps the common prefix. */
  method Realloc(a: array<Byte>, n: nat) returns (r: array<Byte>)
    ensures fresh(r) && r.Length == n
    ensures forall k :: 0 <= k < n && k < a.Length ==> r[k] == a[k]
  {
    r := new Byte[n];
    var i := 0;
    while i < n && i < a.Length
      invariant 0 <= i <= n
      invariant i <= a.Length
      invariant forall k :: 0 <= k < i ==> r[k] == a[k]
    {
      r[i] := a[i];
      i := i + 1;
    }
  }
}
