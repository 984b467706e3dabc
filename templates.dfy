/**
 * Template buffers of the fingerprint wrapper: the fixed 512-byte arrays that the
 * vendor driver reads and writes, Kotlin's `ByteArray.copyOf(newSize)` used to hand
 * a template to the caller, and the normalisation `matchTemplates` applies to its
 * two inputs before they reach the driver's matcher.
 */
module Templates {

  /** A Kotlin `Byte` (signed, 8 bits). */
  newtype byte = x: int | -128 <= x < 128

  /** Capacity of `refData` and `matData`, and of every buffer handed to the matcher. */
  const TemplateSize: nat := 512

  /** The contents of a freshly allocated `ByteArray(n)`. */
  function Zeros(n: nat): seq<byte>
  {
    seq(n, _ => 0)
  }

  /**
   * `s.copyOf(n)`: the first `n` bytes of `s`, truncated when `s` is longer
   * and padded with zero bytes when it is shorter.
   */
  function CopyOf(s: seq<byte>, n: nat): (r: seq<byte>)
    ensures |r| == n
    ensures forall i :: 0 <= i < n ==> r[i] == if i < |s| then s[i] else 0
  {
    if n <= |s| then s[..n] else s + Zeros(n - |s|)
  }

  /** Padding never loses information: cutting the padded copy back to the original length gives the original. */
  lemma PadThenCut(s: seq<byte>, n: nat)
    requires |s| <= n
    ensures CopyOf(CopyOf(s, n), |s|) == s
  {
    var p := CopyOf(s, n);
    assert forall i :: 0 <= i < |s| ==> CopyOf(p, |s|)[i] == p[i] == s[i];
  }

  /** A copy to a size no larger than the input is a prefix of it. */
  lemma CopyOfShorter(s: seq<byte>, n: nat)
    requires n <= |s|
    ensures CopyOf(s, n) == s[..n]
  {
  }

  /**
   * Truncation is silent: two inputs that agree on their first `n` bytes have the
   * same copy, whatever follows.
   */
  lemma TruncationForgets(s: seq<byte>, t: seq<byte>, n: nat)
    requires n <= |s| && n <= |t| && s[..n] == t[..n]
    ensures CopyOf(s, n) == CopyOf(t, n)
  {
    CopyOfShorter(s, n);
    CopyOfShorter(t, n);
  }

  /**
   * The four input lengths 0, 511, 512 and 600: the first three reach the matcher
   * intact followed by zero bytes, the last is cut to its first 512 bytes.
   */
  lemma MatchBufferLengths(a: seq<byte>, b: seq<byte>, c: seq<byte>, d: seq<byte>)
    requires |a| == 0 && |b| == 511 && |c| == 512 && |d| == 600
    ensures CopyOf(a, TemplateSize) == Zeros(TemplateSize)
    ensures CopyOf(b, TemplateSize) == b + [0]
    ensures CopyOf(c, TemplateSize) == c
    ensures CopyOf(d, TemplateSize) == d[..TemplateSize]
  {
    assert CopyOf(a, TemplateSize) == a + Zeros(TemplateSize);
    assert CopyOf(b, TemplateSize) == b + Zeros(1);
    assert c[..TemplateSize] == c;
  }

  /**
   * `System.arraycopy(src, 0, dst, 0, n)`: the first `n` elements of `dst` become
   * those of `src` and the rest of `dst` is untouched. The wrapper only copies into
   * buffers it has just allocated, so `src` and `dst` are distinct.
   */
  method CopyPrefix(src: array<byte>, dst: array<byte>, n: nat)
    requires n <= src.Length && n <= dst.Length && src != dst
    modifies dst
    ensures dst[..n] == src[..n]
    ensures dst[n..] == old(dst[n..])
  {
    var i := 0;
    while i < n
      invariant 0 <= i <= n
      invariant dst[..i] == src[..i]
      invariant dst[i..] == old(dst[i..])
    {
      dst[i] := src[i];
      i := i + 1;
    }
  }

  /**
   * One input of `matchTemplates`: a fresh `ByteArray(512)` into which the first
   * `min(size, 512)` bytes of the template are copied.
   */
  method Fit(template: array<byte>) returns (buf: array<byte>)
    ensures fresh(buf) && buf.Length == TemplateSize
    ensures buf[..] == CopyOf(template[..], TemplateSize)
  {
    buf := new byte[TemplateSize](_ => 0);
    var n := if template.Length < TemplateSize then template.Length else TemplateSize;
    CopyPrefix(template, buf, n);
    assert buf[..] == buf[..n] + buf[n..];
  }
}
