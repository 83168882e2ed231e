/** Byte sequences, little-endian scalars, and the "distance from the end" view of a buffer that
    grows towards lower addresses.  A buffer is a sequence whose index 0 is the lowest address in
    use, so writing more data prepends, and everything already written stays a suffix. */
module Bytes {

  type Byte = b: int | 0 <= b < 256

  const U16: int := 0x1_0000
  const U31: int := 0x8000_0000
  const U32: int := 0x1_0000_0000
  const U64: int := 0x1_0000_0000_0000_0000

  function Max(a: nat, b: nat): nat {
    if a < b then b else a
  }

  // ---- little-endian scalars -------------------------------------------------------------------

  function Pow256(k: nat): (p: nat)
    ensures p > 0
  {
    if k == 0 then 1 else 256 * Pow256(k - 1)
  }

  /** The `size` low bytes of n, lowest first. */
  function LE(n: nat, size: nat): (s: seq<Byte>)
    ensures |s| == size
    decreases size
  {
    if size == 0 then [] else [n % 256] + LE(n / 256, size - 1)
  }

  function FromLE(s: seq<Byte>): (n: nat)
    ensures n < Pow256(|s|)
  {
    if s == [] then 0 else s[0] + 256 * FromLE(s[1..])
  }

  /** Writing a scalar that fits and reading it back gives the scalar. */
  lemma {:induction false} ScalarRoundTrip(n: nat, size: nat)
    requires n < Pow256(size)
    ensures FromLE(LE(n, size)) == n
    decreases size
  {
    if size != 0 {
      assert n / 256 < Pow256(size - 1);
      ScalarRoundTrip(n / 256, size - 1);
      assert LE(n, size)[1..] == LE(n / 256, size - 1);
    }
  }

  /** Reading bytes as a scalar and writing it back gives the bytes. */
  lemma {:induction false} BytesRoundTrip(s: seq<Byte>)
    ensures LE(FromLE(s), |s|) == s
  {
    if s != [] {
      BytesRoundTrip(s[1..]);
      assert FromLE(s) % 256 == s[0] && FromLE(s) / 256 == FromLE(s[1..]);
    }
  }

  lemma Widths()
    ensures Pow256(1) == 256 && Pow256(2) == U16 && Pow256(4) == U32 && Pow256(8) == U64
  {
    assert Pow256(1) == 256;
    assert Pow256(2) == U16;
    assert Pow256(3) == 0x100_0000;
    assert Pow256(4) == U32;
    assert Pow256(5) == 0x100_0000_0000;
    assert Pow256(6) == 0x1_0000_0000_0000;
    assert Pow256(7) == 0x100_0000_0000_0000;
  }

  /** Two's complement reading of a 32-bit pattern (soffset_t). */
  function Signed32(u: nat): (i: int)
    ensures u < U32 ==> -U31 <= i < U31
  {
    if u < U31 then u else u - U32
  }

  /** The 32-bit pattern of a difference of offsets. */
  function Wrap32(i: int): (u: nat)
    ensures u < U32
  {
    i % U32
  }

  lemma SignedWrap(i: int)
    requires -U31 <= i < U31
    ensures Signed32(Wrap32(i)) == i
  {
    if i < 0 { assert Wrap32(i) == i + U32; }
  }

  function Zeros(n: nat): (s: seq<Byte>)
    ensures |s| == n && forall i :: 0 <= i < n ==> s[i] == 0
  {
    seq(n, _ => 0)
  }

  /** The scalar stored at a position counted from the start of the buffer. */
  function Word(buf: seq<Byte>, pos: nat, size: nat): (n: nat)
    requires pos + size <= |buf|
    ensures n < Pow256(size)
  {
    FromLE(buf[pos..pos + size])
  }

  lemma WordOfPrefix(n: nat, size: nat, rest: seq<Byte>)
    requires n < Pow256(size)
    ensures Word(LE(n, size) + rest, 0, size) == n
  {
    assert (LE(n, size) + rest)[0..size] == LE(n, size);
    ScalarRoundTrip(n, size);
  }

  /** A window of a window. */
  lemma WordOfSlice(buf: seq<Byte>, lo: nat, hi: nat, pos: nat, size: nat)
    requires lo <= hi <= |buf| && pos + size <= hi - lo
    ensures Word(buf[lo..hi], pos, size) == Word(buf, lo + pos, size)
  {
    var window := buf[lo..hi];
    var a, b := window[pos..pos + size], buf[lo + pos..lo + pos + size];
    forall i | 0 <= i < size
      ensures a[i] == b[i]
    {
      assert a[i] == window[pos + i];
      assert window[pos + i] == buf[lo + (pos + i)];
    }
    assert a == b;
  }

  lemma SliceOfFirst(a: seq<Byte>, b: seq<Byte>, lo: nat, hi: nat)
    requires lo <= hi <= |a|
    ensures (a + b)[lo..hi] == a[lo..hi]
  {
  }

  lemma SliceOfSecond(a: seq<Byte>, b: seq<Byte>, lo: nat, hi: nat)
    requires lo <= hi <= |b|
    ensures (a + b)[|a| + lo..|a| + hi] == b[lo..hi]
  {
  }

  // ---- distance from the end -------------------------------------------------------------------

  /** What lies from distance o to the end: the bytes at `data_at(o)`. */
  function Tail(data: seq<Byte>, o: nat): (s: seq<Byte>)
    requires o <= |data|
    ensures |s| == o
  {
    data[|data| - o..]
  }

  /** The scalar at distance o from the end. */
  function At(data: seq<Byte>, o: nat, size: nat): (n: nat)
    requires size <= o <= |data|
    ensures n < Pow256(size)
  {
    Word(data, |data| - o, size)
  }

  lemma TailStarts(data: seq<Byte>, o: nat, size: nat)
    requires size <= o <= |data|
    ensures FromLE(Tail(data, o)[..size]) == At(data, o, size)
  {
    assert Tail(data, o)[..size] == data[|data| - o..|data| - o + size];
  }

  /** `newer` was obtained from `older` by writing more data in front. */
  ghost predicate Extends(newer: seq<Byte>, older: seq<Byte>) {
    |older| <= |newer| && Tail(newer, |older|) == older
  }

  lemma ExtendsTail(newer: seq<Byte>, older: seq<Byte>, o: nat)
    requires Extends(newer, older) && o <= |older|
    ensures Tail(newer, o) == Tail(older, o)
  {
  }

  lemma ExtendsTransitive(a: seq<Byte>, b: seq<Byte>, c: seq<Byte>)
    requires Extends(a, b) && Extends(b, c)
    ensures Extends(a, c)
  {
    ExtendsTail(a, b, |c|);
  }

  lemma ExtendsPrepend(front: seq<Byte>, older: seq<Byte>)
    ensures Extends(front + older, older)
  {
  }

  /** A scalar keeps its value at its distance from the end whatever is written in front. */
  lemma AtStable(newer: seq<Byte>, older: seq<Byte>, o: nat, size: nat)
    requires Extends(newer, older) && size <= o <= |older|
    ensures At(newer, o, size) == At(older, o, size)
  {
    ExtendsTail(newer, older, o);
    assert newer[|newer| - o..|newer| - o + size] == Tail(newer, o)[..size];
    assert older[|older| - o..|older| - o + size] == Tail(older, o)[..size];
  }

  lemma AtPrepended(n: nat, size: nat, older: seq<Byte>)
    requires n < Pow256(size)
    ensures At(LE(n, size) + older, |older| + size, size) == n
  {
    WordOfPrefix(n, size, older);
  }

  // ---- alignment -------------------------------------------------------------------------------

  /** The alignments the format knows: powers of two up to FLATBUFFERS_MAX_ALIGNMENT. */
  predicate IsAlignment(a: nat) {
    a == 1 || a == 2 || a == 4 || a == 8 || a == 16 || a == 32
  }

  /** The sizes of scalars. */
  predicate IsScalarSize(s: nat) {
    s == 1 || s == 2 || s == 4 || s == 8
  }

  /** `((~n) + 1) & (size - 1)` on a 64-bit size_t: the two's complement negation, of which the
      mask keeps the remainder modulo a power of two. */
  function PaddingBytes(n: nat, size: nat): nat
    requires size > 0
  {
    (U64 - 1 - n % U64 + 1) % U64 % size
  }

  lemma MultiplesCompose(n: int, small: nat, big: nat)
    requires IsAlignment(small) && IsAlignment(big) && small <= big
    requires n % big == 0
    ensures n % small == 0
  {
    var q := n / big;
    var k := big / small;
    assert big == k * small;
    assert n == (q * k) * small;
    ModOfMultiple(q * k, small);
  }

  /** p bytes of padding after n bytes end on a multiple of size. */
  predicate Reaches(n: nat, p: nat, size: nat)
    requires size > 0
  {
    (n + p) % size == 0
  }

  /** PaddingBytes is the least amount of padding that reaches a multiple of the alignment. */
  lemma PaddingIsLeast(n: nat, size: nat)
    requires IsAlignment(size)
    ensures PaddingBytes(n, size) < size
    ensures Reaches(n, PaddingBytes(n, size), size)
    ensures forall p: nat :: Reaches(n, p, size) ==> PaddingBytes(n, size) <= p
  {
    var p := PaddingBytes(n, size);
    PaddingReaches(n, size);
    forall q: nat | Reaches(n, q, size)
      ensures p <= q
    {
      if q < p {
        DifferenceOfMultiples(n + p, n + q, size);
        assert false;
      }
    }
  }

  lemma PaddingReaches(n: nat, size: nat)
    requires IsAlignment(size)
    ensures Reaches(n, PaddingBytes(n, size), size)
  {
    var low, high := n % U64, n / U64;
    var p := PaddingBytes(n, size);
    Multiple64(size);
    ScaledMultiple(high, U64, size);
    PaddingOfLow(low, size);
    SumOfMultiples(low + p, high * U64, size);
    assert n + p == low + p + high * U64;
  }

  lemma PaddingOfLow(low: nat, size: nat)
    requires IsAlignment(size) && low < U64
    ensures (low + (U64 - low) % U64 % size) % size == 0
  {
    Multiple64(size);
    if low != 0 {
      var p := (U64 - low) % size;
      assert (U64 - low - p) % size == 0 by { RemoveRemainder(U64 - low, size); }
      DifferenceOfMultiples(U64, U64 - low - p, size);
    }
  }

  lemma RemoveRemainder(n: nat, size: nat)
    requires size > 0
    ensures (n - n % size) % size == 0
  {
    var q := n / size;
    assert n - n % size == q * size;
    ModOfMultiple(q, size);
  }

  lemma ScaledMultiple(k: int, n: int, size: nat)
    requires size > 0 && n % size == 0
    ensures (k * n) % size == 0
  {
    var q := n / size;
    assert n == q * size;
    assert k * n == (k * q) * size;
    ModOfMultiple(k * q, size);
  }

  lemma Multiple64(size: nat)
    requires IsAlignment(size)
    ensures U64 % size == 0
  {
  }

  lemma ModOfMultiple(k: int, size: nat)
    requires size > 0
    ensures (k * size) % size == 0
  {
    var r := (k * size) % size;
    var d := k - (k * size) / size;
    assert r == d * size;
    assert d >= 1 ==> d * size >= size;
    assert d <= -1 ==> d * size <= -1 * size;
    assert d == 0;
  }

  lemma DifferenceOfMultiples(a: int, b: int, size: nat)
    requires size > 0 && a % size == 0 && b % size == 0
    ensures (a - b) % size == 0
  {
    var p := a / size;
    var q := b / size;
    assert a - b == (p - q) * size;
    ModOfMultiple(p - q, size);
  }

  lemma SumOfMultiples(a: int, b: int, size: nat)
    requires size > 0 && a % size == 0 && b % size == 0
    ensures (a + b) % size == 0
  {
    var p := a / size;
    var q := b / size;
    assert a + b == (p + q) * size;
    ModOfMultiple(p + q, size);
  }
}
