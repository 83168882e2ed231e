/** Each builder operation lays out the object it is given, and disturbs nothing already there. */
module BuildLaid {
  import opened Bytes
  import opened Wrappers
  import opened BuilderSpec
  import opened Table
  import opened Schema
  import opened TableLayout
  import opened Layout

  /** The buffer only grew in front, and its alignment requirement did not drop. */
  ghost predicate Grew(after: State, before: State) {
    Extends(after.data, before.data) && before.minalign <= after.minalign && IsAlignment(after.minalign)
  }

  lemma GrewTransitive(a: State, b: State, c: State)
    requires Grew(a, b) && Grew(b, c)
    ensures Grew(a, c) && |c.data| <= |b.data| <= |a.data| && c.minalign <= b.minalign <= a.minalign
  {
    ExtendsTransitive(a.data, b.data, c.data);
  }

  lemma PushGrows(st: State, bytes: seq<Byte>)
    requires IsAlignment(st.minalign)
    ensures Grew(Push(st, bytes), st) && IsAlignment(Push(st, bytes).minalign)
  {
    ExtendsPrepend(bytes, st.data);
  }

  /** Align reaches a multiple of the size. */
  lemma AlignGrows(st: State, size: nat)
    requires IsAlignment(st.minalign) && IsAlignment(size)
    ensures Align(st, size) == st.(data := Align(st, size).data, minalign := Align(st, size).minalign)
    ensures IsAlignment(Align(st, size).minalign)
    ensures Grew(Align(st, size), st) && size <= Align(st, size).minalign
    ensures |Align(st, size).data| % size == 0 && |st.data| <= |Align(st, size).data| < |st.data| + size
  {
    PaddingIsLeast(|st.data|, size);
    ExtendsPrepend(Zeros(PaddingBytes(|st.data|, size)), st.data);
  }

  /** After PreAlign, `len` more bytes end on a multiple of the alignment. */
  lemma PreAlignGrows(st: State, len: nat, alignment: nat)
    requires IsAlignment(st.minalign) && IsAlignment(alignment)
    ensures var a := PreAlign(st, len, alignment);
            && Grew(a, st) && IsAlignment(a.minalign) && |st.data| <= |a.data|
            && (len == 0 ==> a == st) && (alignment <= st.minalign ==> a.minalign == st.minalign)
            && (len != 0 ==> alignment <= a.minalign && (|a.data| + len) % alignment == 0)
            && a == st.(data := a.data, minalign := a.minalign)
  {
    if len != 0 {
      PaddingIsLeast(|st.data| + len, alignment);
      ExtendsPrepend(Zeros(PaddingBytes(|st.data| + len, alignment)), st.data);
    }
  }

  lemma NoPadding(n: nat, size: nat)
    requires IsAlignment(size) && n % size == 0
    ensures PaddingBytes(n, size) == 0
  {
    PaddingIsLeast(n, size);
    assert Reaches(n, 0, size);
  }

  lemma ScalarSizeAligns(size: nat)
    requires IsScalarSize(size)
    ensures IsAlignment(size)
  {
  }

  lemma AddOne(n: nat, size: nat)
    requires size > 0 && n % size == 0
    ensures (n + size) % size == 0
  {
    SumOfMultiples(n, size, size);
  }

  /** A scalar is written aligned and reads back. */
  lemma PushScalarLays(st: State, v: nat, size: nat)
    requires IsAlignment(st.minalign) && IsScalarSize(size) && v < Pow256(size)
    ensures var a := PushScalar(st, v, size);
            && Grew(a, st) && size <= a.minalign
            && |a.data| % size == 0 && |st.data| + size <= |a.data| < |st.data| + 2 * size
            && At(a.data, |a.data|, size) == v
            && a == st.(data := a.data, minalign := a.minalign)
  {
    hide Grew, At, LE, Zeros, PaddingBytes, Pow256, IsAlignment;
    assert IsAlignment(size) by { ScalarSizeAligns(size); }
    var a := Align(st, size);
    AlignGrows(st, size);
    PushGrows(a, LE(v, size));
    GrewTransitive(PushScalar(st, v, size), a, st);
    AtPrepended(v, size, a.data);
    AddOne(|a.data|, size);
  }

  lemma PushScalarLength(st: State, v: nat, size: nat)
    requires size > 0
    ensures |st.data| + size <= |PushScalar(st, v, size).data|
  {
  }

  /** A string's or vector's length goes directly in front of its data: no padding comes between. */
  lemma PushLengthLays(st: State, n: nat)
    requires IsAlignment(st.minalign) && n < U32 && |st.data| % 4 == 0
    ensures var a := PushScalar(st, n, 4);
            && a.data == LE(n, 4) + st.data && (4 <= st.minalign ==> a.minalign == st.minalign)
            && Grew(a, st) && 4 <= a.minalign && |a.data| % 4 == 0
            && At(a.data, |a.data|, 4) == n
            && a == st.(data := a.data, minalign := a.minalign)
  {
    NoPadding(|st.data|, 4);
    assert Zeros(0) + st.data == st.data;
    Widths();
    PushScalarLays(st, n, 4);
  }

  lemma CreateStringLays(st: State, str: seq<Byte>)
    requires IsAlignment(st.minalign) && |str| < U31
    ensures var (r, o) := CreateString(st, str);
            && o == |r.data| && Grew(r, st) && 4 <= r.minalign
            && LaidString(r.data, o, o, str)
            && r == st.(data := r.data, minalign := r.minalign)
  {
    var n := |str|;
    var p := PreAlign(st, n + 1, 4);
    PreAlignGrows(st, n + 1, 4);
    var a := Push(p, [0]);
    var b := Push(a, str);
    PushGrows(p, [0]);
    PushGrows(a, str);
    GrewTransitive(b, a, p);
    GrewTransitive(b, p, st);
    PushLengthLays(b, n);
    var r := CreateString(st, str).0;
    GrewTransitive(r, b, st);
    StringBytesLaid(p.data, str);
  }

  lemma StringBytesLaid(rest: seq<Byte>, str: seq<Byte>)
    ensures var data := LE(|str|, 4) + (str + ([0] + rest));
            Tail(data, |data|)[4..4 + |str|] == str && Tail(data, |data|)[4 + |str|] == 0
  {
    var data := LE(|str|, 4) + (str + ([0] + rest));
    assert Tail(data, |data|) == data;
    assert data[4..] == str + ([0] + rest);
    assert data[4..4 + |str|] == str;
  }

  // ---- vectors ---------------------------------------------------------------------------------

  lemma StartVectorGrows(st: State, len: nat, size: nat)
    requires IsAlignment(st.minalign) && IsScalarSize(size)
    ensures var a := StartVector(st, len, size, size);
            && Grew(a, st) && IsAlignment(a.minalign) && |st.data| <= |a.data|
            && (len != 0 ==> (|a.data| + len * size) % 4 == 0 && (|a.data| + len * size) % size == 0 && size <= a.minalign)
            && (len == 0 ==> a.data == st.data)
            && a == st.(data := a.data, minalign := a.minalign, nested := true)
  {
    hide Grew, PreAlign;
    assert IsAlignment(size) by { ScalarSizeAligns(size); }
    var s := st.(nested := true);
    var n := len * size;
    var a := PreAlign(s, n, 4);
    PreAlignGrows(s, n, 4);
    PreAlignGrows(a, n, size);
    GrewTransitive(PreAlign(a, n, size), a, st);
    if len != 0 {
      assert n != 0;
      SecondPreAlign(a, n, size);
    } else {
      assert n == 0;
    }
  }

  /** The second alignment keeps the first: it pads by nothing, or by a multiple of 4. */
  lemma SecondPreAlign(a: State, n: nat, size: nat)
    requires IsAlignment(a.minalign) && IsScalarSize(size) && n != 0 && (|a.data| + n) % 4 == 0
    ensures var b := PreAlign(a, n, size); (|b.data| + n) % 4 == 0 && (|b.data| + n) % size == 0
  {
    PreAlignGrows(a, n, size);
    var b := PreAlign(a, n, size);
    if size <= 4 {
      MultiplesCompose(|a.data| + n, size, 4);
      NoPadding(|a.data| + n, size);
      assert |b.data| == |a.data|;
    } else {
      MultiplesCompose(|b.data| + n, 4, size);
    }
  }

  lemma {:induction false} ScalarsLaid(rest: seq<Byte>, ns: seq<nat>, size: nat, i: nat)
    requires i < |ns| && forall k :: 0 <= k < |ns| ==> ns[k] < Pow256(size)
    ensures ScalarIs(Scalars(ns, size) + rest, |ns| * size + |rest|, size, i, ns[i])
    decreases i
  {
    var data := Scalars(ns, size) + rest;
    var tail := Scalars(ns[1..], size) + rest;
    assert data == LE(ns[0], size) + tail;
    assert |ns| * size == size + (|ns| - 1) * size;
    if i == 0 {
      AtPrepended(ns[0], size, tail);
      assert 0 * size == 0;
    } else {
      ScalarsLaid(rest, ns[1..], size, i - 1);
      ShiftScalar(data, tail, |ns| * size + |rest|, size, i, ns[i]);
    }
  }

  lemma ShiftScalar(data: seq<Byte>, tail: seq<Byte>, e: nat, size: nat, i: nat, n: nat)
    requires 0 < i && size <= e == |data| && |tail| == e - size && Extends(data, tail)
    requires ScalarIs(tail, e - size, size, i - 1, n)
    ensures ScalarIs(data, e, size, i, n)
  {
    var d := (i - 1) * size;
    assert i * size == d + size;
    AtStable(data, tail, e - size - d, size);
  }

  lemma CreateScalarVectorLays(st: State, ns: seq<nat>, size: nat)
    requires IsAlignment(st.minalign) && IsScalarSize(size) && |ns| < U31
    requires forall k :: 0 <= k < |ns| ==> ns[k] < Pow256(size)
    ensures var (r, o) := CreateScalarVector(st, ns, size);
            && o == |r.data| && Grew(r, st) && 4 <= r.minalign
            && LaidScalars(r.data, o, r.minalign, o, size, ns)
            && r == st.(data := r.data, minalign := r.minalign, nested := false)
  {
    hide Grew, StartVector, Scalars, ScalarIs, At, PushScalar, LE, Pow256;
    var a := StartVector(st, |ns|, size, size);
    StartVectorGrows(st, |ns|, size);
    var b := Push(a, Scalars(ns, size));
    PushGrows(a, Scalars(ns, size));
    GrewTransitive(b, a, st);
    var c := b.(nested := false);
    SameGrowth(c, b, st);
    var r := PushScalar(c, |ns|, 4);
    if ns == [] {
      EmptyVectorLays(c, r);
    } else {
      ElementsLay(a.data, c, ns, size);
    }
    GrewTransitive(r, c, st);
  }

  lemma SameGrowth(a: State, b: State, c: State)
    requires Grew(b, c) && a.data == b.data && a.minalign == b.minalign
    ensures Grew(a, c) && IsAlignment(a.minalign)
  {
  }

  /** The elements, then the length in front of them. */
  lemma ElementsLay(rest: seq<Byte>, c: State, ns: seq<nat>, size: nat)
    requires IsAlignment(c.minalign) && IsScalarSize(size) && 0 < |ns| < U31 && size <= c.minalign
    requires forall k :: 0 <= k < |ns| ==> ns[k] < Pow256(size)
    requires c.data == Scalars(ns, size) + rest && |c.data| % 4 == 0 && |c.data| % size == 0
    ensures var r := PushScalar(c, |ns|, 4);
            && Grew(r, c) && 4 <= r.minalign && r == c.(data := r.data, minalign := r.minalign)
            && LaidScalars(r.data, |r.data|, r.minalign, |r.data|, size, ns)
  {
    hide ScalarIs, At, LE, Pow256, Scalars, PushScalar, Grew, LaidScalars;
    var r := PushScalar(c, |ns|, 4);
    PushLengthLays(c, |ns|);
    GrewExtends(r, c);
    GrewTransitive(r, c, c) by { Unchanged(c); }
    forall i | 0 <= i < |ns|
      ensures ScalarIs(r.data, |r.data| - 4, size, i, ns[i])
    {
      ScalarsLaid(rest, ns, size, i);
      ScalarStable(r.data, c.data, |c.data|, size, i, ns[i]);
    }
    ScalarsAssembled(r.data, r.minalign, size, ns);
  }

  lemma ScalarsAssembled(buf: seq<Byte>, ma: nat, size: nat, ns: seq<nat>)
    requires IsScalarSize(size) && size <= ma && |ns| * size + 4 <= |buf| && |buf| % 4 == 0 && (|buf| - 4) % size == 0
    requires At(buf, |buf|, 4) == |ns| && forall i :: 0 <= i < |ns| ==> ScalarIs(buf, |buf| - 4, size, i, ns[i])
    ensures LaidScalars(buf, |buf|, ma, |buf|, size, ns)
  {
    hide ScalarIs, At, IsScalarSize;
  }

  /** An empty vector is just an aligned zero length. */
  lemma EmptyVectorLays(c: State, r: State)
    requires IsAlignment(c.minalign) && r == PushScalar(c, 0, 4)
    ensures Grew(r, c) && 4 <= r.minalign && |r.data| % 4 == 0 && 4 <= |r.data| && At(r.data, |r.data|, 4) == 0
    ensures r == c.(data := r.data, minalign := r.minalign)
  {
    Widths();
    PushScalarLays(c, 0, 4);
  }

  // ---- vectors of offsets ----------------------------------------------------------------------

  lemma PushOffsetLays(st: State, off: nat)
    requires IsAlignment(st.minalign) && 0 < off <= |st.data| && |PushOffset(st, off).data| <= MAX_BUFFER_SIZE
    ensures var a := PushOffset(st, off);
            && Grew(a, st) && 4 <= a.minalign && IsAlignment(a.minalign)
            && |a.data| % 4 == 0 && |st.data| + 4 <= |a.data| < |st.data| + 8
            && LaidOffset(a.data, |a.data|, |a.data|) && Target(a.data, |a.data|) == off
            && a == st.(data := a.data, minalign := a.minalign)
  {
    hide Grew, Align, PushScalar, At, IsAlignment, LE;
    var a := Align(st, 4);
    assert IsAlignment(4) by { ScalarSizeAligns(4); }
    AlignGrows(st, 4);
    Widths();
    PushScalarLength(a, ReferTo(off, |a.data|), 4);
    PushLengthLays(a, ReferTo(off, |a.data|));
    GrewTransitive(PushOffset(st, off), a, st);
  }

  /** When the buffer is aligned, pushing an offset takes exactly four bytes. */
  lemma PushOffsetAligned(st: State, off: nat)
    requires IsAlignment(st.minalign) && 0 < off <= |st.data| && |st.data| % 4 == 0
    ensures |PushOffset(st, off).data| == |st.data| + 4
  {
    NoPadding(|st.data|, 4);
    NoPadding(|Align(st, 4).data|, 4);
  }

  ghost predicate Positive(offs: seq<nat>) {
    forall k :: 0 <= k < |offs| ==> 0 < offs[k]
  }

  /** Element k of offsets laid from distance e towards the end refers to offs[k]. */
  ghost predicate OffsetIs(buf: seq<Byte>, lim: nat, e: nat, k: nat, off: nat) {
    4 * k <= e && LaidOffset(buf, lim, e - 4 * k) && Target(buf, e - 4 * k) == off
  }

  lemma OffsetIsStable(newer: seq<Byte>, older: seq<Byte>, lim: nat, lim': nat, e: nat, k: nat, off: nat)
    requires Extends(newer, older) && lim <= lim' <= |newer| && OffsetIs(older, lim, e, k, off)
    ensures OffsetIs(newer, lim', e, k, off)
  {
    OffsetStable(newer, older, lim, lim', e - 4 * k);
  }

  lemma Unchanged(st: State)
    requires IsAlignment(st.minalign)
    ensures Grew(st, st)
  {
  }

  lemma GrewExtends(a: State, b: State)
    requires Grew(a, b)
    ensures Extends(a.data, b.data)
  {
  }

  lemma {:induction false} PushOffsetsLay(st: State, offs: seq<nat>)
    requires IsAlignment(st.minalign) && |st.data| % 4 == 0 && Within(offs, |st.data|) && Positive(offs)
    requires |st.data| + 4 * |offs| <= MAX_BUFFER_SIZE
    ensures var r := PushOffsets(st, offs);
            && Grew(r, st) && IsAlignment(r.minalign) && |r.data| == |st.data| + 4 * |offs|
            && (forall k :: 0 <= k < |offs| ==> OffsetIs(r.data, |r.data|, |r.data|, k, offs[k]))
            && r == st.(data := r.data, minalign := r.minalign)
    decreases |offs|
  {
    hide PushOffset, LaidOffset, Target, At, Grew;
    if offs == [] {
      Unchanged(st);
    } else {
      var n := |offs| - 1;
      var rest := offs[..n];
      var a := PushOffset(st, offs[n]);
      PushOffsetAligned(st, offs[n]);
      PushOffsetLays(st, offs[n]);
      PushOffsetsLay(a, rest);
      var r := PushOffsets(a, rest);
      GrewTransitive(r, a, st);
      forall k | 0 <= k < |offs|
        ensures OffsetIs(r.data, |r.data|, |r.data|, k, offs[k])
      {
        if k < n {
          assert OffsetIs(r.data, |r.data|, |r.data|, k, rest[k]);
        } else {
          GrewExtends(r, a);
          assert OffsetIs(a.data, |a.data|, |a.data|, 0, offs[n]);
          OffsetIsStable(r.data, a.data, |a.data|, |r.data|, |a.data|, 0, offs[n]);
          assert |r.data| - 4 * n == |a.data|;
        }
      }
    }
  }

  lemma {:induction false} PushOffsetsLength(st: State, offs: seq<nat>)
    requires Within(offs, |st.data|)
    ensures |st.data| + 4 * |offs| <= |PushOffsets(st, offs).data|
    decreases |offs|
  {
    if offs != [] { PushOffsetsLength(PushOffset(st, offs[|offs| - 1]), offs[..|offs| - 1]); }
  }

  lemma CreateOffsetVectorLays(st: State, offs: seq<nat>)
    requires IsAlignment(st.minalign) && Within(offs, |st.data|) && Positive(offs) && |offs| < U31
    requires |CreateOffsetVector(st, offs).0.data| <= MAX_BUFFER_SIZE
    ensures var (r, o) := CreateOffsetVector(st, offs);
            && o == |r.data| && Grew(r, st) && 4 <= r.minalign
            && LaidOffsets(r.data, o, o, |offs|)
            && (forall k :: 0 <= k < |offs| ==> Target(r.data, o - 4 - 4 * k) == offs[k])
            && r == st.(data := r.data, minalign := r.minalign, nested := false)
  {
    hide Grew, StartVector, PushOffsets, At, PushScalar, LE, Target, LaidOffset;
    var n := |offs|;
    var a := StartVector(st, n, 4, 4);
    StartVectorGrows(st, n, 4);
    StartVectorShort(st, n);
    if n == 0 {
      var c := a.(nested := false);
      SameGrowth(c, a, st);
      PushNoOffsets(a, offs);
      EmptyVectorLays(c, PushScalar(c, 0, 4));
      GrewTransitive(PushScalar(c, 0, 4), c, st);
    } else {
      PushOffsetsLength(a, offs);
      PushScalarLength(PushOffsets(a, offs).(nested := false), n, 4);
      PushOffsetsLay(a, offs);
      var b := PushOffsets(a, offs);
      GrewTransitive(b, a, st);
      var c := b.(nested := false);
      SameGrowth(c, b, st);
      PushLengthLays(c, n);
      var r := PushScalar(c, n, 4);
      GrewTransitive(r, c, st);
      OffsetsUnderLength(r, c, offs);
    }
  }

  lemma OffsetsUnderLength(r: State, c: State, offs: seq<nat>)
    requires Grew(r, c) && |r.data| == |c.data| + 4 && |r.data| % 4 == 0 && 4 * |offs| <= |c.data|
    requires At(r.data, |r.data|, 4) == |offs|
    requires forall k :: 0 <= k < |offs| ==> OffsetIs(c.data, |c.data|, |c.data|, k, offs[k])
    ensures LaidOffsets(r.data, |r.data|, |r.data|, |offs|)
    ensures forall k :: 0 <= k < |offs| ==> Target(r.data, |r.data| - 4 - 4 * k) == offs[k]
  {
    hide LaidOffset, Target, At;
    forall k | 0 <= k < |offs|
      ensures LaidOffset(r.data, |r.data|, |r.data| - 4 - 4 * k) && Target(r.data, |r.data| - 4 - 4 * k) == offs[k]
    {
      OffsetIsStable(r.data, c.data, |c.data|, |r.data|, |c.data|, k, offs[k]);
    }
  }

  lemma PushNoOffsets(st: State, offs: seq<nat>)
    requires offs == []
    ensures PushOffsets(st, offs) == st
  {
  }

  lemma PreAlignAligned(st: State, len: nat, alignment: nat)
    requires IsAlignment(alignment) && (|st.data| + len) % alignment == 0
    ensures |PreAlign(st, len, alignment).data| == |st.data|
  {
    if len != 0 { NoPadding(|st.data| + len, alignment); }
  }

  lemma PreAlignShort(st: State, len: nat)
    ensures |PreAlign(st, len, 4).data| <= |st.data| + 3
  {
  }

  /** With elements of four bytes the second alignment never pads. */
  lemma StartVectorShort(st: State, n: nat)
    requires IsAlignment(st.minalign)
    ensures |StartVector(st, n, 4, 4).data| <= |st.data| + 3
    ensures n != 0 ==> |StartVector(st, n, 4, 4).data| % 4 == 0
  {
    hide PreAlign, Grew;
    var s := st.(nested := true);
    var a := PreAlign(s, n * 4, 4);
    PreAlignShort(s, n * 4);
    PreAlignGrows(s, n * 4, 4);
    if n != 0 {
      PreAlignAligned(a, n * 4, 4);
    } else {
      PreAlignGrows(a, 0, 4);
    }
  }
}
