/** Code points to UTF-8 and back (sections 3 and 4 of RFC 3629), bit by bit. */
module Utf8 {
  import opened Wrappers

  // ---- encoding --------------------------------------------------------------------------------

  /** The low byte (a cast to char). */
  function Low(x: bv32): bv8 {
    (x & 0xFF) as bv8
  }

  /** `ucc >> (j * 6)`. */
  function Group(ucc: bv32, j: nat): bv32 {
    if j == 0 then ucc else if j == 1 then ucc >> 6 else if j == 2 then ucc >> 12
    else if j == 3 then ucc >> 18 else if j == 4 then ucc >> 24 else ucc >> 30
  }

  /** A continuation byte: the bits 10 and six bits of the code. */
  function Tail(ucc: bv32, j: nat): bv8 {
    Low((Group(ucc, j) & 0x3F) | 0x80)
  }

  function Tails(ucc: bv32, n: nat): (s: seq<bv8>)
    ensures |s| == n
  {
    if n == 0 then [] else [Tail(ucc, n - 1)] + Tails(ucc, n - 1)
  }

  /** What a form of i + 1 bytes can represent: fewer than this many codes. */
  function Limit(i: nat): bv32 {
    if i == 0 then 0x80 else if i == 1 then 0x800 else if i == 2 then 0x1_0000
    else if i == 3 then 0x20_0000 else if i == 4 then 0x400_0000 else 0x8000_0000
  }

  /** The leading bits of that form: `0xFE << (max_bits - remain_bits)` in a byte. */
  function Lead(i: nat): bv32 {
    if i == 0 then 0 else if i == 1 then 0xC0 else if i == 2 then 0xE0
    else if i == 3 then 0xF0 else if i == 4 then 0xF8 else 0xFC
  }

  /** The constants are those of the shifts in the loop. */
  lemma LimitsAreShifts(i: nat)
    requires i < 6
    ensures var maxBits := 6 + i * 5 + (if i == 0 then 1 else 0);
            && Limit(i) == (1 as bv32) << maxBits
            && Lead(i) == ((0xFE as bv32) << (maxBits - i * 6)) & 0xFF
  {
    if i == 0 {} else if i == 1 {} else if i == 2 {} else if i == 3 {} else if i == 4 {} else { assert i == 5; }
  }

  /** The number of continuation bytes: the first form that has room. */
  function Form(ucc: bv32): nat {
    if ucc < 0x80 then 0 else if ucc < 0x800 then 1 else if ucc < 0x1_0000 then 2
    else if ucc < 0x20_0000 then 3 else if ucc < 0x400_0000 then 4 else 5
  }

  /** The forms before the first that has room have none. */
  predicate NoRoom(ucc: bv32, i: nat) {
    && (i > 0 ==> ucc >= 0x80) && (i > 1 ==> ucc >= 0x800) && (i > 2 ==> ucc >= 0x1_0000)
    && (i > 3 ==> ucc >= 0x20_0000) && (i > 4 ==> ucc >= 0x400_0000) && (i > 5 ==> ucc >= 0x8000_0000)
  }

  lemma FormFound(ucc: bv32, i: nat)
    requires i < 6 && NoRoom(ucc, i)
    ensures ucc < Limit(i) ==> i == Form(ucc) || ucc >= 0x8000_0000
    ensures ucc >= Limit(i) ==> NoRoom(ucc, i + 1)
  {
  }

  /** Nothing is tried yet; and after six forms nothing is left. */
  lemma RoomAtEnd(ucc: bv32)
    requires ucc < 0x8000_0000
    ensures NoRoom(ucc, 0) && !NoRoom(ucc, 6)
  {
  }

  function Encode(ucc: bv32): (s: seq<bv8>) {
    [Low(Lead(Form(ucc)) | Group(ucc, Form(ucc)))] + Tails(ucc, Form(ucc))
  }

  /** The loop tries one to six bytes; for a code whose top bit is not set one of them has room. */
  method ToUTF8(ucc: bv32, out: seq<bv8>) returns (longer: seq<bv8>, n: nat)
    requires ucc < 0x8000_0000
    ensures longer == out + Encode(ucc) && n == |Encode(ucc)|
  {
    hide Low, Group, Lead, Tail, Limit, Form, NoRoom, Encode;
    var i := 0;
    RoomAtEnd(ucc);
    while i < 6
      invariant 0 <= i <= 6 && NoRoom(ucc, i)
    {
      FormFound(ucc, i);
      if ucc < Limit(i) {
        longer := WriteForm(ucc, i, out);
        return longer, i + 1;
      }
      i := i + 1;
    }
    assert false;
  }

  /** The first byte and then the continuation bytes, the highest bits first. */
  method WriteForm(ucc: bv32, i: nat, out: seq<bv8>) returns (longer: seq<bv8>)
    requires i == Form(ucc)
    ensures longer == out + Encode(ucc) && |Encode(ucc)| == i + 1
  {
    hide Low, Group, Lead, Tail, Form;
    longer := out + [Low(Lead(i) | Group(ucc, i))];
    var j := i;
    while j > 0
      invariant 0 <= j <= i
      invariant longer + Tails(ucc, j) == out + Encode(ucc)
    {
      j := j - 1;
      assert longer + ([Tail(ucc, j)] + Tails(ucc, j)) == (longer + [Tail(ucc, j)]) + Tails(ucc, j);
      longer := longer + [Tail(ucc, j)];
    }
    assert longer + [] == longer;
  }

  // ---- decoding --------------------------------------------------------------------------------

  /** The byte at i; the string's terminating zero lies behind its end. */
  function ByteAt(s: seq<bv8>, i: nat): bv8 {
    if i < |s| then s[i] else 0
  }

  predicate IsTail(b: bv8) {
    b & 0xC0 == 0x80
  }

  function Widen(b: bv8): bv32 {
    b as bv32
  }

  function Six(b: bv8): bv32 {
    (b & 0x3F) as bv32
  }

  /** Six more bits. */
  function Join(ucc: bv32, b: bv8): bv32 {
    (ucc << 6) | Six(b)
  }

  predicate IsSurrogate(ucc: bv32) {
    0xD800 <= ucc <= 0xDFFF
  }

  predicate IsCodePoint(ucc: bv32) {
    ucc <= 0x10_FFFF && !IsSurrogate(ucc)
  }

  /** The number of leading 1 bits as the loop counts them, at most six. */
  function LeadingOnes(b: bv8): (n: nat)
    ensures n <= 6
  {
    if b & 0x80 == 0 then 0 else if b & 0x40 == 0 then 1 else if b & 0x20 == 0 then 2
    else if b & 0x10 == 0 then 3 else if b & 0x08 == 0 then 4 else if b & 0x04 == 0 then 5 else 6
  }

  /** The bits of the first byte behind the leading ones: `b & ((1 << (7 - len)) - 1)`. */
  function FirstBits(b: bv8, len: nat): bv32 {
    if len == 2 then (b & 0x1F) as bv32 else if len == 3 then (b & 0x0F) as bv32 else (b & 0x07) as bv32
  }

  /** Six more bits from each of n bytes, which must be continuation bytes. */
  function Gather(s: seq<bv8>, at: nat, n: nat, ucc: bv32): Option<bv32>
    decreases n
  {
    if n == 0 then Some(ucc)
    else if !IsTail(ByteAt(s, at)) then None
    else Gather(s, at + 1, n - 1, Join(ucc, ByteAt(s, at)))
  }

  /** The shortest form, within range. */
  predicate InRange(len: nat, ucc: bv32) {
    if len == 2 then 0x80 <= ucc <= 0x7FF
    else if len == 3 then 0x800 <= ucc <= 0xFFFF
    else 0x1_0000 <= ucc <= 0x10_FFFF
  }

  /** The code point at the front and the number of bytes taken; None for corrupt encodings. */
  function Decode(s: seq<bv8>): Option<(bv32, nat)>
    requires s != []
  {
    var len := LeadingOnes(s[0]);
    if len == 6 && s[0] & 0x02 != 0 then None
    else if len == 0 then Some((Widen(s[0]), 1))
    else if len < 2 || len > 4 then None
    else
      var ucc :- Gather(s, 1, len - 1, FirstBits(s[0], len));
      if IsSurrogate(ucc) || !InRange(len, ucc) then None else Some((ucc, len))
  }

  method FromUTF8(s: seq<bv8>) returns (r: Option<(bv32, nat)>)
    requires s != []
    ensures r == Decode(s)
  {
    hide IsTail, Join, FirstBits, InRange, IsSurrogate;
    var len := 0;
    var mask: bv8 := 0x80;
    while mask >= 0x04
      invariant MaskAt(mask, len) && OnesUpTo(s[0], len)
      decreases mask
    {
      if s[0] & mask == 0 { break; }
      len := len + 1;
      mask := mask >> 1;
    }
    CountedOnes(s[0], mask, len);
    if len == 6 && s[0] & 0x02 != 0 { return None; }
    if len == 0 { return Some((Widen(s[0]), 1)); }
    if len < 2 || len > 4 { return None; }
    var ucc := FirstBits(s[0], len);
    var i := 0;
    while i < len - 1
      invariant 0 <= i <= len - 1
      invariant Gather(s, 1, len - 1, FirstBits(s[0], len)) == Gather(s, 1 + i, len - 1 - i, ucc)
    {
      if !IsTail(ByteAt(s, 1 + i)) { return None; }
      ucc := Join(ucc, ByteAt(s, 1 + i));
      i := i + 1;
    }
    if IsSurrogate(ucc) { return None; }
    if !InRange(len, ucc) { return None; }
    r := Some((ucc, len));
  }

  predicate MaskAt(mask: bv8, len: nat) {
    len <= 6 && mask == (if len == 0 then 0x80 else if len == 1 then 0x40 else if len == 2 then 0x20
      else if len == 3 then 0x10 else if len == 4 then 0x08 else if len == 5 then 0x04 else 0x02)
  }

  predicate OnesUpTo(b: bv8, len: nat) {
    && (len > 0 ==> b & 0x80 != 0) && (len > 1 ==> b & 0x40 != 0) && (len > 2 ==> b & 0x20 != 0)
    && (len > 3 ==> b & 0x10 != 0) && (len > 4 ==> b & 0x08 != 0) && (len > 5 ==> b & 0x04 != 0)
  }

  lemma CountedOnes(b: bv8, mask: bv8, len: nat)
    requires MaskAt(mask, len) && OnesUpTo(b, len) && (mask < 0x04 || b & mask == 0)
    ensures len == LeadingOnes(b)
  {
  }

  // ---- both ways -------------------------------------------------------------------------------

  lemma One(u: bv32)
    requires Form(u) == 0
    ensures var b := Low(Lead(0) | Group(u, 0)); LeadingOnes(b) == 0 && Widen(b) == u
  {
  }

  /** The bytes of the two-byte form, and back. */
  lemma Two(u: bv32)
    requires Form(u) == 1
    ensures var b := Low(Lead(1) | Group(u, 1));
            LeadingOnes(b) == 2 && Join(FirstBits(b, 2), Tail(u, 0)) == u && IsTail(Tail(u, 0))
  {
  }

  lemma Three(u: bv32)
    requires Form(u) == 2
    ensures var b := Low(Lead(2) | Group(u, 2));
            && LeadingOnes(b) == 3 && Join(Join(FirstBits(b, 3), Tail(u, 1)), Tail(u, 0)) == u
            && IsTail(Tail(u, 1)) && IsTail(Tail(u, 0))
  {
  }

  lemma Four(u: bv32)
    requires Form(u) == 3
    ensures var b := Low(Lead(3) | Group(u, 3));
            && LeadingOnes(b) == 4 && Join(Join(Join(FirstBits(b, 4), Tail(u, 2)), Tail(u, 1)), Tail(u, 0)) == u
            && IsTail(Tail(u, 2)) && IsTail(Tail(u, 1)) && IsTail(Tail(u, 0))
  {
  }

  lemma FiveOrSix(u: bv32)
    requires Form(u) >= 4
    ensures LeadingOnes(Low(Lead(Form(u)) | Group(u, Form(u)))) >= 5 || u >= 0x8000_0000
  {
  }

  lemma OneBack(b: bv8)
    requires LeadingOnes(b) == 0
    ensures var u := Widen(b); Form(u) == 0 && Low(Lead(0) | Group(u, 0)) == b && IsCodePoint(u)
  {
  }

  lemma TwoBack(b: bv8, t: bv8)
    requires LeadingOnes(b) == 2 && IsTail(t)
    ensures var u := Join(FirstBits(b, 2), t); Low(Lead(1) | Group(u, 1)) == b && Tail(u, 0) == t
  {
  }

  lemma ThreeBack(b: bv8, t: bv8, t': bv8)
    requires LeadingOnes(b) == 3 && IsTail(t) && IsTail(t')
    ensures var u := Join(Join(FirstBits(b, 3), t), t');
            Low(Lead(2) | Group(u, 2)) == b && Tail(u, 1) == t && Tail(u, 0) == t'
  {
  }

  lemma FourBack(b: bv8, t: bv8, t': bv8, t'': bv8)
    requires LeadingOnes(b) == 4 && IsTail(t) && IsTail(t') && IsTail(t'')
    ensures var u := Join(Join(Join(FirstBits(b, 4), t), t'), t'');
            && Low(Lead(3) | Group(u, 3)) == b
            && Tail(u, 2) == t && Tail(u, 1) == t' && Tail(u, 0) == t''
  {
  }

  lemma NoTailPastEnd(s: seq<bv8>, i: nat)
    requires IsTail(ByteAt(s, i))
    ensures i < |s| && ByteAt(s, i) == s[i]
  {
  }

  /** Gathering one, two and three continuation bytes. */
  lemma GatherOne(s: seq<bv8>, at: nat, u: bv32)
    ensures Gather(s, at, 1, u) == if IsTail(ByteAt(s, at)) then Some(Join(u, ByteAt(s, at))) else None
  {
    hide IsTail, Join, ByteAt;
    assert Gather(s, at + 1, 0, Join(u, ByteAt(s, at))) == Some(Join(u, ByteAt(s, at)));
  }

  lemma GatherTwo(s: seq<bv8>, at: nat, u: bv32)
    ensures Gather(s, at, 2, u) == if IsTail(ByteAt(s, at)) && IsTail(ByteAt(s, at + 1))
              then Some(Join(Join(u, ByteAt(s, at)), ByteAt(s, at + 1))) else None
  {
    hide IsTail, Join, ByteAt;
    GatherOne(s, at + 1, Join(u, ByteAt(s, at)));
  }

  lemma GatherThree(s: seq<bv8>, u: bv32)
    ensures Gather(s, 1, 3, u) == if IsTail(ByteAt(s, 1)) && IsTail(ByteAt(s, 2)) && IsTail(ByteAt(s, 3))
              then Some(Join(Join(Join(u, ByteAt(s, 1)), ByteAt(s, 2)), ByteAt(s, 3))) else None
  {
    hide IsTail, Join, ByteAt;
    GatherTwo(s, 2, Join(u, ByteAt(s, 1)));
  }

  lemma TailsAre(u: bv32)
    ensures Tails(u, 0) == [] && Tails(u, 1) == [Tail(u, 0)] && Tails(u, 2) == [Tail(u, 1), Tail(u, 0)]
    ensures Tails(u, 3) == [Tail(u, 2), Tail(u, 1), Tail(u, 0)]
  {
    hide Tail;
    assert Tails(u, 1) == [Tail(u, 0)] + Tails(u, 0);
    assert Tails(u, 2) == [Tail(u, 1)] + Tails(u, 1);
  }

  lemma Ranges(u: bv32)
    ensures Form(u) <= 5
    ensures Form(u) == 0 ==> IsCodePoint(u)
    ensures Form(u) == 1 ==> IsCodePoint(u) && !IsSurrogate(u) && InRange(2, u)
    ensures Form(u) == 2 ==> InRange(3, u) && (IsCodePoint(u) <==> !IsSurrogate(u))
    ensures Form(u) == 3 ==> !IsSurrogate(u) && (InRange(4, u) <==> IsCodePoint(u))
    ensures Form(u) >= 4 ==> !IsCodePoint(u)
    ensures (InRange(2, u) ==> Form(u) == 1) && (InRange(3, u) ==> Form(u) == 2) && (InRange(4, u) ==> Form(u) == 3)
  {
  }

  /** The bytes of a string that starts with an encoding. */
  lemma Encoded(u: bv32, rest: seq<bv8>)
    requires Form(u) <= 3
    ensures var s := Encode(u) + rest;
            && |Encode(u)| == Form(u) + 1 && s != [] && s[0] == Low(Lead(Form(u)) | Group(u, Form(u)))
            && (Form(u) == 1 ==> ByteAt(s, 1) == Tail(u, 0))
            && (Form(u) == 2 ==> ByteAt(s, 1) == Tail(u, 1) && ByteAt(s, 2) == Tail(u, 0))
            && (Form(u) == 3 ==> ByteAt(s, 1) == Tail(u, 2) && ByteAt(s, 2) == Tail(u, 1) && ByteAt(s, 3) == Tail(u, 0))
  {
    hide Low, Tail, Lead, Group, Form, Tails;
    TailsAre(u);
  }

  /** The branches of Decode by the number of leading ones. */
  lemma DecodeIs(s: seq<bv8>)
    requires s != []
    ensures var len := LeadingOnes(s[0]);
            && (len == 0 ==> Decode(s) == Some((Widen(s[0]), 1)))
            && ((len == 1 || len > 4) ==> Decode(s) == None)
            && (2 <= len <= 4 ==>
                  var g := Gather(s, 1, len - 1, FirstBits(s[0], len));
                  Decode(s) == if g.None? || IsSurrogate(g.value) || !InRange(len, g.value) then None else Some((g.value, len)))
  {
    hide LeadingOnes, FirstBits, Gather, IsSurrogate, InRange;
  }

  /** Exactly the code points come back, with exactly the bytes written taken. */
  lemma EncodeDecode(u: bv32, rest: seq<bv8>)
    requires u < 0x8000_0000
    ensures Decode(Encode(u) + rest) == if IsCodePoint(u) then Some((u, |Encode(u)|)) else None
  {
    hide *;
    var s := Encode(u) + rest;
    Ranges(u);
    if Form(u) >= 4 {
      Longer(u, rest);
    } else {
      Encoded(u, rest);
      DecodeIs(s);
      if Form(u) == 0 {
        One(u);
      } else if Form(u) == 1 {
        Two(u);
        GatherOne(s, 1, FirstBits(s[0], 2));
      } else if Form(u) == 2 {
        Three(u);
        GatherTwo(s, 1, FirstBits(s[0], 3));
      } else {
        Four(u);
        GatherThree(s, FirstBits(s[0], 4));
      }
    }
  }

  lemma Longer(u: bv32, rest: seq<bv8>)
    requires Form(u) >= 4 && u < 0x8000_0000
    ensures Encode(u) != [] && Decode(Encode(u) + rest) == None
  {
    hide Low, Lead, Group, Form, Tails, LeadingOnes, Gather;
    FiveOrSix(u);
  }

  /** The first n bytes are the encoding of u. */
  ghost predicate IsEncodingOf(s: seq<bv8>, u: bv32, n: nat) {
    n <= |s| && IsCodePoint(u) && Encode(u) == s[..n]
  }

  /** Five times six bits, behind the bits of the first byte. */
  function Bits5(high: bv32, a: bv8, b: bv8, c: bv8, d: bv8): bv32 {
    (high << 24) | (Six(a) << 18) | (Six(b) << 12) | (Six(c) << 6) | Six(d)
  }

  function Bits6(high: bv32, a: bv8, b: bv8, c: bv8, d: bv8, e: bv8): bv32 {
    (high << 30) | (Six(a) << 24) | (Six(b) << 18) | (Six(c) << 12) | (Six(d) << 6) | Six(e)
  }

  lemma FiveHold(u: bv32)
    requires u < 0x400_0000
    ensures var b := Low(Lead(4) | Group(u, 4));
            b & 0xFC == 0xF8 && u == Bits5(Widen(b & 3), Tail(u, 3), Tail(u, 2), Tail(u, 1), Tail(u, 0))
    ensures IsTail(Tail(u, 3)) && IsTail(Tail(u, 2)) && IsTail(Tail(u, 1)) && IsTail(Tail(u, 0))
  {
  }

  lemma SixHold(u: bv32)
    requires u < 0x8000_0000
    ensures var b := Low(Lead(5) | Group(u, 5));
            b & 0xFE == 0xFC && u == Bits6(Widen(b & 1), Tail(u, 4), Tail(u, 3), Tail(u, 2), Tail(u, 1), Tail(u, 0))
    ensures IsTail(Tail(u, 4)) && IsTail(Tail(u, 3)) && IsTail(Tail(u, 2)) && IsTail(Tail(u, 1)) && IsTail(Tail(u, 0))
  {
  }

  /** The longer forms keep every bit of the code as well, although nothing decodes them. */
  lemma LongForms(u: bv32)
    requires 0x20_0000 <= u < 0x8000_0000
    ensures var s := Encode(u);
            if u < 0x400_0000
            then |s| == 5 && s[0] & 0xFC == 0xF8 && u == Bits5(Widen(s[0] & 3), s[1], s[2], s[3], s[4])
            else |s| == 6 && s[0] & 0xFE == 0xFC && u == Bits6(Widen(s[0] & 1), s[1], s[2], s[3], s[4], s[5])
    ensures forall j :: 1 <= j < |Encode(u)| ==> IsTail(Encode(u)[j])
  {
    hide Low, Lead, Group, Tail, Bits5, Bits6, Widen, IsTail, Encode;
    if u < 0x400_0000 {
      FiveBytes(u);
      FiveHold(u);
    } else {
      SixBytes(u);
      SixHold(u);
    }
  }

  lemma FiveBytes(u: bv32)
    requires 0x20_0000 <= u < 0x400_0000
    ensures Encode(u) == [Low(Lead(4) | Group(u, 4)), Tail(u, 3), Tail(u, 2), Tail(u, 1), Tail(u, 0)]
  {
    hide Low, Lead, Group, Tail;
    assert Form(u) == 4;
    TailsAre(u);
    assert Tails(u, 4) == [Tail(u, 3)] + Tails(u, 3);
  }

  lemma SixBytes(u: bv32)
    requires 0x400_0000 <= u < 0x8000_0000
    ensures Encode(u) == [Low(Lead(5) | Group(u, 5)), Tail(u, 4), Tail(u, 3), Tail(u, 2), Tail(u, 1), Tail(u, 0)]
  {
    hide Low, Lead, Group, Tail;
    assert Form(u) == 5;
    TailsAre(u);
    assert Tails(u, 4) == [Tail(u, 3)] + Tails(u, 3);
    assert Tails(u, 5) == [Tail(u, 4)] + Tails(u, 4);
  }

  lemma EncodingOf(s: seq<bv8>, u: bv32, n: nat)
    ensures IsEncodingOf(s, u, n) <==> n <= |s| && IsCodePoint(u) && Encode(u) == s[..n]
  {
  }

  lemma BackOne(s: seq<bv8>)
    requires s != [] && LeadingOnes(s[0]) == 0
    ensures Decode(s).Some? && IsEncodingOf(s, Decode(s).value.0, Decode(s).value.1)
  {
    hide *;
    DecodeIs(s);
    OneBack(s[0]);
    var u := Decode(s).value.0;
    FormSpelled(u, s, 1);
    EncodingOf(s, u, 1);
  }

  lemma BackTwo(s: seq<bv8>)
    requires s != [] && LeadingOnes(s[0]) == 2 && Decode(s).Some?
    ensures IsEncodingOf(s, Decode(s).value.0, Decode(s).value.1)
  {
    hide *;
    DecodeIs(s);
    GatherOne(s, 1, FirstBits(s[0], 2));
    NoTailPastEnd(s, 1);
    TwoBack(s[0], s[1]);
    Ranges(Decode(s).value.0);
    FormSpelled(Decode(s).value.0, s, 2);
    EncodingOf(s, Decode(s).value.0, 2);
  }

  lemma BackThree(s: seq<bv8>)
    requires s != [] && LeadingOnes(s[0]) == 3 && Decode(s).Some?
    ensures IsEncodingOf(s, Decode(s).value.0, Decode(s).value.1)
  {
    hide *;
    DecodeIs(s);
    GatherTwo(s, 1, FirstBits(s[0], 3));
    NoTailPastEnd(s, 1);
    NoTailPastEnd(s, 2);
    ThreeBack(s[0], s[1], s[2]);
    Ranges(Decode(s).value.0);
    FormSpelled(Decode(s).value.0, s, 3);
    EncodingOf(s, Decode(s).value.0, 3);
  }

  lemma BackFour(s: seq<bv8>)
    requires s != [] && LeadingOnes(s[0]) == 4 && Decode(s).Some?
    ensures IsEncodingOf(s, Decode(s).value.0, Decode(s).value.1)
  {
    hide *;
    DecodeIs(s);
    GatherThree(s, FirstBits(s[0], 4));
    NoTailPastEnd(s, 1);
    NoTailPastEnd(s, 2);
    NoTailPastEnd(s, 3);
    FourBack(s[0], s[1], s[2], s[3]);
    Ranges(Decode(s).value.0);
    FormSpelled(Decode(s).value.0, s, 4);
    EncodingOf(s, Decode(s).value.0, 4);
  }

  /** Whatever is decoded is the encoding of the result: there is no second way to write it. */
  lemma DecodeEncode(s: seq<bv8>)
    requires s != [] && Decode(s).Some?
    ensures var (u, n) := Decode(s).value; n <= |s| && IsCodePoint(u) && Encode(u) == s[..n]
  {
    hide *;
    DecodeIs(s);
    EncodingOf(s, Decode(s).value.0, Decode(s).value.1);
    if LeadingOnes(s[0]) == 0 { BackOne(s); }
    else if LeadingOnes(s[0]) == 2 { BackTwo(s); }
    else if LeadingOnes(s[0]) == 3 { BackThree(s); }
    else { BackFour(s); }
  }

  /** An encoding spelled out byte by byte. */
  lemma FormSpelled(u: bv32, s: seq<bv8>, n: nat)
    requires n == Form(u) + 1 && n <= 4 && n <= |s| && s[0] == Low(Lead(n - 1) | Group(u, n - 1))
    requires n == 2 ==> s[1] == Tail(u, 0)
    requires n == 3 ==> s[1] == Tail(u, 1) && s[2] == Tail(u, 0)
    requires n == 4 ==> s[1] == Tail(u, 2) && s[2] == Tail(u, 1) && s[3] == Tail(u, 0)
    ensures Encode(u) == s[..n]
  {
    hide Low, Lead, Group, Form, Tails, Tail;
    TailsAre(u);
  }
}
