/** The growing buffer under a builder: two byte vectors in one allocation.  The data part is pushed
    from the high end downwards, the scratch part from the low end upwards. */
module VectorDownward {
  import opened Bytes

  class Vector {
    var buf: array<Byte>      // the allocation; length 0 stands for the null pointer
    var cur: nat              // start of the data part
    var scratch: nat          // end of the scratch part
    var size: nat             // bytes in the data part (SizeT, a uint32_t)
    const initialSize: nat
    const minAlign: nat
    const maxSize: nat

    ghost predicate Valid()
      reads this, buf
    {
      && 0 < minAlign
      && scratch <= cur <= buf.Length
      && size == buf.Length - cur
      && size < U32
      && scratch < U32
    }

    /** The data part, lowest address first. */
    ghost function Data(): (s: seq<Byte>)
      requires Valid()
      reads this, buf
      ensures |s| == size
    {
      buf[cur..]
    }

    ghost function Scratch(): (s: seq<Byte>)
      requires Valid()
      reads this, buf
      ensures |s| == scratch
    {
      buf[..scratch]
    }

    constructor (initialSize: nat, minAlign: nat, maxSize: nat)
      requires 0 < minAlign
      ensures Valid() && fresh(buf)
      ensures Data() == [] && Scratch() == []
      ensures this.initialSize == initialSize && this.minAlign == minAlign && this.maxSize == maxSize
    {
      this.initialSize, this.minAlign, this.maxSize := initialSize, minAlign, maxSize;
      buf := new Byte[0];
      cur, scratch, size := 0, 0, 0;
    }

    /** `cur_ - scratch_` cast to SizeT. */
    function UnusedBufferSize(): nat
      requires scratch <= cur
      reads this
    {
      (cur - scratch) % U32
    }

    /** The capacity after growing for `len` more bytes: by at least half (or by the initial size),
        then rounded up to the buffer alignment, a power of two. */
    function GrownCapacity(reserved: nat, len: nat): (r: nat)
      requires 0 < minAlign && 0 < len
      ensures r % minAlign == 0
      ensures var least := reserved + Max(len, if reserved == 0 then initialSize else reserved / 2);
              least <= r < least + minAlign
    {
      var usual := if reserved != 0 then reserved / 2 else initialSize;
      var wanted := reserved + (if len > usual then len else usual);
      RoundUp(wanted, minAlign);
      (wanted + minAlign - 1) / minAlign * minAlign
    }

    /** Copies both used ends of the old allocation into a larger one. */
    method Reallocate(len: nat)
      requires Valid() && 0 < len
      modifies this`buf, this`cur
      ensures Valid() && fresh(buf)
      ensures Data() == old(Data()) && Scratch() == old(Scratch())
      ensures len <= cur - scratch && buf.Length == GrownCapacity(old(buf.Length), len)
    {
      var reserved := GrownCapacity(buf.Length, len);
      var bigger := new Byte[reserved](_ => 0);
      forall i | 0 <= i < size {
        bigger[reserved - size + i] := buf[buf.Length - size + i];
      }
      forall i | 0 <= i < scratch {
        bigger[i] := buf[i];
      }
      assert bigger[reserved - size..] == Data();
      assert bigger[..scratch] == Scratch();
      buf, cur := bigger, reserved - size;
    }

    /** Makes `len` free bytes available between the two parts; neither part changes.  Only if there are
        not as many is anything allocated. */
    method EnsureSpace(len: nat)
      requires Valid() && size < maxSize
      modifies this`buf, this`cur
      ensures Valid() && (buf == old(buf) || fresh(buf))
      ensures if len <= old(UnusedBufferSize()) then buf == old(buf) && cur == old(cur)
              else buf.Length == GrownCapacity(old(buf.Length), len)
      ensures Data() == old(Data()) && Scratch() == old(Scratch())
      ensures len <= cur - scratch
    {
      if len > UnusedBufferSize() {
        Reallocate(len);
      }
    }

    /** Extends the data part downwards by `len` bytes of unspecified content. */
    method MakeSpace(len: nat)
      requires Valid() && (0 < len ==> size < maxSize) && size + len < U32
      modifies this`buf, this`cur, this`size
      ensures Valid() && (buf == old(buf) || fresh(buf))
      ensures size == old(size) + len
      ensures Data()[len..] == old(Data()) && Scratch() == old(Scratch())
    {
      if len != 0 {
        EnsureSpace(len);
        cur, size := cur - len, size + len;
      }
    }

    /** push / push_small: writes bytes in front of the data part.  The assertion of ensure_space is asked
        before the bytes are counted, so it lets a push pass the limit, exactly if the bytes reach it; a
        further push then fails. */
    method Push(bytes: seq<Byte>)
      requires Valid() && (bytes != [] ==> size < maxSize) && size + |bytes| < U32
      modifies this`buf, this`cur, this`size, buf
      ensures Valid() && (buf == old(buf) || fresh(buf))
      ensures Data() == bytes + old(Data()) && Scratch() == old(Scratch())
      ensures bytes != [] ==> (maxSize <= size <==> maxSize - old(size) <= |bytes|)
    {
      MakeSpace(|bytes|);
      Overwrite(0, bytes);
    }

    /** fill / fill_big: pushes zero bytes. */
    method Fill(n: nat)
      requires Valid() && (0 < n ==> size < maxSize) && size + n < U32
      modifies this`buf, this`cur, this`size, buf
      ensures Valid() && (buf == old(buf) || fresh(buf))
      ensures Data() == Zeros(n) + old(Data()) && Scratch() == old(Scratch())
    {
      MakeSpace(n);
      ZeroFront(n);
    }

    method ZeroFront(n: nat)
      requires Valid() && n <= size
      modifies buf
      ensures Valid()
      ensures Data() == Zeros(n) + old(Data())[n..] && Scratch() == old(Scratch())
    {
      var i := 0;
      while i < n
        invariant 0 <= i <= n
        invariant forall j :: cur <= j < cur + i ==> buf[j] == 0
        invariant buf[cur + n..] == old(buf[cur + n..]) && buf[..scratch] == old(buf[..scratch])
      {
        buf[cur + i] := 0;
        i := i + 1;
      }
      assert buf[cur..] == Zeros(n) + buf[cur + n..];
    }

    /** Writes bytes over the data part at a position counted from its start (WriteScalar). */
    method Overwrite(pos: nat, bytes: seq<Byte>)
      requires Valid() && pos + |bytes| <= size
      modifies buf
      ensures Valid()
      ensures Data() == old(Data())[..pos] + bytes + old(Data())[pos + |bytes|..]
      ensures Scratch() == old(Scratch())
    {
      forall i | 0 <= i < |bytes| {
        buf[cur + pos + i] := bytes[i];
      }
    }

    /** The bytes at distance `offset` from the end. */
    function DataAt(offset: nat): (s: seq<Byte>)
      requires Valid() && offset <= size
      reads this, buf
      ensures s == Tail(Data(), offset)
    {
      buf[buf.Length - offset..]
    }

    /** A scalar in the scratch part. */
    function ScratchWord(pos: nat, width: nat): (n: nat)
      requires Valid() && pos + width <= scratch
      reads this, buf
      ensures n == Word(Scratch(), pos, width)
    {
      assert Scratch()[pos..pos + width] == buf[pos..pos + width];
      FromLE(buf[pos..pos + width])
    }

    method Pop(n: nat)
      requires Valid() && n <= size
      modifies this`cur, this`size
      ensures Valid()
      ensures Data() == old(Data())[n..] && Scratch() == old(Scratch())
    {
      cur, size := cur + n, size - n;
    }

    method ScratchPush(bytes: seq<Byte>)
      requires Valid() && size < maxSize && scratch + |bytes| < U32
      modifies this`buf, this`cur, this`scratch, buf
      ensures Valid() && (buf == old(buf) || fresh(buf))
      ensures Data() == old(Data()) && Scratch() == old(Scratch()) + bytes
    {
      EnsureSpace(|bytes|);
      forall i | 0 <= i < |bytes| {
        buf[scratch + i] := bytes[i];
      }
      scratch := scratch + |bytes|;
    }

    method ScratchPop(n: nat)
      requires Valid() && n <= scratch
      modifies this`scratch
      ensures Valid()
      ensures Data() == old(Data()) && Scratch() == old(Scratch())[..old(scratch) - n]
    {
      scratch := scratch - n;
    }

    method ClearScratch()
      requires Valid()
      modifies this`scratch
      ensures Valid() && Data() == old(Data()) && Scratch() == []
    {
      scratch := 0;
    }

    /** Forgets the contents and keeps the allocation. */
    method Clear()
      requires Valid()
      modifies this`cur, this`size, this`scratch
      ensures Valid() && Data() == [] && Scratch() == []
    {
      cur, size, scratch := buf.Length, 0, 0;
    }
  }

  /** A limit of 8 is passed by a push of 12 bytes, whose assertion holds. */
  method LimitPassed() returns (v: Vector)
    ensures v.Valid() && v.maxSize == 8 && v.size == 12
  {
    v := new Vector(1024, 8, 8);
    v.Push(Zeros(12));
  }

  lemma RoundUp(n: nat, align: nat)
    requires 0 < align
    ensures n <= (n + align - 1) / align * align < n + align
    ensures (n + align - 1) / align * align % align == 0
  {
    var q := (n + align - 1) / align;
    assert n + align - 1 == q * align + (n + align - 1) % align;
    ModOfMultiple(q, align);
  }
}
