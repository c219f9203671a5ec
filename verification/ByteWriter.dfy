/** A bounded writer over a byte buffer (bytewriter.c): once something did not fit, nothing more is written. */
module ByteWriter {
  import opened Bytes

  /** What a writer has written, its capacity, and whether it overflowed. */
  datatype Written = Written(bytes: seq<Byte>, capacity: nat, overflow: bool)

  function PutBytes(w: Written, p: seq<Byte>): Written
  {
    if w.overflow || |w.bytes| + |p| > w.capacity then w.(overflow := true) else w.(bytes := w.bytes + p)
  }

  function PutAll(w: Written, ps: seq<seq<Byte>>): Written
  {
    if |ps| == 0 then w else PutBytes(PutAll(w, ps[..|ps| - 1]), ps[|ps| - 1])
  }

  /** Pieces that fit together are all written, in order; pieces that do not are flagged, and the flag stays. */
  lemma {:induction false} AllOrOverflow(capacity: nat, ps: seq<seq<Byte>>)
    ensures
      var w := PutAll(Written([], capacity, false), ps);
      w.capacity == capacity && w.overflow == (|Concat(ps)| > capacity) && (!w.overflow ==> w.bytes == Concat(ps)) && |w.bytes| <= capacity
    decreases |ps|
  {
    if |ps| > 0 {
      AllOrOverflow(capacity, ps[..|ps| - 1]);
      ConcatPrefix(ps, |ps| - 1);
    }
  }

  class Writer {
    const base: array<Byte>
    var ptr: nat
    var overflow: bool

    ghost predicate Valid()
      reads `ptr
    {
      ptr <= base.Length
    }

    ghost function Model(): Written
      requires Valid()
      reads this, base
    {
      Written(base[..ptr], base.Length, overflow)
    }

    constructor (buf: array<Byte>)
      ensures Valid() && base == buf && Model() == Written([], buf.Length, false)
    {
      base, ptr, overflow := buf, 0, false;
    }

    method Size() returns (n: nat)
      requires Valid()
      ensures n == |Model().bytes|
    {
      return ptr;
    }

    /** bw_put. */
    method Put(p: seq<Byte>)
      requires Valid()
      modifies this, base
      ensures Valid() && Model() == PutBytes(old(Model()), p)
    {
      if overflow || ptr + |p| > base.Length {
        overflow := true;
        return;
      }
      for i := 0 to |p|
        invariant ptr == old(ptr) && overflow == old(overflow)
        invariant base[..ptr] == old(base[..ptr]) && forall j :: 0 <= j < i ==> base[ptr + j] == p[j]
      {
        base[ptr + i] := p[i];
      }
      assert base[..ptr + |p|] == base[..ptr] + p;
      ptr := ptr + |p|;
    }

    method PutU32Be(v: int)
      requires Valid()
      modifies this, base
      ensures Valid() && Model() == PutBytes(old(Model()), U32(v))
    {
      var u := Wrap32(v);
      WordBytes(v);
      Put([u / 0x100_0000 % 256, u / 0x1_0000 % 256, u / 0x100 % 256, u % 256]);
    }
  }
}
