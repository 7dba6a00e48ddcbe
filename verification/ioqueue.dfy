/** core/lib/ioqueue.c: a ring buffer of bytes with all-or-nothing puts and gets. Each method is
    what one pass of the outer loop of ioqueue_put_data or ioqueue_get_data does to the buffer
    while it holds the queue lock. */
module IoQueue {
  type Byte = n: nat | n < 256

  /** A put goes through when more than `count` bytes are free, a get when `count` are there. */
  predicate Fits(size: nat, contents: seq<Byte>, count: nat) {
    |contents| + count + 1 < size
  }

  /** The bytes on the ring from `c` up to but not including `p`. */
  function Span(buf: seq<Byte>, size: nat, c: nat, p: nat): seq<Byte>
    requires c < size <= |buf| && p < size
  {
    if c <= p then buf[c..p] else buf[c..size] + buf[..p]
  }

  predicate Next(i: nat, j: nat, size: nat) {
    j == if i + 1 < size then i + 1 else 0
  }

  lemma SpanPut(buf: seq<Byte>, size: nat, c: nat, p: nat, p': nat, b: Byte)
    requires c < size <= |buf| && p < size && Next(p, p', size) && |Span(buf, size, c, p)| < size - 1
    ensures Span(buf[p := b], size, c, p') == Span(buf, size, c, p) + [b]
  {
    var buf' := buf[p := b];
    assert buf'[..p+1] == buf[..p] + [b];
    if c <= p {
      assert buf'[c..p+1] == buf[c..p] + [b];
    } else {
      assert buf'[c..size] == buf[c..size];
    }
  }

  lemma SpanGet(buf: seq<Byte>, size: nat, c: nat, c': nat, p: nat)
    requires c < size <= |buf| && p < size && Next(c, c', size) && Span(buf, size, c, p) != []
    ensures [buf[c]] + Span(buf, size, c', p) == Span(buf, size, c, p)
  {
  }

  class CircleQueue {
    const size: nat
    const buf: array<Byte>
    var producerP: nat
    var consumorP: nat

    ghost predicate Valid()
      reads this
    {
      0 < size <= buf.Length && producerP < size && consumorP < size
    }

    /** The unread bytes, oldest first. */
    ghost function Contents(): seq<Byte>
      requires Valid()
      reads this, buf
    {
      Span(buf[..], size, consumorP, producerP)
    }

    constructor (size: nat)
      requires size > 0
      ensures Valid() && this.size == size && Contents() == [] && fresh(buf)
    {
      this.size := size;
      buf := new Byte[size](_ => 0);
      producerP, consumorP := 0, 0;
    }

    function Available(): (n: nat)
      requires Valid()
      reads this, buf
      ensures n + |Contents()| == size - 1
    {
      if consumorP == producerP then size - 1
      else if consumorP > producerP then consumorP - producerP - 1
      else size - producerP + consumorP - 1
    }

    function Unread(): (n: nat)
      requires Valid()
      reads this, buf
      ensures n == |Contents()|
    {
      if consumorP == producerP then 0
      else if consumorP > producerP then size - consumorP + producerP
      else producerP - consumorP
    }

    function NextIndex(i: nat): (n: nat)
      requires i < size
      ensures n < size && Next(i, n, size)
    {
      (i + 1) % size
    }

    method PutByte(b: Byte)
      requires Valid() && |Contents()| < size - 1
      modifies buf, `producerP
      ensures Valid() && Contents() == old(Contents()) + [b]
    {
      SpanPut(buf[..], size, consumorP, producerP, NextIndex(producerP), b);
      hide Span;
      ghost var bytes := buf[..][producerP := b];
      buf[producerP] := b;
      assert buf[..] == bytes;
      producerP := NextIndex(producerP);
    }

    method GetByte() returns (b: Byte)
      requires Valid() && Contents() != []
      modifies `consumorP
      ensures Valid() && [b] + Contents() == old(Contents())
    {
      SpanGet(buf[..], size, consumorP, NextIndex(consumorP), producerP);
      hide Span;
      b := buf[consumorP];
      consumorP := NextIndex(consumorP);
    }

    method TryPut(data: seq<Byte>) returns (written: nat)
      requires Valid()
      modifies buf, `producerP
      ensures Valid()
      ensures if Fits(size, old(Contents()), |data|)
        then written == |data| && Contents() == old(Contents()) + data
        else written == 0 && Contents() == old(Contents())
    {
      hide Span;
      written := 0;
      if Available() > |data| {
        while Available() > 0 && written < |data|
          invariant Valid() && written <= |data|
          invariant Contents() == old(Contents()) + data[..written]
          decreases |data| - written
        {
          PutByte(data[written]);
          written := written + 1;
        }
        assert data[..|data|] == data;
      }
    }

    method TryGet(count: nat) returns (data: seq<Byte>)
      requires Valid()
      modifies `consumorP
      ensures Valid()
      ensures if count <= |old(Contents())|
        then data == old(Contents())[..count] && Contents() == old(Contents())[count..]
        else data == [] && Contents() == old(Contents())
    {
      hide Span;
      data := [];
      if Unread() >= count {
        while Unread() > 0 && |data| < count
          invariant Valid() && |data| <= count
          invariant data + Contents() == old(Contents())
          decreases count - |data|
        {
          var b := GetByte();
          data := data + [b];
        }
      }
    }
  }
}
