module WorkStealingDeque {
  // The work-stealing deque with each operation run to completion: the masked
  // circular buffer, its doubling, and push, pop and steal over it.  Through
  // every resize it behaves as a sequence that is pushed and popped at one end
  // and stolen from at the other.

  import opened Prelude
  import Bits

  const MIN_CAPACITY := 8

  // A slot is None before it is first put and after its item was moved out.
  class CircularBuffer<T> {
    const data: array<Option<T>>
    ghost const bits: nat

    ghost predicate Valid() {
      data.Length == Bits.Pow2(bits)
    }

    constructor (capacity: nat, ghost bits: nat)
      ensures fresh(data) && data.Length == capacity && this.bits == bits
      ensures forall i | 0 <= i < capacity :: data[i] == None
    {
      data := new Option<T>[capacity](_ => None);
      this.bits := bits;
    }

    // The slot of index i.
    ghost function At(i: nat): Option<T>
      requires Valid()
      reads data
    {
      data[i % data.Length]
    }

    // Every index in lo .. hi - 1 has its item.
    ghost predicate Full(lo: nat, hi: nat)
      requires Valid()
      reads data
    {
      forall i: nat | lo <= i < hi :: At(i).Some?
    }

    // The items stored for the indices lo .. hi - 1.
    ghost function Span(lo: nat, hi: nat): (s: seq<T>)
      requires Valid() && lo <= hi && Full(lo, hi)
      reads data
      ensures |s| == hi - lo
      ensures forall i: nat | i < |s| :: s[i] == At(lo + i).value
    {
      seq(hi - lo, (i: nat) requires Valid() && At(lo + i).Some? reads data => At(lo + i).value)
    }

    // Indices less than a capacity apart do not share a slot.
    lemma Apart(i: nat, j: nat)
      requires Valid() && i != j && i < j + data.Length && j < i + data.Length
      ensures i % data.Length != j % data.Length
    {
      if i < j {
        Bits.SlotsApart(data.Length, i, j);
      } else {
        Bits.SlotsApart(data.Length, j, i);
      }
    }

    method Put(index: nat, item: T)
      requires Valid()
      modifies data
      ensures At(index) == Some(item)
      ensures forall i: nat | i != index && i < index + data.Length && index < i + data.Length :: At(i) == old(At(i))
    {
      Bits.MaskIsMod(index, bits);
      data[Bits.And(index, data.Length - 1)] := Some(item);
      forall i: nat | i != index && i < index + data.Length && index < i + data.Length ensures At(i) == old(At(i)) {
        Apart(i, index);
      }
    }

    // The item is moved out of its slot.
    method Get(index: nat) returns (item: T)
      requires Valid() && At(index).Some?
      modifies data
      ensures old(At(index)) == Some(item) && At(index) == None
      ensures forall i: nat | i != index && i < index + data.Length && index < i + data.Length :: At(i) == old(At(i))
    {
      Bits.MaskIsMod(index, bits);
      item := data[Bits.And(index, data.Length - 1)].value;
      data[Bits.And(index, data.Length - 1)] := None;
      forall i: nat | i != index && i < index + data.Length && index < i + data.Length ensures At(i) == old(At(i)) {
        Apart(i, index);
      }
    }

    // Storing the item one past the end of a span extends the span.
    method Append(top: nat, bottom: nat, item: T)
      requires Valid() && top <= bottom < top + data.Length && Full(top, bottom)
      modifies data
      ensures Full(top, bottom + 1) && Span(top, bottom + 1) == old(Span(top, bottom)) + [item]
    {
      ghost var was := Span(top, bottom);
      label before:
      Put(bottom, item);
      forall i: nat | top <= i < bottom ensures At(i) == old@before(At(i)) {
      }
      assert forall i: nat | i < |was| :: Span(top, bottom + 1)[i] == was[i];
    }

    // A buffer of twice the capacity with the items of top .. bottom - 1, moved
    // out of this one.
    method Resize(bottom: nat, top: nat) returns (bigger: CircularBuffer<T>)
      requires Valid() && top <= bottom <= top + data.Length && Full(top, bottom)
      modifies data
      ensures fresh(bigger) && fresh(bigger.data) && bigger.Valid()
      ensures bigger.data.Length == 2 * data.Length
      ensures bigger.Full(top, bottom) && bigger.Span(top, bottom) == old(Span(top, bottom))
      ensures forall i: nat | top <= i < bottom :: At(i) == None
    {
      ghost var was := Span(top, bottom);
      bigger := new CircularBuffer(2 * data.Length, bits + 1);
      var i := top;
      while i < bottom
        invariant top <= i <= bottom
        invariant fresh(bigger.data) && bigger.Valid()
        invariant forall j: nat | top <= j < i :: bigger.At(j) == Some(was[j - top]) && At(j) == None
        invariant forall j: nat | i <= j < bottom :: At(j) == Some(was[j - top])
      {
        var item := Get(i);
        bigger.Put(i, item);
        i := i + 1;
      }
      assert bigger.Span(top, bottom) == was;
    }
  }

  class WorkStealingQueue<T> {
    var top: nat
    var bottom: nat
    var buffer: CircularBuffer<T>
    var garbage: seq<CircularBuffer<T>>

    // One slot always stays free, so full and empty differ.
    ghost predicate Valid()
      reads this, buffer.data
    {
      buffer.Valid() && top <= bottom <= top + buffer.data.Length - 1 && buffer.Full(top, bottom)
    }

    ghost function Contents(): (c: seq<T>)
      requires Valid()
      reads this, buffer.data
    {
      buffer.Span(top, bottom)
    }

    // A size_t capacity above 2^63 rounds to zero: such a queue has no slot, and
    // no operation on it is valid.
    constructor (capacity: nat)
      requires capacity < Bits.WORD
      ensures fresh(buffer) && fresh(buffer.data)
      ensures Valid() <==> capacity <= Bits.WORD / 2
      ensures Valid() ==>
                && Contents() == []
                && Bits.IsLeastPow2AtLeast(buffer.data.Length,
                                           if capacity < MIN_CAPACITY then MIN_CAPACITY else capacity)
      ensures capacity > Bits.WORD / 2 ==> buffer.data.Length == 0
    {
      var wanted := if capacity < MIN_CAPACITY then MIN_CAPACITY else capacity;
      var rounded := Bits.RoundUpToPowerOfTwo(wanted);
      ghost var k: nat := 0;
      if wanted <= Bits.WORD / 2 {
        k :| rounded == Bits.Pow2(k);
      }
      var b := new CircularBuffer(rounded, k);
      top, bottom, buffer, garbage := 0, 0, b, [];
    }

    // Only the owner calls push.
    method Push(item: T)
      requires Valid()
      modifies this, buffer.data
      ensures Valid() && (buffer == old(buffer) || (fresh(buffer) && fresh(buffer.data)))
      ensures Contents() == old(Contents()) + [item]
      ensures top == old(top)
      ensures var cap := old(buffer.data.Length);
              buffer.data.Length == if |old(Contents())| >= cap - 1 then 2 * cap else cap
      ensures garbage == if buffer == old(buffer) then old(garbage) else old(garbage) + [old(buffer)]
    {
      var buf := buffer;
      if bottom - top >= buf.data.Length - 1 {
        garbage := garbage + [buf];
        buf := buf.Resize(bottom, top);
        buffer := buf;
      }
      buf.Append(top, bottom, item);
      bottom := bottom + 1;
    }

    // Only the owner calls pop: it takes the newest item.
    method Pop() returns (item: Option<T>)
      requires Valid()
      modifies this, buffer.data
      ensures Valid() && buffer == old(buffer) && garbage == old(garbage)
      ensures item.None? <==> old(Contents()) == []
      ensures item.Some? ==> old(Contents()) == Contents() + [item.value]
      ensures item.None? ==> Contents() == []
    {
      ghost var c0 := Contents();
      var b: int := bottom - 1;
      if top <= b {
        bottom := b;
        if top == b {
          top := top + 1;
          bottom := b + 1;
        }
        var x := buffer.Get(b);
        assert c0 == Contents() + [x];
        item := Some(x);
      } else {
        item := None;
      }
    }

    // Any other thread steals: it takes the oldest item.
    method Steal() returns (item: Option<T>)
      requires Valid()
      modifies this, buffer.data
      ensures Valid() && buffer == old(buffer) && garbage == old(garbage)
      ensures item.None? <==> old(Contents()) == []
      ensures item.Some? ==> old(Contents()) == [item.value] + Contents()
      ensures item.None? ==> Contents() == []
    {
      ghost var c0 := Contents();
      if top >= bottom {
        item := None;
      } else {
        var t := top;
        top := top + 1;
        var x := buffer.Get(t);
        assert c0 == [x] + Contents();
        item := Some(x);
      }
    }

    method Size() returns (n: nat)
      requires Valid()
      ensures n == |Contents()|
    {
      n := if bottom - top > 0 then bottom - top else 0;
    }
  }
}
