module MpscQueueObject {
  // The queue object itself, run by one caller at a time: the array of slots and
  // the two positions.  Its methods are the ring's atomic steps in program
  // order, and its contents behave as a bounded first-in first-out queue.

  import opened Prelude
  import opened MpscRing
  import Bits

  class MpscQueue<T> {
    const capBits: nat
    const buffer: array<Slot<T>>
    var enqueuePos: nat
    var dequeuePos: nat
    ghost var log: seq<(nat, T)>
    ghost var popped: seq<T>

    // The object as a ring with one resting producer and a resting consumer.
    ghost function View(): Ring<T>
      reads this, buffer
    {
      Ring(buffer[..], enqueuePos, dequeuePos, [Resting], Ready, log, [ByProducer(log, 0)], popped)
    }

    ghost predicate Valid()
      reads this, buffer
    {
      buffer.Length == Bits.Pow2(capBits) && Quiet(View())
    }

    ghost function Contents(): (c: seq<T>)
      reads this, buffer
      requires Valid()
    {
      Window(View())
    }

    constructor (capBits: nat, blank: T)
      requires capBits >= 1
      ensures Valid() && fresh(buffer) && this.capBits == capBits && Contents() == []
    {
      this.capBits := capBits;
      enqueuePos, dequeuePos, log, popped := 0, 0, [], [];
      var slots := new Slot<T>[Bits.Pow2(capBits)](_ => Slot(0, blank));
      buffer := slots;
      new;
      var i := 0;
      while i < buffer.Length
        invariant 0 <= i <= buffer.Length
        invariant forall j | 0 <= j < i :: buffer[j].sequence == j
        invariant enqueuePos == dequeuePos == 0 && log == [] && popped == []
      {
        buffer[i] := buffer[i].(sequence := i);
        i := i + 1;
      }
      assert Bits.Pow2(1) == 2;
      Bits.Pow2Mono(1, capBits);
      FreshInv(View());
    }

    // The slot index is the position masked with capacity - 1.
    method SlotIndex(pos: nat) returns (i: nat)
      requires buffer.Length == Bits.Pow2(capBits)
      ensures i == Index(pos, buffer.Length) && i < buffer.Length
    {
      Bits.MaskIsMod(pos, capBits);
      i := Bits.And(pos, buffer.Length - 1);
    }

    method TryPush(item: T) returns (ok: bool)
      requires Valid()
      modifies this, buffer
      ensures Valid()
      ensures ok <==> |old(Contents())| < buffer.Length
      ensures Contents() == if ok then old(Contents()) + [item] else old(Contents())
      ensures View() == Pushed(old(View()), item)
    {
      hide SlotsOk, ProducerOk, ConsumerOk, HistoryOk, ByProducer, Pushed;
      ghost var s0 := View();
      PushedAlone(s0, item);
      var pos := enqueuePos;
      var i := SlotIndex(pos);
      var dif := buffer[i].sequence - pos;
      assert buffer[i] == At(s0, pos);
      assert dif <= 0; // with no other producer the reload branch is not taken
      if dif < 0 {
        return false;
      }
      enqueuePos := pos + 1;
      buffer[i] := buffer[i].(data := item);
      buffer[i] := buffer[i].(sequence := pos + 1);
      log := log + [(0, item)];
      ClaimLogged(s0.log, (0, item), 0);
      assert buffer[..] == AfterPush(s0, item).slots;
      assert View() == Pushed(s0, item);
      return true;
    }

    method TryPop() returns (item: Option<T>)
      requires Valid()
      modifies this, buffer
      ensures Valid()
      ensures item.None? <==> old(Contents()) == []
      ensures item.Some? ==> old(Contents()) == [item.value] + Contents()
      ensures item.None? ==> Contents() == old(Contents())
      ensures View() == Popped(old(View()))
    {
      ghost var s0 := View();
      PoppedAlone(s0);
      var i := SlotIndex(dequeuePos);
      assert buffer[i] == At(s0, dequeuePos);
      if buffer[i].sequence != dequeuePos + 1 {
        return None;
      }
      var x := buffer[i].data;
      buffer[i] := buffer[i].(sequence := dequeuePos + buffer.Length);
      dequeuePos := dequeuePos + 1;
      popped := popped + [x];
      assert buffer[..] == AfterPop(s0).slots;
      assert View() == Popped(s0);
      return Some(x);
    }

    // mailbox::drain: take up to maxCount items, in order, stopping early
    // only when the queue is empty.
    method Drain(maxCount: nat) returns (items: seq<T>)
      requires Valid()
      modifies this, buffer
      ensures Valid()
      ensures old(Contents()) == items + Contents()
      ensures |items| == if maxCount <= |old(Contents())| then maxCount else |old(Contents())|
    {
      hide Inv, Window, Popped;
      items := [];
      assert [] + Contents() == Contents();
      while |items| < maxCount
        invariant Valid() && |items| <= maxCount
        invariant old(Contents()) == items + Contents()
      {
        var item := TryPop();
        if item.None? {
          break;
        }
        Assoc(items, [item.value], Contents());
        items := items + [item.value];
      }
    }
  }

  // The values claimed and not yet popped, oldest first.
  ghost function Window<T>(s: Ring<T>): (c: seq<T>)
    requires s.dequeue <= s.enqueue == |s.log|
    ensures |c| == s.enqueue - s.dequeue
    ensures forall i: nat | i < |c| :: c[i] == s.log[s.dequeue + i].1
  {
    seq(s.enqueue - s.dequeue, (i: nat) requires s.dequeue + i < |s.log| => s.log[s.dequeue + i].1)
  }

  // One push with no other thread running: its five atomic steps.
  ghost function Pushed<T>(s: Ring<T>, item: T): Ring<T>
    requires |s.slots| > 0 && |s.accepted| == |s.producers|
  {
    var s1 := Apply(Apply(s, Begin(0, item)), LoadSequence(0));
    Apply(Apply(Apply(s1, CompareExchange(0, false)), MoveData(0)), Publish(0))
  }

  // One pop with no other thread running: its four atomic steps.
  ghost function Popped<T>(s: Ring<T>): Ring<T>
    requires |s.slots| > 0 && |s.accepted| == |s.producers|
  {
    Apply(Apply(Apply(Apply(s, PopLoad), PopTake), PopRelease), PopAdvance)
  }

  // A ring whose slots carry their own numbers starts like the initial one.
  lemma FreshInv<T>(s: Ring<T>)
    requires |s.slots| >= 2 && forall j: nat | j < |s.slots| :: s.slots[j].sequence == j
    requires s == Ring(s.slots, 0, 0, [Resting], Ready, [], [[]], [])
    ensures Quiet(s) && Window(s) == []
  {
  }

  ghost predicate Quiet<T>(s: Ring<T>) {
    Inv(s) && s.producers == [Resting] && s.consumer.Ready?
  }

  lemma PushedAlone<T>(s: Ring<T>, item: T)
    requires Quiet(s)
    ensures Quiet(Pushed(s, item))
    ensures At(s, s.enqueue).sequence <= s.enqueue
    ensures At(s, s.enqueue).sequence < s.enqueue <==> |Window(s)| == |s.slots|
    ensures |Window(s)| <= |s.slots|
    ensures |Window(s)| == |s.slots| ==> Pushed(s, item) == s
    ensures |Window(s)| < |s.slots| ==>
              && Pushed(s, item) == AfterPush(s, item)
              && Window(Pushed(s, item)) == Window(s) + [item]
  {
    FreeOrClaimed(s, s.enqueue);
    PushStarts(s, item);
    if |Window(s)| < |s.slots| {
      assert At(s, s.enqueue).sequence == s.enqueue;
      PushSteps(s, item);
      assert Window(AfterPush(s, item)) == Window(s) + [item];
    }
  }

  ghost function AfterPush<T>(s: Ring<T>, item: T): Ring<T>
    requires |s.slots| > 0 && |s.accepted| == 1
  {
    s.(slots := s.slots[Index(s.enqueue, |s.slots|) := Slot(s.enqueue + 1, item)],
       enqueue := s.enqueue + 1, log := s.log + [(0, item)], accepted := [s.accepted[0] + [item]])
  }

  lemma PushStarts<T>(s: Ring<T>, item: T)
    requires Quiet(s)
    ensures At(s, s.enqueue).sequence < s.enqueue ==> Pushed(s, item) == s
  {
    var s1 := Apply(s, Begin(0, item));
    assert s1.producers == [Loaded(item, s.enqueue)];
    assert At(s1, s.enqueue) == At(s, s.enqueue);
    if At(s, s.enqueue).sequence < s.enqueue {
      assert Apply(s1, LoadSequence(0)).producers == [Resting];
      assert Apply(s1, LoadSequence(0)) == s;
    }
  }

  lemma PushSteps<T>(s: Ring<T>, item: T)
    requires Quiet(s) && At(s, s.enqueue).sequence == s.enqueue
    ensures Pushed(s, item) == AfterPush(s, item) && Quiet(Pushed(s, item))
  {
    hide SlotsOk, ConsumerOk, HistoryOk, Index;
    var p := s.enqueue;
    var s1 := Apply(s, Begin(0, item));
    StepInv(s, Begin(0, item));
    assert s1 == s.(producers := [Loaded(item, p)]);
    var s2 := Apply(s1, LoadSequence(0));
    StepInv(s1, LoadSequence(0));
    assert s2 == s.(producers := [Matched(item, p)]);
    var s3 := Apply(s2, CompareExchange(0, false));
    StepInv(s2, CompareExchange(0, false));
    assert s3.producers == [Claimed(item, p)];
    var s4 := Apply(s3, MoveData(0));
    StepInv(s3, MoveData(0));
    assert s4.producers == [Stored(p)];
    StepInv(s4, Publish(0));
    assert Apply(s4, Publish(0)).producers == [Resting];
  }

  lemma PopsNothing<T>(s: Ring<T>)
    requires Quiet(s) && At(s, s.dequeue).sequence != s.dequeue + 1
    ensures Popped(s) == s
  {
    hide SlotsOk, HistoryOk, Index;
  }

  lemma PoppedAlone<T>(s: Ring<T>)
    requires Quiet(s)
    ensures Quiet(Popped(s))
    ensures At(s, s.dequeue).sequence == s.dequeue + 1 <==> Window(s) != []
    ensures Window(s) == [] ==> Popped(s) == s
    ensures Window(s) != [] ==>
              && At(s, s.dequeue).data == s.log[s.dequeue].1
              && Popped(s) == AfterPop(s)
              && Window(s) == [s.log[s.dequeue].1] + Window(Popped(s))
  {
    hide HistoryOk, Index, Popped;
    OwnedOrPublished(s, s.dequeue);
    if At(s, s.dequeue).sequence != s.dequeue + 1 {
      PopsNothing(s);
    }
    if s.dequeue < s.enqueue {
      assert ClaimedAt(s, s.dequeue);
      assert !Owns(s.producers[0], s.dequeue);
      PopSteps(s);
      assert Window(s) == [s.log[s.dequeue].1] + Window(AfterPop(s));
    }
  }

  ghost function AfterPop<T>(s: Ring<T>): Ring<T>
    requires |s.slots| > 0 && s.dequeue < |s.log|
  {
    var x := s.log[s.dequeue].1;
    s.(slots := s.slots[Index(s.dequeue, |s.slots|) := Slot(s.dequeue + |s.slots|, x)],
       dequeue := s.dequeue + 1, popped := s.popped + [x])
  }

  lemma PopSteps<T>(s: Ring<T>)
    requires Quiet(s) && s.dequeue < s.enqueue
    requires At(s, s.dequeue) == Slot(s.dequeue + 1, s.log[s.dequeue].1)
    ensures Popped(s) == AfterPop(s) && Quiet(Popped(s))
  {
    var s1 := Apply(s, PopLoad);
    StepInv(s, PopLoad);
    var s2 := Apply(s1, PopTake);
    StepInv(s1, PopTake);
    var s3 := Apply(s2, PopRelease);
    StepInv(s2, PopRelease);
    StepInv(s3, PopAdvance);
  }
}
