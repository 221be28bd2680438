module Mailbox {
  // What the actor layer needs of the mailbox ring: a log of cells, each claimed
  // by one producer and then published by it, taken from the front.  Every step
  // of the ring is one of these operations or leaves the log as it is.

  import opened MpscRing

  datatype Cell<T> = Cell(owner: nat, item: T, published: bool)

  function Claim<T>(box: seq<Cell<T>>, t: nat, item: T): seq<Cell<T>> {
    box + [Cell(t, item, false)]
  }

  function PublishAt<T>(box: seq<Cell<T>>, i: nat): seq<Cell<T>>
    requires i < |box|
  {
    box[i := box[i].(published := true)]
  }

  // try_pop has something to take.
  predicate Poppable<T>(box: seq<Cell<T>>) {
    box != [] && box[0].published
  }

  // The cells a ring holds: claimed and not yet handed back.
  ghost function BoxOf<T>(s: Ring<T>): (box: seq<Cell<T>>)
    requires Inv(s)
    ensures |box| == s.enqueue - Front(s)
    ensures forall i: nat | i < |box| :: box[i] == CellAt(s, Front(s) + i)
  {
    seq(s.enqueue - Front(s), (i: nat) requires Front(s) + i < |s.log| && |s.slots| > 0 => CellAt(s, Front(s) + i))
  }

  ghost function CellAt<T>(s: Ring<T>, p: nat): Cell<T>
    requires p < |s.log| && |s.slots| > 0
  {
    Cell(s.log[p].0, s.log[p].1, At(s, p).sequence == p + 1)
  }

  // A won compare-exchange appends an unpublished cell.
  lemma ClaimRefines<T>(s: Ring<T>, t: nat)
    requires Inv(s) && t < |s.producers| && s.producers[t].Matched? && s.producers[t].pos == s.enqueue
    ensures var e := CompareExchange(t, false);
            Inv(Apply(s, e)) && BoxOf(Apply(s, e)) == Claim(BoxOf(s), t, s.producers[t].item)
  {
    hide Index, SlotsOk, HistoryOk, ConsumerOk, ProducerOk;
    var s' := Apply(s, CompareExchange(t, false));
    StepInv(s, CompareExchange(t, false));
    NewCell(s, t);
    assert BoxOf(s') == Claim(BoxOf(s), t, s.producers[t].item);
  }

  lemma NewCell<T>(s: Ring<T>, t: nat)
    requires Inv(s) && t < |s.producers| && s.producers[t].Matched? && s.producers[t].pos == s.enqueue
    ensures var s', item := Apply(s, CompareExchange(t, false)), s.producers[t].item;
            && Front(s') == Front(s) <= s.enqueue && s'.enqueue == s.enqueue + 1 == |s'.log| && s'.slots == s.slots
            && |s.slots| > 0 && s.enqueue == |s.log| && CellAt(s', s.enqueue) == Cell(t, item, false)
            && forall p: nat | p < s.enqueue :: CellAt(s', p) == CellAt(s, p)
  {
    hide Index, HistoryOk, ConsumerOk;
    assert ProducerOk(s, t);
    assert At(s, s.enqueue).sequence == s.enqueue;
  }

  // The sequence store publishes the producer's own cell and no other.
  lemma PublishRefines<T>(s: Ring<T>, t: nat)
    requires Inv(s) && t < |s.producers| && s.producers[t].Stored?
    ensures var e, i := Publish(t), s.producers[t].pos - Front(s);
            && Inv(Apply(s, e))
            && 0 <= i < |BoxOf(s)| && BoxOf(s)[i].owner == t && !BoxOf(s)[i].published
            && BoxOf(Apply(s, e)) == PublishAt(BoxOf(s), i)
  {
    hide SlotsOk, ProducerOk, ConsumerOk, HistoryOk, CellAt, Index, Apply;
    var s', pos := Apply(s, Publish(t)), s.producers[t].pos;
    StepInv(s, Publish(t));
    PublishedCell(s, t);
    var i: nat := pos - Front(s);
    var box, box' := BoxOf(s), BoxOf(s');
    assert box[i] == CellAt(s, Front(s) + i);
    assert box' == PublishAt(box, i) by {
      forall j: nat | j < |box'| ensures box'[j] == PublishAt(box, i)[j] {
        assert box[j] == CellAt(s, Front(s) + j) && box'[j] == CellAt(s', Front(s) + j);
      }
    }
  }

  lemma PublishedCell<T>(s: Ring<T>, t: nat)
    requires Inv(s) && t < |s.producers| && s.producers[t].Stored?
    ensures var s', pos := Apply(s, Publish(t)), s.producers[t].pos;
            && Front(s) == Front(s') <= pos < s.enqueue == s'.enqueue && s'.log == s.log
            && |s'.slots| > 0
            && CellAt(s, pos).owner == t && CellAt(s', pos) == CellAt(s, pos).(published := true)
            && !CellAt(s, pos).published
            && forall p: nat | Front(s) <= p < s.enqueue && p != pos :: CellAt(s', p) == CellAt(s, p)
  {
    hide Index, HistoryOk, ConsumerOk;
    var s', pos := Apply(s, Publish(t)), s.producers[t].pos;
    assert ProducerOk(s, t);
    forall p: nat | Front(s) <= p < s.enqueue && p != pos ensures CellAt(s', p) == CellAt(s, p) {
      PutElsewhere(s, pos, At(s', pos), p);
    }
  }

  // Handing the slot back removes the front cell, which is published and
  // carries the value the consumer took.
  lemma TakeRefines<T>(s: Ring<T>)
    requires Inv(s) && s.consumer.Taken?
    ensures var e := PopRelease;
            && Inv(Apply(s, e))
            && Poppable(BoxOf(s)) && BoxOf(s)[0].item == s.consumer.item
            && BoxOf(Apply(s, e)) == BoxOf(s)[1..]
  {
    hide SlotsOk, ProducerOk, ConsumerOk, HistoryOk, CellAt, Index;
    var s' := Apply(s, PopRelease);
    StepInv(s, PopRelease);
    ReleasedCells(s);
    assert BoxOf(s)[0] == CellAt(s, Front(s) + 0);
    assert BoxOf(s') == BoxOf(s)[1..];
  }

  lemma ReleasedCells<T>(s: Ring<T>)
    requires Inv(s) && s.consumer.Taken?
    ensures var s' := Apply(s, PopRelease);
            && Front(s) == s.dequeue < s.enqueue == s'.enqueue == |s.log| == |s'.log| && Front(s') == Front(s) + 1
            && |s.slots| > 0 && |s'.slots| > 0
            && CellAt(s, s.dequeue).published && CellAt(s, s.dequeue).item == s.consumer.item
            && forall p: nat | s.dequeue < p < s.enqueue :: CellAt(s', p) == CellAt(s, p)
  {
    hide Index, HistoryOk;
    var s', d := Apply(s, PopRelease), s.dequeue;
    forall p: nat | d < p < s.enqueue ensures At(s', p) == At(s, p) {
      PutElsewhere(s, d, At(s', d), p);
    }
  }

  // The consumer proceeds past its sequence load exactly when the front cell
  // is published.
  lemma PoppableRefines<T>(s: Ring<T>)
    requires Inv(s) && s.consumer.Ready?
    ensures ConsumerStep(s).consumer.Seen? <==> Poppable(BoxOf(s))
  {
    if s.dequeue < s.enqueue {
      assert BoxOf(s)[0] == CellAt(s, Front(s) + 0);
    } else {
      assert At(s, s.dequeue).sequence == s.dequeue;
    }
  }

  // The same cells at the same positions.
  ghost predicate SameCells<T>(s: Ring<T>, s': Ring<T>) {
    && Front(s') == Front(s) && s'.enqueue == s.enqueue && |s'.log| == |s.log| >= s.enqueue
    && |s.slots| > 0 && |s'.slots| > 0
    && forall p: nat | Front(s) <= p < s.enqueue :: CellAt(s', p) == CellAt(s, p)
  }

  lemma SameBox<T>(s: Ring<T>, s': Ring<T>)
    requires Inv(s) && Inv(s') && SameCells(s, s')
    ensures BoxOf(s') == BoxOf(s)
  {
    hide SlotsOk, ProducerOk, ConsumerOk, HistoryOk, CellAt, Index;
  }

  lemma MoveDataCells<T>(s: Ring<T>, t: nat)
    requires Inv(s) && t < |s.producers| && s.producers[t].Claimed?
    ensures SameCells(s, Apply(s, MoveData(t)))
  {
    hide Index, HistoryOk, ConsumerOk;
    var s', pos := Apply(s, MoveData(t)), s.producers[t].pos;
    assert ProducerOk(s, t);
    forall p: nat | Front(s) <= p < s.enqueue ensures At(s', p).sequence == At(s, p).sequence {
      if p != pos {
        PutElsewhere(s, pos, At(s', pos), p);
      }
    }
  }

  // An event that writes no slot and claims nothing.
  predicate Silent<T>(s: Ring<T>, e: Event<T>) {
    && !e.Publish? && !e.PopRelease? && !e.MoveData?
    && (e.CompareExchange? ==>
          e.spurious || e.t >= |s.producers| || !s.producers[e.t].Matched? || s.producers[e.t].pos != s.enqueue)
  }

  lemma SilentCells<T>(s: Ring<T>, e: Event<T>)
    requires Inv(s) && Silent(s, e)
    ensures SameCells(s, Apply(s, e))
  {
    hide Index, HistoryOk, ConsumerOk, SlotsOk, ProducerOk;
    SilentSlots(s, e);
  }

  lemma SilentSlots<T>(s: Ring<T>, e: Event<T>)
    requires |s.slots| > 0 && |s.accepted| == |s.producers| && Silent(s, e)
    ensures var s' := Apply(s, e);
            s'.slots == s.slots && s'.enqueue == s.enqueue && s'.log == s.log && Front(s') == Front(s)
  {
    hide Index;
  }

  // Every other event leaves the cells as they are.
  lemma OtherStepsRefine<T>(s: Ring<T>, e: Event<T>)
    requires Inv(s) && (Silent(s, e) || e.MoveData?)
    ensures Inv(Apply(s, e)) && BoxOf(Apply(s, e)) == BoxOf(s)
  {
    hide SlotsOk, ProducerOk, ConsumerOk, HistoryOk, SameCells, Apply, Silent;
    StepInv(s, e);
    if e.MoveData? {
      MoveDataOrNot(s, e.t);
    } else {
      SilentCells(s, e);
    }
    SameBox(s, Apply(s, e));
  }

  lemma MoveDataOrNot<T>(s: Ring<T>, t: nat)
    requires Inv(s)
    ensures SameCells(s, Apply(s, MoveData(t)))
  {
    hide Index, HistoryOk, ConsumerOk, SlotsOk, ProducerOk;
    if t < |s.producers| && s.producers[t].Claimed? {
      MoveDataCells(s, t);
    }
  }

  // ---- whole runs -------------------------------------------------------------------

  // What one step of the ring does to the mailbox: a claim, a publication, a
  // take from a published front, or nothing.
  ghost predicate BoxStep<T>(box: seq<Cell<T>>, box': seq<Cell<T>>) {
    || box' == box
    || (|box'| == |box| + 1 && box' == Claim(box, box'[|box|].owner, box'[|box|].item))
    || (exists i: nat :: i < |box| && !box[i].published && box' == PublishAt(box, i))
    || (Poppable(box) && box' == box[1..])
  }

  lemma StepRefines<T>(s: Ring<T>, e: Event<T>)
    requires Inv(s)
    ensures Inv(Apply(s, e)) && BoxStep(BoxOf(s), BoxOf(Apply(s, e)))
  {
    hide SlotsOk, ProducerOk, ConsumerOk, HistoryOk, ConsumerStep, Index;
    if Ours(s, e) && e.CompareExchange? && !Silent(s, e) {
      ClaimRefines(s, e.t);
    } else if Ours(s, e) && e.Publish? {
      PublishRefines(s, e.t);
    } else if Ours(s, e) && e.PopRelease? {
      TakeRefines(s);
    } else if Silent(s, e) || e.MoveData? {
      OtherStepsRefine(s, e);
    } else {
      assert Apply(s, e) == s;
    }
  }

  // In every run of any number of producers and the consumer, the mailbox moves
  // only by those steps: the ring is that simple queue at every instant.
  lemma RunRefines<T>(cap: nat, producers: nat, blank: T, es: seq<Event<T>>, i: nat)
    requires cap >= 2 && i < |es|
    ensures Inv(Init(cap, producers, blank)) && BoxOf(Init(cap, producers, blank)) == []
    ensures BoxStep(BoxOf(Exec(Init(cap, producers, blank), es[..i])),
                    BoxOf(Exec(Init(cap, producers, blank), es[..i + 1])))
  {
    InitInv(cap, producers, blank);
    hide SlotsOk, ProducerOk, ConsumerOk, HistoryOk, BoxStep, Apply;
    var s := Init(cap, producers, blank);
    assert es[..i + 1] == es[..i] + [es[i]];
    ExecSnoc(s, es[..i], es[i]);
    StepRefines(Exec(s, es[..i]), es[i]);
  }

  lemma {:induction false} ExecSnoc<T>(s: Ring<T>, es: seq<Event<T>>, e: Event<T>)
    requires Inv(s)
    ensures Exec(s, es + [e]) == Apply(Exec(s, es), e)
    decreases |es|
  {
    hide SlotsOk, ProducerOk, ConsumerOk, HistoryOk, Apply;
    if es == [] {
      StepInv(s, e);
      assert es + [e] == [e] && [e][1..] == [];
    } else {
      StepInv(s, es[0]);
      assert (es + [e])[1..] == es[1..] + [e];
      ExecSnoc(Apply(s, es[0]), es[1..], e);
    }
  }
}
