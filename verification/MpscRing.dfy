module MpscRing {
  // The bounded multi-producer single-consumer ring at the grain of its atomic
  // operations: any number of producers inside `emplace`, one consumer inside
  // `try_pop`, interleaved in any order.  Each event below is one load, one
  // compare-exchange, one data move or one store.  An event that its thread
  // cannot take leaves the ring unchanged, so every sequence of events is a run.

  import Bits

  datatype Slot<T> = Slot(sequence: nat, data: T)

  datatype Producer<T> =
    | Resting
    | Loaded(item: T, pos: nat)   // holds a value of m_enqueue_pos
    | Matched(item: T, pos: nat)  // saw slot.sequence == pos
    | Claimed(item: T, pos: nat)  // won the compare-exchange
    | Stored(pos: nat)            // moved the item into the slot

  datatype Consumer<T> =
    | Ready
    | Seen              // saw slot.sequence == m_dequeue_pos + 1
    | Taken(item: T)    // moved the item out of the slot
    | Released(item: T) // handed the slot back to the producers

  datatype Ring<T> = Ring(
    slots: seq<Slot<T>>,
    enqueue: nat,
    dequeue: nat,
    producers: seq<Producer<T>>,
    consumer: Consumer<T>,
    log: seq<(nat, T)>,     // history: who claimed each position, with what
    accepted: seq<seq<T>>,  // history: what each producer got in, in its order
    popped: seq<T>)         // history: what try_pop returned

  datatype Event<T> =
    | Begin(t: nat, item: T)
    | LoadSequence(t: nat)
    | CompareExchange(t: nat, spurious: bool)
    | MoveData(t: nat)
    | Publish(t: nat)
    | PopLoad
    | PopTake
    | PopRelease
    | PopAdvance

  function Index(p: nat, cap: nat): (i: nat)
    requires cap > 0
    ensures i < cap
  {
    p % cap
  }

  function At<T>(s: Ring<T>, p: nat): Slot<T>
    requires |s.slots| > 0
  {
    s.slots[Index(p, |s.slots|)]
  }

  function PutAt<T>(s: Ring<T>, p: nat, slot: Slot<T>): Ring<T>
    requires |s.slots| > 0
  {
    s.(slots := s.slots[Index(p, |s.slots|) := slot])
  }

  function SetProducer<T>(s: Ring<T>, t: nat, p: Producer<T>): Ring<T>
    requires t < |s.producers|
  {
    s.(producers := s.producers[t := p])
  }

  // The constructor: slot i starts with sequence i.
  function Init<T>(cap: nat, producers: nat, blank: T): Ring<T> {
    Ring(seq(cap, (i: nat) => Slot(i, blank)), 0, 0, seq(producers, _ => Resting), Ready,
         [], seq(producers, _ => []), [])
  }

  // What the next step of `emplace` does for producer t.
  function ProducerStep<T>(s: Ring<T>, t: nat, spurious: bool): Ring<T>
    requires t < |s.producers| && |s.slots| > 0 && |s.accepted| == |s.producers|
  {
    match s.producers[t]
    case Resting => s
    case Loaded(item, pos) =>
      var dif := At(s, pos).sequence - pos;
      if dif == 0 then SetProducer(s, t, Matched(item, pos))
      else if dif < 0 then SetProducer(s, t, Resting)
      else SetProducer(s, t, Loaded(item, s.enqueue))
    case Matched(item, pos) =>
      if !spurious && s.enqueue == pos then
        SetProducer(s, t, Claimed(item, pos)).(
          enqueue := pos + 1,
          log := s.log + [(t, item)],
          accepted := s.accepted[t := s.accepted[t] + [item]])
      else SetProducer(s, t, Loaded(item, s.enqueue))
    case Claimed(item, pos) =>
      PutAt(SetProducer(s, t, Stored(pos)), pos, At(s, pos).(data := item))
    case Stored(pos) =>
      PutAt(SetProducer(s, t, Resting), pos, At(s, pos).(sequence := pos + 1))
  }

  // What the next step of `try_pop` does.
  function ConsumerStep<T>(s: Ring<T>): Ring<T>
    requires |s.slots| > 0
  {
    match s.consumer
    case Ready =>
      if At(s, s.dequeue).sequence == s.dequeue + 1 then s.(consumer := Seen) else s
    case Seen => s.(consumer := Taken(At(s, s.dequeue).data))
    case Taken(x) =>
      PutAt(s, s.dequeue, At(s, s.dequeue).(sequence := s.dequeue + |s.slots|)).(consumer := Released(x))
    case Released(x) => s.(consumer := Ready, dequeue := s.dequeue + 1, popped := s.popped + [x])
  }

  predicate Ours<T>(s: Ring<T>, e: Event<T>) {
    match e
    case Begin(t, _) => t < |s.producers| && s.producers[t].Resting?
    case LoadSequence(t) => t < |s.producers| && s.producers[t].Loaded?
    case CompareExchange(t, _) => t < |s.producers| && s.producers[t].Matched?
    case MoveData(t) => t < |s.producers| && s.producers[t].Claimed?
    case Publish(t) => t < |s.producers| && s.producers[t].Stored?
    case PopLoad => s.consumer.Ready?
    case PopTake => s.consumer.Seen?
    case PopRelease => s.consumer.Taken?
    case PopAdvance => s.consumer.Released?
  }

  function Apply<T>(s: Ring<T>, e: Event<T>): Ring<T>
    requires |s.slots| > 0 && |s.accepted| == |s.producers|
  {
    if !Ours(s, e) then s
    else if e.Begin? then SetProducer(s, e.t, Loaded(e.item, s.enqueue))
    else if e.CompareExchange? then ProducerStep(s, e.t, e.spurious)
    else if e.LoadSequence? || e.MoveData? || e.Publish? then ProducerStep(s, e.t, false)
    else ConsumerStep(s)
  }

  // ---- the invariant ------------------------------------------------------

  // The oldest position whose slot the consumer has not handed back.
  function Front<T>(s: Ring<T>): nat {
    if s.consumer.Released? then s.dequeue + 1 else s.dequeue
  }

  predicate Owns<T>(p: Producer<T>, pos: nat) {
    (p.Claimed? || p.Stored?) && p.pos == pos
  }

  ghost predicate Shape<T>(s: Ring<T>) {
    && |s.slots| >= 2
    && |s.accepted| == |s.producers|
    && |s.log| == s.enqueue
    && Front(s) <= s.enqueue <= Front(s) + |s.slots|
  }

  // A claimed position is either published or still owned by its claimer.
  ghost predicate ClaimedAt<T>(s: Ring<T>, p: nat)
    requires Shape(s) && p < s.enqueue
  {
    var slot := At(s, p);
    var t := s.log[p].0;
    && t < |s.producers|
    && (slot.sequence == p + 1 ==> slot.data == s.log[p].1)
    && (slot.sequence == p || slot.sequence == p + 1)
    && (slot.sequence == p ==> Owns(s.producers[t], p))
  }

  ghost predicate SlotsOk<T>(s: Ring<T>)
    requires Shape(s)
  {
    && (forall p :: Front(s) <= p < s.enqueue ==> ClaimedAt(s, p))
    && (forall p :: s.enqueue <= p < Front(s) + |s.slots| ==> At(s, p).sequence == p)
  }

  ghost predicate ProducerOk<T>(s: Ring<T>, t: nat)
    requires Shape(s) && t < |s.producers|
  {
    match s.producers[t]
    case Resting => true
    case Loaded(_, pos) => pos <= s.enqueue
    case Matched(_, pos) => pos <= s.enqueue && pos < Front(s) + |s.slots|
    case Claimed(item, pos) =>
      Front(s) <= pos < s.enqueue && At(s, pos).sequence == pos && s.log[pos] == (t, item)
    case Stored(pos) =>
      && Front(s) <= pos < s.enqueue && At(s, pos).sequence == pos
      && s.log[pos] == (t, At(s, pos).data)
  }

  ghost predicate ConsumerOk<T>(s: Ring<T>)
    requires Shape(s)
  {
    && s.dequeue == |s.popped| <= s.enqueue
    && (forall i | 0 <= i < |s.popped| :: s.popped[i] == s.log[i].1)
    && (!s.consumer.Ready? ==> s.dequeue < s.enqueue)
    && (s.consumer.Seen? || s.consumer.Taken? ==> At(s, s.dequeue).sequence == s.dequeue + 1)
    && (s.consumer.Taken? || s.consumer.Released? ==> s.consumer.item == s.log[s.dequeue].1)
  }

  // The items of the log that producer t claimed, in log order.
  function ByProducer<T>(log: seq<(nat, T)>, t: nat): seq<T> {
    if log == [] then []
    else
      var rest := ByProducer(log[..|log| - 1], t);
      if log[|log| - 1].0 == t then rest + [log[|log| - 1].1] else rest
  }

  ghost predicate HistoryOk<T>(s: Ring<T>)
    requires Shape(s)
  {
    forall t | 0 <= t < |s.producers| :: s.accepted[t] == ByProducer(s.log, t)
  }

  ghost predicate Inv<T>(s: Ring<T>) {
    && Shape(s)
    && SlotsOk(s)
    && (forall t | 0 <= t < |s.producers| :: ProducerOk(s, t))
    && ConsumerOk(s)
    && HistoryOk(s)
  }

  lemma InitInv<T>(cap: nat, producers: nat, blank: T)
    requires cap >= 2
    ensures Inv(Init(cap, producers, blank))
  {
    hide ByProducer, SlotsOk;
    var s := Init(cap, producers, blank);
    InitSlots(cap, producers, blank);
    NothingBy<T>();
    assert forall t | 0 <= t < producers :: s.accepted[t] == ByProducer(s.log, t);
    assert forall t | 0 <= t < producers :: ProducerOk(s, t);
  }

  lemma InitSlots<T>(cap: nat, producers: nat, blank: T)
    requires cap >= 2
    ensures SlotsOk(Init(cap, producers, blank))
  {
    forall p: nat | p < cap ensures Index(p, cap) == p {
      Bits.DivModUnique(p, cap, 0, p);
    }
    hide Index;
  }

  lemma NothingBy<T>()
    ensures forall t :: ByProducer<T>([], t) == []
  {
  }

  // Writing the slot of one position leaves every other position within a
  // capacity of it alone.
  lemma PutElsewhere<T>(s: Ring<T>, p: nat, slot: Slot<T>, q: nat)
    requires |s.slots| > 0 && p != q && p < q + |s.slots| && q < p + |s.slots|
    ensures At(PutAt(s, p, slot), q) == At(s, q)
  {
    if p < q {
      Bits.SlotsApart(|s.slots|, p, q);
    } else {
      Bits.SlotsApart(|s.slots|, q, p);
    }
  }

  lemma SameSlots<T>(s: Ring<T>, s': Ring<T>)
    requires |s.slots| > 0 && s'.slots == s.slots
    ensures forall p: nat {:trigger At(s', p)} {:trigger At(s, p)} :: At(s', p) == At(s, p)
  {
  }

  // A producer without a claim may hold any position up to the newest.
  predicate Roams<T>(s: Ring<T>, p: Producer<T>) {
    match p
    case Resting => true
    case Loaded(_, pos) => pos <= s.enqueue
    case Matched(_, pos) => pos <= s.enqueue && pos < Front(s) + |s.slots|
    case _ => false
  }

  lemma Moves<T>(s: Ring<T>, t: nat, p: Producer<T>)
    requires Inv(s) && t < |s.producers| && !s.producers[t].Claimed? && !s.producers[t].Stored? && Roams(s, p)
    ensures Inv(SetProducer(s, t, p))
  {
    hide Index, ByProducer;
    var s' := SetProducer(s, t, p);
    SameSlots(s, s');
    forall p | Front(s) <= p < s.enqueue ensures ClaimedAt(s', p) {
      assert ClaimedAt(s, p);
    }
    forall u | 0 <= u < |s'.producers| ensures ProducerOk(s', u) {
      assert ProducerOk(s, u);
    }
  }

  lemma StepBegin<T>(s: Ring<T>, e: Event<T>)
    requires Inv(s) && e.Begin?
    ensures Inv(Apply(s, e))
  {
    hide Index, ByProducer;
    if Ours(s, e) {
      Moves(s, e.t, Loaded(e.item, s.enqueue));
    }
  }

  lemma StepLoadSequence<T>(s: Ring<T>, e: Event<T>)
    requires Inv(s) && e.LoadSequence?
    ensures Inv(Apply(s, e))
  {
    hide Index, ByProducer, SlotsOk, ConsumerOk, HistoryOk;
    if Ours(s, e) {
      assert ProducerOk(s, e.t);
      FreeOrClaimed(s, s.producers[e.t].pos);
      Moves(s, e.t, Apply(s, e).producers[e.t]);
    }
  }

  // How a slot's sequence compares with a position a producer may hold.
  lemma FreeOrClaimed<T>(s: Ring<T>, pos: nat)
    requires Inv(s) && pos <= s.enqueue
    ensures At(s, pos).sequence < pos <==> pos == s.enqueue == Front(s) + |s.slots|
    ensures At(s, pos).sequence == pos ==> pos < Front(s) + |s.slots|
  {
    var cap := |s.slots|;
    if pos < Front(s) {
      StaleSequence(s, pos);
    } else if pos < s.enqueue {
      assert ClaimedAt(s, pos);
    } else if pos == Front(s) + cap {
      var f := Front(s);
      SameSlot(f, cap);
      assert ClaimedAt(s, f);
    }
  }

  lemma SameSlot(p: nat, cap: nat)
    requires cap > 0
    ensures Index(p + cap, cap) == Index(p, cap)
  {
    Bits.DivMod(p, cap);
    assert p + cap == cap * (p / cap + 1) + p % cap;
    Bits.DivModUnique(p + cap, cap, p / cap + 1, p % cap);
  }

  // A position the consumer has passed maps to a slot whose sequence has
  // moved beyond it.
  lemma {:induction false} StaleSequence<T>(s: Ring<T>, pos: nat)
    requires Inv(s) && pos < Front(s)
    ensures At(s, pos).sequence > pos
    decreases Front(s) - pos
  {
    var cap := |s.slots|;
    var next := pos + cap;
    SameSlot(pos, cap);
    assert At(s, pos) == At(s, next);
    if next < Front(s) {
      StaleSequence(s, next);
    } else if next < s.enqueue {
      assert ClaimedAt(s, next);
    } else {
      assert At(s, next).sequence == next;
    }
  }

  lemma StepCompareExchange<T>(s: Ring<T>, e: Event<T>)
    requires Inv(s) && e.CompareExchange?
    ensures Inv(Apply(s, e))
  {
    hide Index, ByProducer, SlotsOk, ConsumerOk, HistoryOk;
    if Ours(s, e) {
      if !e.spurious && s.enqueue == s.producers[e.t].pos {
        StepClaim(s, e.t);
      } else {
        Moves(s, e.t, Loaded(s.producers[e.t].item, s.enqueue));
      }
    }
  }

  lemma ClaimLogged<T>(log: seq<(nat, T)>, x: (nat, T), t: nat)
    ensures ByProducer(log + [x], t) == if x.0 == t then ByProducer(log, t) + [x.1] else ByProducer(log, t)
  {
    assert (log + [x])[..|log|] == log;
  }

  // The compare-exchange is won.
  lemma StepClaim<T>(s: Ring<T>, t: nat)
    requires Inv(s) && t < |s.producers| && s.producers[t].Matched? && s.producers[t].pos == s.enqueue
    ensures Inv(ProducerStep(s, t, false))
  {
    hide Index, ByProducer;
    var s' := ProducerStep(s, t, false);
    SameSlots(s, s');
    assert ProducerOk(s, t);
    ClaimedKept(s, s', t);
    forall u | 0 <= u < |s'.producers| ensures ProducerOk(s', u) {
      assert ProducerOk(s, u);
    }
    forall u | 0 <= u < |s'.producers| ensures s'.accepted[u] == ByProducer(s'.log, u) {
      ClaimLogged(s.log, (t, s.producers[t].item), u);
    }
  }

  lemma ClaimedKept<T>(s: Ring<T>, s': Ring<T>, t: nat)
    requires Inv(s) && t < |s.producers| && s.producers[t].Matched? && s.producers[t].pos == s.enqueue
    requires s' == ProducerStep(s, t, false) && ProducerOk(s, t)
    ensures Shape(s') && SlotsOk(s')
  {
    hide Index, ByProducer, ConsumerOk, HistoryOk;
    SameSlots(s, s');
    forall p | Front(s) <= p < s'.enqueue ensures ClaimedAt(s', p) {
      if p < s.enqueue {
        assert ClaimedAt(s, p);
      }
    }
  }

  lemma StepStore<T>(s: Ring<T>, e: Event<T>)
    requires Inv(s) && (e.MoveData? || e.Publish?)
    ensures Inv(Apply(s, e))
  {
    hide Index, ByProducer;
    if Ours(s, e) {
      var s' := Apply(s, e);
      assert ProducerOk(s, e.t);
      var pos := s.producers[e.t].pos;
      StoredElsewhere(s, e);
      StoreSlots(s, e);
      forall t | 0 <= t < |s'.producers| ensures ProducerOk(s', t) {
        assert ProducerOk(s, t);
        if t != e.t && (s.producers[t].Claimed? || s.producers[t].Stored?) {
          assert s.log[s.producers[t].pos].0 == t;
        }
      }
    }
  }

  // A store into the slot of one's own position.
  lemma StoredElsewhere<T>(s: Ring<T>, e: Event<T>)
    requires Inv(s) && (e.MoveData? || e.Publish?) && Ours(s, e)
    ensures forall p | Front(s) <= p < Front(s) + |s.slots| && p != s.producers[e.t].pos ::
              At(Apply(s, e), p) == At(s, p)
  {
    hide Index, ByProducer, SlotsOk, ConsumerOk, HistoryOk;
    assert ProducerOk(s, e.t);
    var s', pos := Apply(s, e), s.producers[e.t].pos;
    forall p | Front(s) <= p < Front(s) + |s.slots| && p != pos ensures At(s', p) == At(s, p) {
      PutElsewhere(s, pos, At(s', pos), p);
    }
  }

  lemma StoreSlots<T>(s: Ring<T>, e: Event<T>)
    requires Inv(s) && (e.MoveData? || e.Publish?) && Ours(s, e)
    ensures Shape(Apply(s, e)) && SlotsOk(Apply(s, e))
  {
    hide Index, ByProducer, ConsumerOk, HistoryOk;
    var s' := Apply(s, e);
    assert ProducerOk(s, e.t);
    StoredElsewhere(s, e);
    assert ClaimedAt(s, s.producers[e.t].pos);
    forall p | Front(s) <= p < s.enqueue ensures ClaimedAt(s', p) {
      assert ClaimedAt(s, p);
    }
  }

  lemma StepPop<T>(s: Ring<T>, e: Event<T>)
    requires Inv(s) && (e.PopLoad? || e.PopTake? || e.PopAdvance?)
    ensures Inv(Apply(s, e))
  {
    hide Index, ByProducer;
    if Ours(s, e) {
      var s' := Apply(s, e);
      SameSlots(s, s');
      if e.PopLoad? {
        if s.dequeue == s.enqueue {
          assert At(s, s.dequeue).sequence == s.dequeue;
        }
      }
      if s.dequeue < s.enqueue && !s.consumer.Released? {
        assert ClaimedAt(s, s.dequeue);
      }
      forall p | Front(s') <= p < s'.enqueue ensures ClaimedAt(s', p) {
        assert ClaimedAt(s, p);
      }
      forall t | 0 <= t < |s'.producers| ensures ProducerOk(s', t) {
        assert ProducerOk(s, t);
      }
    }
  }

  lemma StepPopRelease<T>(s: Ring<T>, e: Event<T>)
    requires Inv(s) && e.PopRelease?
    ensures Inv(Apply(s, e))
  {
    hide Index, ByProducer;
    if Ours(s, e) {
      var s' := Apply(s, e);
      var d, cap := s.dequeue, |s.slots|;
      forall p | d < p < d + cap ensures At(s', p) == At(s, p) {
        PutElsewhere(s, d, At(s', d), p);
      }
      SameSlot(d, cap);
      forall p | Front(s') <= p < s'.enqueue ensures ClaimedAt(s', p) {
        assert ClaimedAt(s, p);
      }
      forall t | 0 <= t < |s'.producers| ensures ProducerOk(s', t) {
        assert ProducerOk(s, t);
      }
    }
  }

  lemma StepInv<T>(s: Ring<T>, e: Event<T>)
    requires Inv(s)
    ensures Inv(Apply(s, e))
  {
    match e
    case Begin(_, _) => StepBegin(s, e);
    case LoadSequence(_) => StepLoadSequence(s, e);
    case CompareExchange(_, _) => StepCompareExchange(s, e);
    case MoveData(_) => StepStore(s, e);
    case Publish(_) => StepStore(s, e);
    case PopLoad => StepPop(s, e);
    case PopTake => StepPop(s, e);
    case PopRelease => StepPopRelease(s, e);
    case PopAdvance => StepPop(s, e);
  }

  // ---- whole runs -----------------------------------------------------------

  // Claimed positions and popped values are never rewritten.
  lemma StepGrows<T>(s: Ring<T>, e: Event<T>)
    requires |s.slots| > 0 && |s.accepted| == |s.producers|
    ensures var s' := Apply(s, e);
            && |s'.slots| == |s.slots| && |s'.producers| == |s.producers|
            && s.log <= s'.log && s.popped <= s'.popped
  {
    hide Index;
  }

  // Every sequence of events, from any state that satisfies the invariant,
  // keeps it; claimed positions and popped values are never rewritten.
  ghost function Exec<T>(s: Ring<T>, es: seq<Event<T>>): (s': Ring<T>)
    requires Inv(s)
    ensures Inv(s') && |s'.slots| == |s.slots| && |s'.producers| == |s.producers|
    ensures s.log <= s'.log && s.popped <= s'.popped
    decreases |es|
  {
    if es == [] then s
    else
      StepInv(s, es[0]);
      StepGrows(s, es[0]);
      Exec(Apply(s, es[0]), es[1..])
  }

  // Values come out as the position-ordered log: none lost, none twice.
  lemma PopsFollowLog<T>(cap: nat, producers: nat, blank: T, es: seq<Event<T>>)
    requires cap >= 2
    ensures Inv(Init(cap, producers, blank))
    ensures var s := Exec(Init(cap, producers, blank), es);
            && |s.popped| <= |s.log| <= |s.popped| + cap + 1
            && forall i | 0 <= i < |s.popped| :: s.popped[i] == s.log[i].1
  {
    InitInv(cap, producers, blank);
    assert ConsumerOk(Exec(Init(cap, producers, blank), es));
  }

  // What the consumer has received from one producer is a prefix of what that
  // producer got in, in its own order.
  lemma FifoPerProducer<T>(cap: nat, producers: nat, blank: T, es: seq<Event<T>>, t: nat)
    requires cap >= 2 && t < producers
    ensures Inv(Init(cap, producers, blank))
    ensures var s := Exec(Init(cap, producers, blank), es);
            && |s.popped| <= |s.log|
            && ByProducer(s.log[..|s.popped|], t) <= s.accepted[t]
  {
    InitInv(cap, producers, blank);
    var s := Exec(Init(cap, producers, blank), es);
    ByProducerPrefix(s.log, |s.popped|, t);
  }

  lemma {:induction false} ByProducerPrefix<T>(log: seq<(nat, T)>, n: nat, t: nat)
    requires n <= |log|
    ensures ByProducer(log[..n], t) <= ByProducer(log, t)
  {
    if n == |log| {
      assert log[..n] == log;
    } else {
      var front := log[..|log| - 1];
      assert front[..n] == log[..n];
      ByProducerPrefix(front, n, t);
    }
  }

  // Each claimed position is published, or owned by exactly one producer;
  // each free position within a capacity carries its own number.
  lemma OwnedOrPublished<T>(s: Ring<T>, p: nat)
    requires Inv(s) && Front(s) <= p < Front(s) + |s.slots|
    ensures p >= s.enqueue ==> At(s, p).sequence == p
    ensures p < s.enqueue && At(s, p).sequence != p ==> At(s, p) == Slot(p + 1, s.log[p].1)
    ensures forall t | 0 <= t < |s.producers| ::
              Owns(s.producers[t], p) <==> p < s.enqueue && At(s, p).sequence == p && s.log[p].0 == t
  {
    if p < s.enqueue {
      assert ClaimedAt(s, p);
    }
    forall t | 0 <= t < |s.producers|
      ensures Owns(s.producers[t], p) <==> p < s.enqueue && At(s, p).sequence == p && s.log[p].0 == t
    {
      assert ProducerOk(s, t);
    }
  }

  // A push gives up at its sequence load exactly when it holds the newest
  // position and every slot is claimed and not yet handed back.
  lemma PushFailsWhenFull<T>(s: Ring<T>, t: nat)
    requires Inv(s) && t < |s.producers| && s.producers[t].Loaded?
    ensures ProducerStep(s, t, false).producers[t].Resting?
            <==> s.producers[t].pos == s.enqueue == Front(s) + |s.slots|
  {
    assert ProducerOk(s, t);
    FreeOrClaimed(s, s.producers[t].pos);
  }

  // A pop reports empty exactly when nothing is claimed, or the oldest
  // claimer has not published yet.
  lemma PopEmptyExactly<T>(s: Ring<T>)
    requires Inv(s) && s.consumer.Ready?
    ensures ConsumerStep(s).consumer.Ready?
            <==> s.dequeue == s.enqueue
                 || (s.log[s.dequeue].0 < |s.producers| && Owns(s.producers[s.log[s.dequeue].0], s.dequeue))
  {
    OwnedOrPublished(s, s.dequeue);
    if s.dequeue < s.enqueue {
      assert ClaimedAt(s, s.dequeue);
    }
  }
}
