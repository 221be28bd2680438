module MailboxActor {
  // The activation protocol on top of the mailbox ring itself: every push runs
  // the atomic operations of emplace, every drain those of try_pop, interleaved
  // with the protocol of all the other threads.  The ring's one consumer is
  // whichever thread holds the actor's activation.

  import opened Prelude
  import opened MpscRing
  import opened Mailbox
  import A = ActorActivation

  datatype System<T> = System(ring: Ring<T>, actor: A.Actor<T>)

  datatype Act<T> =
    | Enter(t: nat, item: T)
    | PushOp(t: nat, spurious: bool)  // the next atomic operation of try_push
    | Protocol(t: nat)                // the next of count, activate, schedule, load, subtract, release, re-check
    | Begin(t: nat)                   // a pool thread starts a submitted pull_and_run
    | DrainOp(t: nat)                 // the next atomic operation of the drain loop

  // The ring's operation that producer t is at.
  function PushEvent<T>(s: Ring<T>, t: nat, spurious: bool): MpscRing.Event<T>
    requires t < |s.producers|
  {
    match s.producers[t]
    case Matched(_, _) => CompareExchange(t, spurious)
    case Claimed(_, _) => MoveData(t)
    case Stored(_) => Publish(t)
    case _ => LoadSequence(t)
  }

  // What it is to the protocol, if anything.
  function PushSeen<T>(s: Ring<T>, s': Ring<T>, t: nat): Option<A.Event<T>>
    requires t < |s.producers| == |s'.producers|
  {
    match s.producers[t]
    case Loaded(_, _) => if s'.producers[t].Resting? then Some(A.GiveUp(t)) else None
    case Matched(_, _) => if s'.producers[t].Claimed? then Some(A.TryPush(t)) else None
    case Stored(pos) => if Front(s) <= pos then Some(A.PublishCell(t, pos - Front(s))) else None
    case _ => None
  }

  function DrainEvent<T>(s: Ring<T>): MpscRing.Event<T> {
    match s.consumer
    case Ready => PopLoad
    case Seen => PopTake
    case Taken(_) => PopRelease
    case Released(_) => PopAdvance
  }

  function DrainSeen<T>(s: Ring<T>, s': Ring<T>, t: nat): Option<A.Event<T>> {
    match s.consumer
    case Ready => if s'.consumer.Ready? then Some(A.EndDrain(t)) else None
    case Taken(_) => Some(A.Pop(t))
    case _ => None
  }

  // The protocol's own operation a thread is at.
  function ProtocolEvent<T>(p: A.Thread<T>, t: nat): Option<A.Event<T>> {
    match p
    case Published => Some(A.Count(t))
    case Activating => Some(A.Activate(t))
    case Scheduling => Some(A.Schedule(t))
    case Started => Some(A.LoadPending(t))
    case Drained(_) => Some(A.Subtract(t))
    case Subtracted => Some(A.Release(t))
    case Released => Some(A.Recheck(t))
    case _ => None
  }

  function React<T>(k: A.Limits, a: A.Actor<T>, seen: Option<A.Event<T>>): A.Actor<T> {
    match seen
    case None => a
    case Some(e) => A.Apply(k, a, e)
  }

  // A thread drains while its count is below the limit, or to finish a pop.
  predicate MayPop<T>(s: Ring<T>, p: A.Thread<T>) {
    p.Draining? && (p.executed < p.limit || !s.consumer.Ready?)
  }

  ghost function Step<T>(k: A.Limits, y: System<T>, e: Act<T>): System<T>
    requires Linked(k, y)
  {
    var s, a := y.ring, y.actor;
    if e.t >= |a.threads| then y
    else
      var p := a.threads[e.t];
      match e
      case Enter(t, item) =>
        if p.Outside? then System(Apply(s, MpscRing.Begin(t, item)), A.Apply(k, a, A.EnterPush(t, item))) else y
      case PushOp(t, spurious) =>
        if p.Pushing? || p.Claimed? then
          var s' := Apply(s, PushEvent(s, t, spurious));
          ProducersKept(s, PushEvent(s, t, spurious));
          System(s', React(k, a, PushSeen(s, s', t)))
        else y
      case Protocol(t) => System(s, React(k, a, ProtocolEvent(p, t)))
      case Begin(t) => System(s, A.Apply(k, a, A.Start(t)))
      case DrainOp(t) =>
        if !p.Draining? then y
        else if MayPop(s, p) then
          var s' := Apply(s, DrainEvent(s));
          System(s', React(k, a, DrainSeen(s, s', t)))
        else System(s, A.Apply(k, a, A.EndDrain(t)))
  }

  lemma ProducersKept<T>(s: Ring<T>, e: MpscRing.Event<T>)
    requires Inv(s)
    ensures |Apply(s, e).producers| == |s.producers| && |Apply(s, e).slots| == |s.slots|
  {
    StepGrows(s, e);
  }

  // ---- the link between the two --------------------------------------------------

  // Where a thread's producer stands in the ring.
  ghost predicate Matches<T>(p: A.Thread<T>, q: Producer<T>) {
    if p.Pushing? then (q.Loaded? || q.Matched?) && q.item == p.item
    else if p.Claimed? then q.Claimed? || q.Stored?
    else q.Resting?
  }

  // Someone drains while the ring's consumer is inside try_pop.
  ghost predicate Drains<T>(s: Ring<T>, p: A.Thread<T>) {
    p.Draining? && (s.consumer.Seen? || s.consumer.Taken? ==> p.executed < p.limit)
  }

  ghost predicate Linked<T>(k: A.Limits, y: System<T>) {
    && Inv(y.ring) && A.Inv(y.actor)
    && k.capacity == |y.ring.slots| && |y.actor.threads| == |y.ring.producers|
    && (forall t | 0 <= t < |y.actor.threads| :: Matches(y.actor.threads[t], y.ring.producers[t]))
    && (!y.ring.consumer.Ready? ==> exists t :: 0 <= t < |y.actor.threads| && Drains(y.ring, y.actor.threads[t]))
    && y.actor.box == BoxOf(y.ring)
    && y.actor.delivered == Out(y.ring)
  }

  // What the ring has handed back, delivered or about to be.
  function Out<T>(s: Ring<T>): seq<T> {
    if s.consumer.Released? then s.popped + [s.consumer.item] else s.popped
  }

  // ---- every operation keeps the link ------------------------------------------------

  // One thread moved outside its drain, its producer with it.
  lemma Relink<T>(k: A.Limits, y: System<T>, y': System<T>, t: nat, p: A.Thread<T>, q: Producer<T>)
    requires Linked(k, y) && t < |y.actor.threads| && !y.actor.threads[t].Draining?
    requires Inv(y'.ring) && A.Inv(y'.actor) && |y'.ring.slots| == |y.ring.slots|
    requires y'.actor.threads == y.actor.threads[t := p] && y'.ring.producers == y.ring.producers[t := q]
    requires Matches(p, q) && y'.ring.consumer == y.ring.consumer && y'.ring.popped == y.ring.popped
    requires y'.actor.box == BoxOf(y'.ring) && y'.actor.delivered == y.actor.delivered
    ensures Linked(k, y')
  {
    hide Inv, A.Inv, Matches, BoxOf;
    if !y'.ring.consumer.Ready? {
      var u :| 0 <= u < |y.actor.threads| && Drains(y.ring, y.actor.threads[u]);
      assert Drains(y'.ring, y'.actor.threads[u]);
    }
    forall u | 0 <= u < |y'.actor.threads| ensures Matches(y'.actor.threads[u], y'.ring.producers[u]) {
      assert Matches(y.actor.threads[u], y.ring.producers[u]);
    }
  }

  lemma EnterLinked<T>(k: A.Limits, y: System<T>, t: nat, item: T)
    requires Linked(k, y) && t < |y.actor.threads| && y.actor.threads[t].Outside?
    ensures Linked(k, Step(k, y, Enter(t, item)))
  {
    hide SlotsOk, ProducerOk, ConsumerOk, HistoryOk, A.Inv, BoxOf, Index;
    var y', e := Step(k, y, Enter(t, item)), MpscRing.Begin(t, item);
    assert Matches(y.actor.threads[t], y.ring.producers[t]);
    OtherStepsRefine(y.ring, e);
    A.StepInv(k, y.actor, A.EnterPush(t, item));
    Relink(k, y, y', t, A.Pushing(item), Loaded(item, y.ring.enqueue));
  }

  // The load of a slot's sequence: going on, reloading, or giving up on a full
  // mailbox.
  lemma LoadLinked<T>(k: A.Limits, y: System<T>, t: nat, spurious: bool)
    requires Linked(k, y) && t < |y.actor.threads| && y.actor.threads[t].Pushing? && y.ring.producers[t].Loaded?
    ensures Linked(k, Step(k, y, PushOp(t, spurious)))
  {
    hide SlotsOk, ProducerOk, ConsumerOk, HistoryOk, A.Inv, BoxOf, Index, At;
    var y', e := Step(k, y, PushOp(t, spurious)), LoadSequence(t);
    var s', item := Apply(y.ring, e), y.actor.threads[t].item;
    assert Matches(y.actor.threads[t], y.ring.producers[t]);
    OtherStepsRefine(y.ring, e);
    PushFailsWhenFull(y.ring, t);
    A.StepInv(k, y.actor, A.GiveUp(t));
    if s'.producers[t].Resting? {
      assert |y.actor.box| == k.capacity;
      Relink(k, y, y', t, A.Outside, Resting);
    } else {
      assert y.actor.threads == y.actor.threads[t := A.Pushing(item)];
      Relink(k, y, y', t, A.Pushing(item), s'.producers[t]);
    }
  }

  // The compare-exchange: a claim, or a reload.
  lemma ExchangeLinked<T>(k: A.Limits, y: System<T>, t: nat, spurious: bool)
    requires Linked(k, y) && t < |y.actor.threads| && y.actor.threads[t].Pushing? && y.ring.producers[t].Matched?
    ensures Linked(k, Step(k, y, PushOp(t, spurious)))
  {
    hide SlotsOk, ConsumerOk, HistoryOk, A.Inv, BoxOf, Index, At;
    var y', e := Step(k, y, PushOp(t, spurious)), CompareExchange(t, spurious);
    var s', item, pos := Apply(y.ring, e), y.actor.threads[t].item, y.ring.producers[t].pos;
    assert Matches(y.actor.threads[t], y.ring.producers[t]);
    assert ProducerOk(y.ring, t);
    A.StepInv(k, y.actor, A.TryPush(t));
    if !spurious && pos == y.ring.enqueue {
      ClaimRefines(y.ring, t);
      assert |y.actor.box| < k.capacity;
      Relink(k, y, y', t, A.Claimed(item), Claimed(item, pos));
    } else {
      OtherStepsRefine(y.ring, e);
      assert y.actor.threads == y.actor.threads[t := A.Pushing(item)];
      Relink(k, y, y', t, A.Pushing(item), Loaded(item, y.ring.enqueue));
    }
  }

  // The item's move into the slot.
  lemma MoveLinked<T>(k: A.Limits, y: System<T>, t: nat, spurious: bool)
    requires Linked(k, y) && t < |y.actor.threads| && y.actor.threads[t].Claimed? && y.ring.producers[t].Claimed?
    ensures Linked(k, Step(k, y, PushOp(t, spurious)))
  {
    hide SlotsOk, ProducerOk, ConsumerOk, HistoryOk, A.Inv, BoxOf, Index, At, PutAt, ProducerStep, SetProducer;
    var y', q := Step(k, y, PushOp(t, spurious)), y.ring.producers[t];
    OtherStepsRefine(y.ring, MoveData(t));
    StoresKeep(y.ring, MoveData(t), Stored(q.pos));
    assert y.actor.threads == y.actor.threads[t := y.actor.threads[t]];
    Relink(k, y, y', t, y.actor.threads[t], Stored(q.pos));
  }

  // The store that publishes it.
  lemma PublishLinked<T>(k: A.Limits, y: System<T>, t: nat, spurious: bool)
    requires Linked(k, y) && t < |y.actor.threads| && y.actor.threads[t].Claimed? && y.ring.producers[t].Stored?
    ensures Linked(k, Step(k, y, PushOp(t, spurious)))
  {
    hide SlotsOk, ProducerOk, ConsumerOk, HistoryOk, A.Inv, BoxOf, Index, At, PutAt, ProducerStep, SetProducer;
    var y', q := Step(k, y, PushOp(t, spurious)), y.ring.producers[t];
    PublishRefines(y.ring, t);
    StoresKeep(y.ring, Publish(t), Resting);
    A.StepInv(k, y.actor, A.PublishCell(t, q.pos - Front(y.ring)));
    Relink(k, y, y', t, A.Published, Resting);
  }

  lemma StoresKeep<T>(s: Ring<T>, e: MpscRing.Event<T>, q: Producer<T>)
    requires Inv(s) && (e.MoveData? || e.Publish?) && e.t < |s.producers| && Ours(s, e)
    requires q == if e.MoveData? then Stored(s.producers[e.t].pos) else Resting
    ensures var s' := Apply(s, e);
            && s'.producers == s.producers[e.t := q] && s'.consumer == s.consumer && s'.popped == s.popped
            && |s'.slots| == |s.slots|
  {
    hide SlotsOk, ProducerOk, ConsumerOk, HistoryOk, Index;
  }

  lemma PushLinked<T>(k: A.Limits, y: System<T>, t: nat, spurious: bool)
    requires Linked(k, y)
    ensures Linked(k, Step(k, y, PushOp(t, spurious)))
  {
    hide Inv, A.Inv, BoxOf;
    if t < |y.actor.threads| && (y.actor.threads[t].Pushing? || y.actor.threads[t].Claimed?) {
      assert Matches(y.actor.threads[t], y.ring.producers[t]);
      if y.actor.threads[t].Claimed? {
        if y.ring.producers[t].Claimed? {
          MoveLinked(k, y, t, spurious);
        } else {
          PublishLinked(k, y, t, spurious);
        }
      } else if y.ring.producers[t].Loaded? {
        LoadLinked(k, y, t, spurious);
      } else {
        ExchangeLinked(k, y, t, spurious);
      }
    }
  }

  // The protocol's own operations touch neither mailbox nor producers.
  lemma ProtocolKeeps<T>(k: A.Limits, a: A.Actor<T>, e: A.Event<T>)
    requires e.t < |a.threads| && (ProtocolEvent(a.threads[e.t], e.t) == Some(e) || e == A.Start(e.t))
    ensures var a' := A.Apply(k, a, e);
            && a'.box == a.box && a'.delivered == a.delivered && |a'.threads| == |a.threads|
            && a'.threads == a.threads[e.t := a'.threads[e.t]]
            && (a'.threads[e.t] == a.threads[e.t]
                || !(a'.threads[e.t].Pushing? || a'.threads[e.t].Claimed?
                     || a.threads[e.t].Pushing? || a.threads[e.t].Claimed?))
            && (a.threads[e.t].Draining? ==> a'.threads[e.t] == a.threads[e.t])
  {
  }

  lemma ProtocolLinked<T>(k: A.Limits, y: System<T>, e: A.Event<T>)
    requires Linked(k, y) && e.t < |y.actor.threads|
    requires ProtocolEvent(y.actor.threads[e.t], e.t) == Some(e) || e == A.Start(e.t)
    ensures Linked(k, System(y.ring, A.Apply(k, y.actor, e)))
  {
    hide Inv, A.Inv, BoxOf, A.Apply;
    A.StepInv(k, y.actor, e);
    ProtocolKeeps(k, y.actor, e);
    var y' := System(y.ring, A.Apply(k, y.actor, e));
    assert Matches(y.actor.threads[e.t], y.ring.producers[e.t]);
    if y.actor.threads[e.t].Draining? {
      assert y'.actor.threads == y.actor.threads;
    } else {
      assert y.ring.producers == y.ring.producers[e.t := y.ring.producers[e.t]];
      Relink(k, y, y', e.t, y'.actor.threads[e.t], y.ring.producers[e.t]);
    }
  }

  // The activation makes the consumer one: two draining threads are the same.
  lemma OneDrainer<T>(a: A.Actor<T>, t: nat, u: nat)
    requires A.Inv(a) && t < |a.threads| && u < |a.threads| && a.threads[t].Draining? && a.threads[u].Draining?
    ensures t == u
  {
    hide A.LogOk;
    if t < u {
      SumAtLeastTwo(a.threads, t, u, A.Token);
    } else if u < t {
      SumAtLeastTwo(a.threads, u, t, A.Token);
    }
  }

  lemma InsidePop<T>(k: A.Limits, y: System<T>, t: nat)
    requires Linked(k, y) && t < |y.actor.threads| && y.actor.threads[t].Draining? && !y.ring.consumer.Ready?
    ensures Drains(y.ring, y.actor.threads[t])
  {
    hide Inv, A.Inv, BoxOf, Matches;
    var u :| 0 <= u < |y.actor.threads| && Drains(y.ring, y.actor.threads[u]);
    OneDrainer(y.actor, t, u);
  }

  // The draining thread moved, and the ring's consumer with it.
  lemma Redrain<T>(k: A.Limits, y: System<T>, y': System<T>, t: nat, p: A.Thread<T>)
    requires Linked(k, y) && t < |y.actor.threads| && y.actor.threads[t].Draining?
    requires Inv(y'.ring) && A.Inv(y'.actor) && |y'.ring.slots| == |y.ring.slots|
    requires y'.actor.threads == y.actor.threads[t := p] && y'.ring.producers == y.ring.producers
    requires p.Draining? || p.Drained?
    requires !y'.ring.consumer.Ready? ==> Drains(y'.ring, p)
    requires y'.actor.box == BoxOf(y'.ring) && y'.actor.delivered == Out(y'.ring)
    ensures Linked(k, y')
  {
    hide Inv, A.Inv, BoxOf, Out;
    assert y'.actor.threads[t] == p;
    forall u | 0 <= u < |y'.actor.threads| ensures Matches(y'.actor.threads[u], y'.ring.producers[u]) {
      assert Matches(y.actor.threads[u], y.ring.producers[u]);
    }
  }

  // What an operation of try_pop keeps.
  lemma PopKeeps<T>(s: Ring<T>)
    requires Inv(s)
    ensures var s' := Apply(s, DrainEvent(s));
            && s'.producers == s.producers && |s'.slots| == |s.slots|
            && (s.consumer.Ready? ==> s' == ConsumerStep(s) && Out(s') == Out(s)
                                      && (s'.consumer.Ready? || s'.consumer.Seen?))
            && (s.consumer.Seen? ==> s'.consumer.Taken? && Out(s') == Out(s))
            && (s.consumer.Taken? ==> s'.consumer.Released? && Out(s') == Out(s) + [s.consumer.item])
            && (s.consumer.Released? ==> s'.consumer.Ready? && Out(s') == Out(s))
  {
    hide SlotsOk, ProducerOk, ConsumerOk, HistoryOk, Index;
  }

  lemma EndLinked<T>(k: A.Limits, y: System<T>, ring: Ring<T>, t: nat)
    requires Linked(k, y) && t < |y.actor.threads| && y.actor.threads[t].Draining?
    requires y.actor.threads[t].executed >= y.actor.threads[t].limit || !Poppable(y.actor.box)
    requires Inv(ring) && BoxOf(ring) == BoxOf(y.ring) && ring.consumer.Ready? && Out(ring) == Out(y.ring)
    requires ring.producers == y.ring.producers && |ring.slots| == |y.ring.slots|
    ensures Linked(k, System(ring, A.Apply(k, y.actor, A.EndDrain(t))))
  {
    hide Inv, A.Inv, BoxOf, Out, Matches;
    A.StepInv(k, y.actor, A.EndDrain(t));
    Redrain(k, y, System(ring, A.Apply(k, y.actor, A.EndDrain(t))), t, A.Drained(y.actor.threads[t].executed));
  }

  // The load finds the front published, or ends the drain.
  lemma PopLoadLinked<T>(k: A.Limits, y: System<T>, t: nat)
    requires Linked(k, y) && t < |y.actor.threads| && y.actor.threads[t].Draining? && y.ring.consumer.Ready?
    requires MayPop(y.ring, y.actor.threads[t])
    ensures Linked(k, Step(k, y, DrainOp(t)))
  {
    hide SlotsOk, ProducerOk, ConsumerOk, HistoryOk, A.Inv, BoxOf, Out, Index, ConsumerStep;
    var y', s' := Step(k, y, DrainOp(t)), Apply(y.ring, PopLoad);
    PopKeeps(y.ring);
    OtherStepsRefine(y.ring, PopLoad);
    PoppableRefines(y.ring);
    if s'.consumer.Ready? {
      EndLinked(k, y, s', t);
    } else {
      assert y.actor.threads == y.actor.threads[t := y.actor.threads[t]];
      Redrain(k, y, y', t, y.actor.threads[t]);
    }
  }

  // The data move, and the return to ready after the slot went back.
  lemma PopSilentLinked<T>(k: A.Limits, y: System<T>, t: nat)
    requires Linked(k, y) && t < |y.actor.threads| && y.actor.threads[t].Draining?
    requires y.ring.consumer.Seen? || y.ring.consumer.Released?
    ensures Linked(k, Step(k, y, DrainOp(t)))
  {
    hide SlotsOk, ProducerOk, ConsumerOk, HistoryOk, A.Inv, BoxOf, Out, Index, ConsumerStep;
    var y' := Step(k, y, DrainOp(t));
    PopKeeps(y.ring);
    InsidePop(k, y, t);
    OtherStepsRefine(y.ring, DrainEvent(y.ring));
    assert y.actor.threads == y.actor.threads[t := y.actor.threads[t]];
    Redrain(k, y, y', t, y.actor.threads[t]);
  }

  // The slot goes back: the front cell leaves the mailbox and is delivered.
  lemma PopReleaseLinked<T>(k: A.Limits, y: System<T>, t: nat)
    requires Linked(k, y) && t < |y.actor.threads| && y.actor.threads[t].Draining? && y.ring.consumer.Taken?
    ensures Linked(k, Step(k, y, DrainOp(t)))
  {
    hide SlotsOk, ProducerOk, ConsumerOk, HistoryOk, A.Inv, BoxOf, Out, Index, ConsumerStep;
    var y', p := Step(k, y, DrainOp(t)), y.actor.threads[t];
    PopKeeps(y.ring);
    InsidePop(k, y, t);
    TakeRefines(y.ring);
    A.StepInv(k, y.actor, A.Pop(t));
    Redrain(k, y, y', t, A.Draining(p.limit, p.executed + 1));
  }

  lemma DrainLinked<T>(k: A.Limits, y: System<T>, t: nat)
    requires Linked(k, y)
    ensures Linked(k, Step(k, y, DrainOp(t)))
  {
    hide Inv, A.Inv, BoxOf;
    if t < |y.actor.threads| && y.actor.threads[t].Draining? {
      if y.ring.consumer.Taken? {
        PopReleaseLinked(k, y, t);
      } else if !y.ring.consumer.Ready? {
        PopSilentLinked(k, y, t);
      } else if MayPop(y.ring, y.actor.threads[t]) {
        PopLoadLinked(k, y, t);
      } else {
        EndLinked(k, y, y.ring, t);
      }
    }
  }

  lemma StepLinked<T>(k: A.Limits, y: System<T>, e: Act<T>)
    requires Linked(k, y)
    ensures Linked(k, Step(k, y, e)) && |Step(k, y, e).actor.threads| == |y.actor.threads|
  {
    hide Inv, A.Inv, Matches, BoxOf;
    match e
    case Enter(t, item) =>
      if t < |y.actor.threads| && y.actor.threads[t].Outside? {
        EnterLinked(k, y, t, item);
        A.StepInv(k, y.actor, A.EnterPush(t, item));
      }
    case PushOp(t, spurious) =>
      PushLinked(k, y, t, spurious);
      ThreadsKept(k, y, e);
    case Protocol(t) =>
      if t < |y.actor.threads| {
        var next := ProtocolEvent(y.actor.threads[t], t);
        if next.Some? {
          ProtocolLinked(k, y, next.value);
        }
      }
      ThreadsKept(k, y, e);
    case Begin(t) =>
      if t < |y.actor.threads| {
        ProtocolLinked(k, y, A.Start(t));
      }
      ThreadsKept(k, y, e);
    case DrainOp(t) =>
      DrainLinked(k, y, t);
      ThreadsKept(k, y, e);
  }

  lemma ThreadsKept<T>(k: A.Limits, y: System<T>, e: Act<T>)
    requires Linked(k, y)
    ensures |Step(k, y, e).actor.threads| == |y.actor.threads|
  {
    hide Inv, A.Inv, Matches, BoxOf, A.Apply;
    forall f: A.Event<T> ensures |A.Apply(k, y.actor, f).threads| == |y.actor.threads| {
      A.StepInv(k, y.actor, f);
    }
  }

  // ---- whole runs --------------------------------------------------------------------

  function Start<T>(k: A.Limits, threads: nat, blank: T): System<T> {
    System(Init(k.capacity, threads, blank), A.Init(threads))
  }

  lemma StartLinked<T>(k: A.Limits, threads: nat, blank: T)
    requires k.capacity >= 2
    ensures Linked(k, Start(k, threads, blank))
  {
    InitInv(k.capacity, threads, blank);
    A.InitInv<T>(threads);
    hide Inv, A.Inv;
    assert BoxOf(Start(k, threads, blank).ring) == [];
  }

  ghost function Exec<T>(k: A.Limits, y: System<T>, es: seq<Act<T>>): (y': System<T>)
    requires Linked(k, y)
    ensures Linked(k, y') && |y'.actor.threads| == |y.actor.threads|
    decreases |es|
  {
    if es == [] then y
    else
      StepLinked(k, y, es[0]);
      Exec(k, Step(k, y, es[0]), es[1..])
  }

  // What the actor accepted is the ring's log of claims, and what it delivered
  // is the part of it before the ring's front.
  lemma AcceptedIsLog<T>(k: A.Limits, y: System<T>)
    requires Linked(k, y)
    ensures |y.actor.accepted| == |y.ring.log| && |y.actor.delivered| == Front(y.ring) <= |y.ring.log|
    ensures forall i | 0 <= i < |y.ring.log| :: y.actor.accepted[i] == y.ring.log[i].1
    ensures y.actor.delivered == y.actor.accepted[..|y.actor.delivered|]
  {
    hide SlotsOk, ProducerOk, HistoryOk, A.Counters, Matches, Index, Drains, At, CellAt;
    var s, a := y.ring, y.actor;
    OutIsLog(s);
    forall i: nat | i < |s.log| ensures a.accepted[i] == s.log[i].1 {
      if i >= Front(s) {
        BoxItem(s, i);
      }
    }
  }

  lemma OutIsLog<T>(s: Ring<T>)
    requires Inv(s)
    ensures |Out(s)| == Front(s) && forall i | 0 <= i < |Out(s)| :: Out(s)[i] == s.log[i].1
  {
    hide SlotsOk, ProducerOk, HistoryOk, Index;
  }

  lemma BoxItem<T>(s: Ring<T>, i: nat)
    requires Inv(s) && Front(s) <= i < s.enqueue
    ensures BoxOf(s)[i - Front(s)].item == s.log[i].1
  {
    hide SlotsOk, ProducerOk, HistoryOk, ConsumerOk, Index;
    assert BoxOf(s)[i - Front(s)] == CellAt(s, Front(s) + (i - Front(s)));
  }

  // Every push of any thread goes through the ring, every delivery comes out of
  // it.  In every run, what the actor delivered of one thread's envelopes is a
  // prefix of what that thread pushed, in its order.
  lemma DeliveredInOrder<T>(k: A.Limits, threads: nat, blank: T, es: seq<Act<T>>, t: nat)
    requires k.capacity >= 2 && t < threads
    ensures Linked(k, Start(k, threads, blank))
    ensures var y := Exec(k, Start(k, threads, blank), es);
            && |y.actor.delivered| <= |y.ring.log| && t < |y.ring.accepted|
            && (forall i | 0 <= i < |y.actor.delivered| :: y.actor.delivered[i] == y.ring.log[i].1)
            && ByProducer(y.ring.log[..|y.actor.delivered|], t) <= y.ring.accepted[t]
  {
    StartLinked(k, threads, blank);
    hide SlotsOk, ProducerOk, ConsumerOk, A.Inv, Matches, BoxOf, ByProducer;
    var y := Exec(k, Start(k, threads, blank), es);
    AcceptedIsLog(k, y);
    ByProducerPrefix(y.ring.log, |y.actor.delivered|, t);
  }

  // When no task is submitted and every thread is outside, the ring is empty
  // and every envelope ever claimed in it has been delivered: whatever the
  // interleaving, no wake-up is lost and no cell is left behind.
  lemma QuietRingIsEmpty<T>(k: A.Limits, threads: nat, blank: T, es: seq<Act<T>>)
    requires k.capacity >= 2
    ensures Linked(k, Start(k, threads, blank))
    ensures var y := Exec(k, Start(k, threads, blank), es);
            A.Quiet(y.actor) ==>
              && y.ring.consumer.Ready? && y.ring.dequeue == y.ring.enqueue == |y.ring.log| == |y.actor.delivered|
              && forall i | 0 <= i < |y.ring.log| :: y.actor.delivered[i] == y.ring.log[i].1
  {
    StartLinked(k, threads, blank);
    hide SlotsOk, ProducerOk, HistoryOk, A.Inv, Matches, Index;
    var y := Exec(k, Start(k, threads, blank), es);
    if A.Quiet(y.actor) {
      A.QuietIsEmpty(y.actor);
      AcceptedIsLog(k, y);
      assert forall t | 0 <= t < |y.actor.threads| :: !Drains(y.ring, y.actor.threads[t]);
    }
  }
}
