module MailboxProgress {
  // Every event of the activation protocol can be run as the ring's own atomic
  // operations, so what the protocol can finish the ring can: from every
  // reachable state the ring is drained and everything claimed is delivered.

  import opened Prelude
  import opened MpscRing
  import opened Mailbox
  import opened MailboxActor
  import A = ActorActivation
  import P = ActorProgress

  // The operations bring the actor where the protocol's event brings it.
  ghost predicate Realizes<T>(k: A.Limits, y: System<T>, acts: seq<Act<T>>, a: A.Actor<T>)
    requires Linked(k, y)
  {
    (forall x | x in acts :: !x.Enter?) && MailboxActor.Exec(k, y, acts).actor == a
  }

  lemma Nothing<T>(k: A.Limits, y: System<T>)
    requires Linked(k, y)
    ensures Realizes(k, y, [], y.actor)
  {
  }

  // One operation, then the others.
  lemma Then<T>(k: A.Limits, y: System<T>, x: Act<T>, acts: seq<Act<T>>, a: A.Actor<T>)
    requires Linked(k, y) && !x.Enter? && Linked(k, Step(k, y, x)) && Realizes(k, Step(k, y, x), acts, a)
    ensures Realizes(k, y, [x] + acts, a)
  {
    hide Linked, Step;
    assert ([x] + acts)[1..] == acts;
  }

  lemma One<T>(k: A.Limits, y: System<T>, x: Act<T>)
    requires Linked(k, y) && !x.Enter?
    ensures Linked(k, Step(k, y, x)) && Realizes(k, y, [x], Step(k, y, x).actor)
  {
    hide Linked, Step;
    StepLinked(k, y, x);
    assert [x][1..] == [];
    assert MailboxActor.Exec(k, Step(k, y, x), []) == Step(k, y, x);
  }

  lemma {:induction false} ExecAppend<T>(k: A.Limits, y: System<T>, a: seq<Act<T>>, b: seq<Act<T>>)
    requires Linked(k, y)
    ensures MailboxActor.Exec(k, y, a + b) == MailboxActor.Exec(k, MailboxActor.Exec(k, y, a), b)
    decreases |a|
  {
    hide Linked, Step;
    if a == [] {
      assert a + b == b;
    } else {
      StepLinked(k, y, a[0]);
      assert (a + b)[1..] == a[1..] + b;
      ExecAppend(k, Step(k, y, a[0]), a[1..], b);
    }
  }

  lemma Both<T>(k: A.Limits, y: System<T>, first: seq<Act<T>>, rest: seq<Act<T>>, a: A.Actor<T>)
    requires Linked(k, y) && (forall x | x in first :: !x.Enter?)
    requires Realizes(k, MailboxActor.Exec(k, y, first), rest, a)
    ensures Realizes(k, y, first + rest, a)
  {
    hide Linked;
    ExecAppend(k, y, first, rest);
  }

  // ---- a push --------------------------------------------------------------------

  ghost predicate Fresh<T>(s: Ring<T>, t: nat) {
    t < |s.producers| && (s.producers[t].Loaded? || s.producers[t].Matched?) && s.producers[t].pos == s.enqueue
  }

  // An outdated exchange fails and reloads; an outdated load reloads, or sees the
  // sequence of a claim not yet published.
  lemma Reloads<T>(k: A.Limits, y: System<T>, t: nat)
    requires Linked(k, y) && t < |y.actor.threads| && y.actor.threads[t].Pushing?
    requires !Fresh(y.ring, t)
    ensures var y' := Step(k, y, PushOp(t, false));
            && Linked(k, y') && y'.actor == y.actor && t < |y.ring.producers| == |y'.ring.producers|
            && (Fresh(y'.ring, t) || (y.ring.producers[t].Loaded? && y'.ring.producers[t].Matched?))
  {
    StepLinked(k, y, PushOp(t, false));
    hide SlotsOk, ConsumerOk, HistoryOk, A.Inv, BoxOf, Index;
    assert Matches(y.actor.threads[t], y.ring.producers[t]);
    assert ProducerOk(y.ring, t);
    if y.ring.producers[t].Loaded? {
      FreeOrClaimed(y.ring, y.ring.producers[t].pos);
    }
  }

  lemma GetsFresh<T>(k: A.Limits, y: System<T>, t: nat) returns (acts: seq<Act<T>>)
    requires Linked(k, y) && t < |y.actor.threads| && y.actor.threads[t].Pushing?
    ensures Realizes(k, y, acts, y.actor) && Fresh(MailboxActor.Exec(k, y, acts).ring, t)
    decreases if Fresh(y.ring, t) then 0
              else if t < |y.ring.producers| && y.ring.producers[t].Matched? then 1 else 2
  {
    hide Linked, Step;
    if Fresh(y.ring, t) {
      Nothing(k, y);
      acts := [];
    } else {
      Reloads(k, y, t);
      acts := GetsFresh(k, Step(k, y, PushOp(t, false)), t);
      Then(k, y, PushOp(t, false), acts, y.actor);
      acts := [PushOp(t, false)] + acts;
      assert acts[1..] == acts[1..];
    }
  }

  // With a current position and room, it sees its sequence.
  lemma Sees<T>(k: A.Limits, y: System<T>, t: nat)
    requires Linked(k, y) && t < |y.actor.threads| && y.actor.threads[t].Pushing?
    requires Fresh(y.ring, t) && y.ring.producers[t].Loaded? && |y.actor.box| < k.capacity
    ensures var y' := Step(k, y, PushOp(t, false));
            && Linked(k, y') && y'.actor == y.actor && Fresh(y'.ring, t) && y'.ring.producers[t].Matched?
  {
    StepLinked(k, y, PushOp(t, false));
    hide ConsumerOk, HistoryOk, A.Inv, Index, ProducerOk;
    assert y.ring.enqueue < Front(y.ring) + |y.ring.slots|;
    assert At(y.ring, y.ring.enqueue).sequence == y.ring.enqueue;
  }

  // And claims.
  lemma Claims<T>(k: A.Limits, y: System<T>, t: nat)
    requires Linked(k, y) && t < |y.actor.threads| && y.actor.threads[t].Pushing?
    requires Fresh(y.ring, t) && y.ring.producers[t].Matched?
    ensures Step(k, y, PushOp(t, false)).actor == A.Apply(k, y.actor, A.TryPush(t))
  {
    hide SlotsOk, ConsumerOk, HistoryOk, A.Inv, BoxOf, Index, ProducerOk;
  }

  lemma ClaimsFresh<T>(k: A.Limits, y: System<T>, t: nat) returns (acts: seq<Act<T>>)
    requires Linked(k, y) && t < |y.actor.threads| && y.actor.threads[t].Pushing?
    requires Fresh(y.ring, t) && |y.actor.box| < k.capacity
    ensures Realizes(k, y, acts, A.Apply(k, y.actor, A.TryPush(t)))
  {
    hide Linked, Step, A.Apply;
    var x := PushOp(t, false);
    if y.ring.producers[t].Matched? {
      One(k, y, x);
      Claims(k, y, t);
      acts := [x];
    } else {
      Sees(k, y, t);
      var y' := Step(k, y, x);
      One(k, y', x);
      Claims(k, y', t);
      Then(k, y, x, [x], A.Apply(k, y.actor, A.TryPush(t)));
      acts := [x] + [x];
    }
  }

  lemma PushRuns<T>(k: A.Limits, y: System<T>, t: nat) returns (acts: seq<Act<T>>)
    requires Linked(k, y) && t < |y.actor.threads| && y.actor.threads[t].Pushing? && |y.actor.box| < k.capacity
    ensures Realizes(k, y, acts, A.Apply(k, y.actor, A.TryPush(t)))
  {
    hide Linked, Step, A.Apply, Fresh;
    var first := GetsFresh(k, y, t);
    var rest := ClaimsFresh(k, MailboxActor.Exec(k, y, first), t);
    Both(k, y, first, rest, A.Apply(k, y.actor, A.TryPush(t)));
    acts := first + rest;
  }

  // On a full mailbox it gives up.
  lemma GivesUp<T>(k: A.Limits, y: System<T>, t: nat)
    requires Linked(k, y) && t < |y.actor.threads| && y.actor.threads[t].Pushing?
    requires Fresh(y.ring, t) && |y.actor.box| >= k.capacity
    ensures Step(k, y, PushOp(t, false)).actor == A.Apply(k, y.actor, A.GiveUp(t))
  {
    hide SlotsOk, ConsumerOk, HistoryOk, A.Inv, Index;
    assert ProducerOk(y.ring, t);
    assert y.ring.producers[t].Loaded?;
    PushFailsWhenFull(y.ring, t);
  }

  lemma GiveUpRuns<T>(k: A.Limits, y: System<T>, t: nat) returns (acts: seq<Act<T>>)
    requires Linked(k, y) && t < |y.actor.threads| && y.actor.threads[t].Pushing? && |y.actor.box| >= k.capacity
    ensures Realizes(k, y, acts, A.Apply(k, y.actor, A.GiveUp(t)))
  {
    hide Linked, Step, A.Apply, Fresh;
    var first := GetsFresh(k, y, t);
    var y' := MailboxActor.Exec(k, y, first);
    One(k, y', PushOp(t, false));
    GivesUp(k, y', t);
    Both(k, y, first, [PushOp(t, false)], A.Apply(k, y.actor, A.GiveUp(t)));
    acts := first + [PushOp(t, false)];
  }

  // The item's move, then the store that publishes it.
  lemma MovesIn<T>(k: A.Limits, y: System<T>, t: nat)
    requires Linked(k, y) && t < |y.actor.threads| && y.actor.threads[t].Claimed?
    requires t < |y.ring.producers| && y.ring.producers[t].Claimed?
    ensures var y' := Step(k, y, PushOp(t, false));
            Linked(k, y') && y'.actor == y.actor && t < |y'.ring.producers| && y'.ring.producers[t].Stored?
  {
    StepLinked(k, y, PushOp(t, false));
    hide SlotsOk, ConsumerOk, HistoryOk, A.Inv, BoxOf, Index, ProducerOk, At, PutAt, ProducerStep, SetProducer;
    StoresKeep(y.ring, MoveData(t), Stored(y.ring.producers[t].pos));
  }

  // The one unpublished cell of thread t is the producer's own.
  lemma OwnPosition<T>(k: A.Limits, y: System<T>, t: nat, i: nat)
    requires Linked(k, y) && t < |y.actor.threads| && t < |y.ring.producers| && y.ring.producers[t].Stored?
    requires i < |y.actor.box| && A.OwnCell(y.actor.box[i], t)
    ensures y.ring.producers[t].pos == Front(y.ring) + i
  {
    hide ConsumerOk, HistoryOk, A.Inv, Index, ProducerOk;
    var s, p := y.ring, Front(y.ring) + i;
    assert y.actor.box[i] == CellAt(s, p);
    assert ClaimedAt(s, p);
  }

  lemma Publishes<T>(k: A.Limits, y: System<T>, t: nat, i: nat)
    requires Linked(k, y) && t < |y.actor.threads| && y.actor.threads[t].Claimed?
    requires t < |y.ring.producers| && y.ring.producers[t].Stored?
    requires i < |y.actor.box| && A.OwnCell(y.actor.box[i], t)
    ensures Step(k, y, PushOp(t, false)).actor == A.Apply(k, y.actor, A.PublishCell(t, i))
  {
    OwnPosition(k, y, t, i);
    hide SlotsOk, ConsumerOk, HistoryOk, A.Inv, BoxOf, Index, ProducerOk;
  }

  lemma PublishRuns<T>(k: A.Limits, y: System<T>, t: nat, i: nat) returns (acts: seq<Act<T>>)
    requires Linked(k, y) && t < |y.actor.threads| && y.actor.threads[t].Claimed?
    requires i < |y.actor.box| && A.OwnCell(y.actor.box[i], t)
    ensures Realizes(k, y, acts, A.Apply(k, y.actor, A.PublishCell(t, i)))
  {
    ClaimerAt(k, y, t);
    hide Linked, Step, A.Apply;
    var x := PushOp(t, false);
    if y.ring.producers[t].Stored? {
      One(k, y, x);
      Publishes(k, y, t, i);
      acts := [x];
    } else {
      MovesIn(k, y, t);
      var y' := Step(k, y, x);
      One(k, y', x);
      Publishes(k, y', t, i);
      Then(k, y, x, [x], A.Apply(k, y.actor, A.PublishCell(t, i)));
      acts := [x] + [x];
    }
  }

  lemma ClaimerAt<T>(k: A.Limits, y: System<T>, t: nat)
    requires Linked(k, y) && t < |y.actor.threads| && y.actor.threads[t].Claimed?
    ensures t < |y.ring.producers| && (y.ring.producers[t].Claimed? || y.ring.producers[t].Stored?)
  {
    hide Inv, A.Inv, BoxOf;
    assert Matches(y.actor.threads[t], y.ring.producers[t]);
  }

  // ---- a drain ------------------------------------------------------------------------

  // The return to ready after a slot went back, and the load and the move before.
  lemma PopSilent<T>(k: A.Limits, y: System<T>, t: nat)
    requires Linked(k, y) && t < |y.actor.threads| && y.actor.threads[t].Draining?
    requires y.ring.consumer.Released? || y.ring.consumer.Seen?
             || (y.ring.consumer.Ready? && y.actor.threads[t].executed < y.actor.threads[t].limit
                 && Poppable(y.actor.box))
    ensures var y' := Step(k, y, DrainOp(t));
            && Linked(k, y') && y'.actor == y.actor
            && (y.ring.consumer.Released? ==> y'.ring.consumer.Ready?)
            && (y.ring.consumer.Ready? ==> y'.ring.consumer.Seen?)
            && (y.ring.consumer.Seen? ==> y'.ring.consumer.Taken?)
  {
    StepLinked(k, y, DrainOp(t));
    hide SlotsOk, ProducerOk, ConsumerOk, HistoryOk, A.Inv, BoxOf, Index, ConsumerStep;
    PopKeeps(y.ring);
    if y.ring.consumer.Ready? {
      PoppableRefines(y.ring);
    }
  }

  lemma PopEnds<T>(k: A.Limits, y: System<T>, t: nat)
    requires Linked(k, y) && t < |y.actor.threads| && y.actor.threads[t].Draining? && y.ring.consumer.Taken?
    ensures Step(k, y, DrainOp(t)).actor == A.Apply(k, y.actor, A.Pop(t))
  {
    hide SlotsOk, ProducerOk, ConsumerOk, HistoryOk, A.Inv, BoxOf, Index, ConsumerStep;
    PopKeeps(y.ring);
  }

  // How many operations are left of a pop.
  function PopLeft<T>(c: Consumer<T>): nat {
    match c
    case Released(_) => 4
    case Ready => 3
    case Seen => 2
    case Taken(_) => 1
  }

  lemma {:induction false} PopRuns<T>(k: A.Limits, y: System<T>, t: nat) returns (acts: seq<Act<T>>)
    requires Linked(k, y) && t < |y.actor.threads| && y.actor.threads[t].Draining?
    requires y.actor.threads[t].executed < y.actor.threads[t].limit && Poppable(y.actor.box)
    ensures Realizes(k, y, acts, A.Apply(k, y.actor, A.Pop(t)))
    decreases PopLeft(y.ring.consumer)
  {
    hide Linked, Step, A.Apply;
    var x := DrainOp(t);
    if y.ring.consumer.Taken? {
      One(k, y, x);
      PopEnds(k, y, t);
      acts := [x];
    } else {
      PopSilent(k, y, t);
      acts := PopRuns(k, Step(k, y, x), t);
      Then(k, y, x, acts, A.Apply(k, y.actor, A.Pop(t)));
      acts := [x] + acts;
    }
  }

  lemma DrainEnds<T>(k: A.Limits, y: System<T>, t: nat)
    requires Linked(k, y) && t < |y.actor.threads| && y.actor.threads[t].Draining? && y.ring.consumer.Ready?
    requires y.actor.threads[t].executed >= y.actor.threads[t].limit || !Poppable(y.actor.box)
    ensures Step(k, y, DrainOp(t)).actor == A.Apply(k, y.actor, A.EndDrain(t))
  {
    hide SlotsOk, ProducerOk, ConsumerOk, HistoryOk, A.Inv, BoxOf, Index, ConsumerStep;
    PopKeeps(y.ring);
    PoppableRefines(y.ring);
  }

  // Inside a pop the front is published and the count below the limit.
  lemma InsideIsPoppable<T>(k: A.Limits, y: System<T>, t: nat)
    requires Linked(k, y) && t < |y.actor.threads| && y.actor.threads[t].Draining?
    requires y.ring.consumer.Seen? || y.ring.consumer.Taken?
    ensures y.actor.threads[t].executed < y.actor.threads[t].limit && Poppable(y.actor.box)
  {
    InsidePop(k, y, t);
    hide SlotsOk, ProducerOk, HistoryOk, A.Inv, Index;
    assert BoxOf(y.ring)[0] == CellAt(y.ring, Front(y.ring) + 0);
  }

  lemma EndRuns<T>(k: A.Limits, y: System<T>, t: nat) returns (acts: seq<Act<T>>)
    requires Linked(k, y) && t < |y.actor.threads| && y.actor.threads[t].Draining?
    requires y.actor.threads[t].executed >= y.actor.threads[t].limit || !Poppable(y.actor.box)
    ensures Realizes(k, y, acts, A.Apply(k, y.actor, A.EndDrain(t)))
  {
    hide Linked, Step, A.Apply, Poppable;
    var x := DrainOp(t);
    if y.ring.consumer.Ready? {
      One(k, y, x);
      DrainEnds(k, y, t);
      acts := [x];
    } else {
      if !y.ring.consumer.Released? {
        InsideIsPoppable(k, y, t);
      }
      PopSilent(k, y, t);
      var y' := Step(k, y, x);
      One(k, y', x);
      DrainEnds(k, y', t);
      Then(k, y, x, [x], A.Apply(k, y.actor, A.EndDrain(t)));
      acts := [x] + [x];
    }
  }

  // ---- any event, any run ------------------------------------------------------------------

  // The protocol's own operations are one each.
  lemma ProtocolRuns<T>(k: A.Limits, y: System<T>, e: A.Event<T>) returns (acts: seq<Act<T>>)
    requires Linked(k, y) && e.t < |y.actor.threads|
    requires ProtocolEvent(y.actor.threads[e.t], e.t) == Some(e) || e.Start?
    ensures Realizes(k, y, acts, A.Apply(k, y.actor, e))
  {
    hide Linked, A.Apply;
    var x := if e.Start? then Act.Begin(e.t) else Protocol(e.t);
    One(k, y, x);
    ProtocolStep(k, y, e);
    acts := [x];
  }

  lemma ProtocolStep<T>(k: A.Limits, y: System<T>, e: A.Event<T>)
    requires Linked(k, y) && e.t < |y.actor.threads|
    requires ProtocolEvent(y.actor.threads[e.t], e.t) == Some(e) || e.Start?
    ensures Step(k, y, if e.Start? then Act.Begin(e.t) else Protocol(e.t)).actor == A.Apply(k, y.actor, e)
  {
    hide Linked, A.Apply;
  }

  lemma IsProtocol<T>(k: A.Limits, a: A.Actor<T>, e: A.Event<T>)
    requires A.Apply(k, a, e) != a && !e.EnterPush? && !e.TryPush? && !e.GiveUp? && !e.PublishCell?
    requires !e.Pop? && !e.EndDrain?
    ensures e.t < |a.threads| && (ProtocolEvent(a.threads[e.t], e.t) == Some(e) || e.Start?)
  {
    hide A.Step;
  }

  lemma EventRuns<T>(k: A.Limits, y: System<T>, e: A.Event<T>) returns (acts: seq<Act<T>>)
    requires Linked(k, y) && !e.EnterPush?
    ensures Realizes(k, y, acts, A.Apply(k, y.actor, e))
  {
    hide Linked;
    if A.Apply(k, y.actor, e) == y.actor {
      Nothing(k, y);
      acts := [];
    } else {
      match e
      case TryPush(t) => acts := PushRuns(k, y, t);
      case GiveUp(t) => acts := GiveUpRuns(k, y, t);
      case PublishCell(t, i) => acts := PublishRuns(k, y, t, i);
      case Pop(t) => acts := PopRuns(k, y, t);
      case EndDrain(t) => acts := EndRuns(k, y, t);
      case _ =>
        IsProtocol(k, y.actor, e);
        acts := ProtocolRuns(k, y, e);
    }
  }

  lemma {:induction false} RunRuns<T>(k: A.Limits, y: System<T>, es: seq<A.Event<T>>) returns (acts: seq<Act<T>>)
    requires Linked(k, y) && A.Inv(y.actor) && forall e | e in es :: !e.EnterPush?
    ensures Realizes(k, y, acts, A.Exec(k, y.actor, es))
    decreases |es|
  {
    hide Linked, A.Inv, A.Apply;
    if es == [] {
      Nothing(k, y);
      acts := [];
    } else {
      assert es[0] in es;
      var first := EventRuns(k, y, es[0]);
      A.StepInv(k, y.actor, es[0]);
      var rest := RunRuns(k, MailboxActor.Exec(k, y, first), es[1..]);
      Both(k, y, first, rest, A.Exec(k, y.actor, es));
      acts := first + rest;
    }
  }

  lemma ActorInv<T>(k: A.Limits, y: System<T>)
    requires Linked(k, y)
    ensures A.Inv(y.actor) && k.capacity > 0
  {
    hide A.Inv, SlotsOk, ProducerOk, ConsumerOk, HistoryOk;
  }

  // At rest the ring is empty, and everything ever claimed in it was delivered.
  ghost predicate Drained<T>(y: System<T>) {
    && P.AtRest(y.actor) && y.ring.consumer.Ready?
    && y.ring.dequeue == y.ring.enqueue == |y.ring.log| == |y.actor.delivered|
    && forall i | 0 <= i < |y.ring.log| :: y.actor.delivered[i] == y.ring.log[i].1
  }

  lemma RestIsDrained<T>(k: A.Limits, y: System<T>)
    requires Linked(k, y) && P.AtRest(y.actor)
    ensures Drained(y)
  {
    hide SlotsOk, ProducerOk, HistoryOk, A.Inv, Matches, Index;
    A.QuietIsEmpty(y.actor);
    AcceptedIsLog(k, y);
    assert forall t | 0 <= t < |y.actor.threads| :: !Drains(y.ring, y.actor.threads[t]);
  }

  // From every state the ring and the protocol reach together, unless every
  // thread is inside a push on a full mailbox, the threads can finish what they
  // are at: no push is begun and none given up, and the ring ends drained.
  lemma RingCanFinish<T>(k: A.Limits, y: System<T>) returns (acts: seq<Act<T>>, es: seq<A.Event<T>>)
    requires Linked(k, y) && k.maxPerActivation > 0 && |y.actor.threads| > 0 && !P.Jammed(k, y.actor)
    ensures (forall x | x in acts :: !x.Enter?) && Drained(MailboxActor.Exec(k, y, acts))
    ensures A.Inv(y.actor) && P.Finishing(es)
            && MailboxActor.Exec(k, y, acts).actor == A.Exec(k, y.actor, es)
  {
    hide Linked, A.Inv, P.AtRest, P.Jammed, Drained;
    ActorInv(k, y);
    es := P.CanFinish(k, y.actor);
    acts := RunRuns(k, y, es);
    RestIsDrained(k, MailboxActor.Exec(k, y, acts));
  }

  // From every state, once a jammed push is given up.
  lemma RingCanDeliver<T>(k: A.Limits, y: System<T>) returns (acts: seq<Act<T>>)
    requires Linked(k, y) && k.maxPerActivation > 0 && |y.actor.threads| > 0
    ensures (forall x | x in acts :: !x.Enter?) && Drained(MailboxActor.Exec(k, y, acts))
  {
    hide Linked, A.Inv, P.AtRest, P.Jammed, Drained;
    ActorInv(k, y);
    var es := P.CanDeliver(k, y.actor);
    acts := RunRuns(k, y, es);
    RestIsDrained(k, MailboxActor.Exec(k, y, acts));
  }
}
