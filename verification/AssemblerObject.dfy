module AssemblerObject {
  // The objects of the receive path: the shared multishot state with its handler
  // and awaiter, and the assembler.  Each method, run with no other thread, is one
  // or more steps of the connection described in BufferRing; between methods no
  // return is under way.

  import opened Prelude
  import opened Bits
  import opened BufferRing

  class RecvMultishotState {
    var queue: seq<Chunk>
    var waiter: bool       // a coroutine handle is stored
    var stopped: bool
    var abandoned: bool
    var ownerCb: bool      // owner_cb is not null
    var hasBg: bool        // bg is not null

    constructor ()
      ensures queue == [] && !waiter && !stopped && !abandoned && !ownerCb && !hasBg
    {
      queue, waiter, stopped, abandoned, ownerCb, hasBg := [], false, false, false, false, false;
    }

    method AwaitReady() returns (ready: bool)
      ensures ready <==> queue != [] || stopped
    {
      ready := queue != [] || stopped;
    }

    // Oldest first; end of stream once nothing is queued.
    method AwaitResume() returns (c: Chunk)
      modifies `queue
      ensures old(queue) == [] ==> c == Chunk(0, 0) && queue == []
      ensures old(queue) != [] ==> c == old(queue)[0] && queue == old(queue)[1..]
    {
      if queue == [] {
        return Chunk(0, 0);
      }
      c := queue[0];
      queue := queue[1..];
    }
  }

  class BufferRingAssembler {
    const state: RecvMultishotState
    const bg: BufferGroup
    var hasCb: bool
    var hasBg: bool
    var started: bool
    var pending: seq<nat>
    var reasm: Bytes

    // The kernel's side, the consumer's hand, and history.
    ghost var posted: seq<Chunk>
    ghost var armed: bool
    ghost var hand: seq<Chunk>
    ghost var received: Bytes
    ghost var consumed: Bytes
    ghost var disposed: nat
    ghost var lateEnd: bool
    ghost var lost: seq<nat>
    ghost var reader: Reader
    ghost var others: multiset<nat>    // buffers with the group's other connections

    ghost function Standing(): Status
      reads this, state
    {
      Status(armed, started, hasCb, hasBg, reader, state.waiter, state.stopped, state.abandoned, state.hasBg,
             state.ownerCb, if state.abandoned then Gone else Using, false, disposed, lateEnd, false)
    }

    ghost function Now(): View
      requires bg.Valid()
      reads this, state, bg, bg.slots
    {
      View(Pow2(bg.bits), bg.bufSize, bg.Ring(), bg.memory, posted, state.queue, hand, pending, [], lost, reasm,
           received, consumed, Standing(), others)
    }

    ghost predicate Valid()
      reads this, state, bg, bg.slots
    {
      bg.Valid() && Inv(Now())
    }

    constructor (bg: BufferGroup, ghost others: multiset<nat>)
      requires bg.Valid() && multiset(bg.Ring()) + others == multiset(Upto(Pow2(bg.bits)))
      ensures Valid() && this.bg == bg && fresh(state)
      ensures Now() == Init(Pow2(bg.bits), bg.bufSize, bg.Ring(), bg.memory, others)
    {
      hide Inv, InSlots, Bids, Payload, BufferGroup.Ring;
      this.bg, this.others, reader := bg, others, Running;
      state := new RecvMultishotState();
      hasCb, hasBg, started, pending, reasm := false, false, false, [], [];
      posted, armed, hand, lost := [], false, [], [];
      received, consumed, disposed, lateEnd := [], [], 0, false;
      new;
      InitInv(Pow2(bg.bits), bg.bufSize, bg.Ring(), bg.memory, others);
    }

    method StartRecv(accepted: bool)
      requires Valid() && Takes(Now(), Marks(Start(accepted)))
      modifies this`hasBg, this`hasCb, this`started, this`armed, state`hasBg, state`ownerCb
      ensures Valid() && Now() == Step(old(Now()), Marks(Start(accepted)))
    {
      hide Inv, InSlots, Bids, Payload, BufferGroup.Valid, BufferGroup.Ring;
      StepInv(Now(), Marks(Start(accepted)));
      Arm(accepted);
    }

    method Arm(accepted: bool)
      modifies this`hasBg, this`hasCb, this`started, this`armed, state`hasBg, state`ownerCb
      ensures forall ready :: Standing() == MarkStatus(old(Standing()), ready, Start(accepted))
    {
      hasBg := true;
      state.hasBg := true;
      hasCb := accepted;
      if accepted {
        state.ownerCb := true;
      }
      started, armed := accepted, accepted;
    }

    // The handler while someone still owns the state: queue the chunk and wake
    // the waiter.
    method Deliver(c: Chunk) returns (toResume: bool)
      requires bg.Valid() && posted != [] && c == posted[0] && !state.abandoned
      modifies this`posted, this`reader, state`queue, state`stopped, state`waiter
      ensures bg.Valid() && Now() == StepHandle(old(Now()))
      ensures toResume == old(state.waiter)
    {
      hide Inv, InSlots, Bids, Payload, BufferGroup.Valid, BufferGroup.Ring, HandleStatus, Terminal;
      posted := posted[1..];
      state.queue := state.queue + [c];
      toResume := Wake(Terminal(c));
    }

    method Wake(end: bool) returns (toResume: bool)
      requires !state.abandoned
      modifies this`reader, state`stopped, state`waiter
      ensures Standing() == HandleStatus(old(Standing()), end) && toResume == old(state.waiter)
    {
      if end {
        state.stopped := true;
      }
      toResume := state.waiter;
      reader := if toResume then Resuming else reader;
      state.waiter := false;
    }

    // The terminal completion disposes of the callback, once.
    method EndCallback(end: bool)
      requires state.abandoned
      modifies this`disposed, this`lateEnd, state`ownerCb
      ensures Standing() == LateStatus(old(Standing()), end)
    {
      if end {
        if state.ownerCb {
          disposed := disposed + 1;
        }
        state.ownerCb := false;
        lateEnd := true;
      }
    }

    // A completion's buffer, if it has one, goes back to the ring, if the state
    // knows which.
    method GiveBack(c: Chunk)
      requires bg.Valid() && bg.tail + |Bids([c])| <= bg.head + bg.slots.Length
      modifies this`lost, bg`tail, bg.slots
      ensures bg.Valid()
      ensures bg.Ring() == if state.hasBg then old(bg.Ring()) + Bids([c]) else old(bg.Ring())
      ensures lost == if state.hasBg then old(lost) else old(lost) + Bids([c])
    {
      hide InSlots, Bids;
      BidsOne(c);
      assert bg.Ring() + [] == bg.Ring() && lost + [] == lost;
      if state.hasBg && c.res > 0 {
        bg.ReturnAll([BufferId(c)]);
      }
      lost := if state.hasBg then lost else lost + Bids([c]);
    }

    // The handler after cleanup: the buffer goes straight back, and the terminal
    // completion disposes of the callback.
    method Reclaim(c: Chunk) returns (dispose: bool)
      requires bg.Valid() && posted != [] && c == posted[0] && state.abandoned
      requires bg.tail + |Bids([c])| <= bg.head + bg.slots.Length
      modifies this`posted, this`lost, this`disposed, this`lateEnd, state`ownerCb, bg`tail, bg.slots
      ensures bg.Valid() && Now() == HandledAlone(old(Now()))
      ensures dispose <==> Terminal(c)
    {
      hide Inv, InSlots, Bids, Payload, BufferGroup.Valid, BufferGroup.Ring, Terminal, LateStatus;
      posted := posted[1..];
      dispose := Terminal(c);
      GiveBack(c);
      EndCallback(dispose);
    }

    // on_recv_chunk_handler
    method OnRecvChunk(c: Chunk) returns (toResume: bool, dispose: bool)
      requires Valid() && posted != [] && c == posted[0]
      modifies this, state, bg`tail, bg.slots
      ensures Valid() && Now() == HandledAlone(old(Now()))
      ensures toResume == (!old(state.abandoned) && old(state.waiter))
      ensures dispose <==> old(state.abandoned) && Terminal(c)
    {
      hide Inv, InSlots, Bids, Payload;
      HandledIs(Now());
      RoomFor(Now());
      BidsPop(posted);
      toResume, dispose := false, false;
      if state.abandoned {
        dispose := Reclaim(c);
      } else {
        toResume := Deliver(c);
      }
    }

    // await_ready: whether to go on without suspending.
    method AwaitReady() returns (ready: bool)
      requires Valid() && Takes(Now(), Marks(Ask))
      modifies this`reader
      ensures Valid() && Now() == Step(old(Now()), Marks(Ask))
      ensures ready <==> reader.Resuming?
    {
      hide Inv, InSlots, Bids, Payload, StepMove;
      StepInv(Now(), Marks(Ask));
      ready := state.AwaitReady();
      reader := if ready then Resuming else Asking;
    }

    // await_suspend: the second look under the lock.
    method AwaitSuspend() returns (resumeNow: bool)
      requires Valid() && Takes(Now(), Marks(Suspend))
      modifies this`reader, state
      ensures Valid() && Now() == Step(old(Now()), Marks(Suspend))
      ensures resumeNow <==> state.queue != [] || state.stopped
    {
      hide Inv, InSlots, Bids, Payload;
      StepInv(Now(), Marks(Suspend));
      resumeNow := state.queue != [] || state.stopped;
      reader := if resumeNow then Resuming else Sleeping;
      if !resumeNow {
        state.waiter := true;
      }
    }

    // await_resume: the oldest chunk, or the end, and then nothing is to come.
    method NextChunk() returns (c: Chunk)
      requires Valid() && Takes(Now(), Take)
      modifies this`reader, this`hand, state`queue
      ensures Valid() && Now() == StepTake(old(Now()))
      ensures c == if old(state.queue) == [] then Chunk(0, 0) else old(state.queue)[0]
      ensures old(state.queue) == [] ==> state.stopped && !armed && posted == []
    {
      hide Inv, InSlots, Bids, Payload, StepTake, BufferGroup.Valid, BufferGroup.Ring;
      TakeInv(Now());
      TakeIs(Now());
      if state.queue == [] {
        TakesAll(Now());
      }
      reader := Running;
      if state.queue != [] {
        hand := hand + [state.queue[0]];
      }
      c := state.AwaitResume();
    }

    // What a chunk adds: its bytes and its buffer, if it carries any.
    method CopyOut(c: Chunk) returns (bytes: Bytes, bids: seq<nat>)
      requires Valid() && hand != [] && c == hand[0]
      ensures bytes == BytesOf(bg.memory, c) && bids == Bids([c])
    {
      hide Inv, InSlots, Bids, Payload;
      BidsOne(c);
      if c.res <= 0 {
        return [], [];
      }
      HandFits(Now());
      var bid := c.flags / 0x1_0000;
      return bg.memory[bid][..c.res], [bid];
    }

    method AppendChunk(c: Chunk)
      requires Valid() && Takes(Now(), Moves(Append)) && c == hand[0]
      modifies this
      ensures Valid() && Now() == StepAppend(old(Now()))
    {
      hide Inv, InSlots, Bids, Payload, BytesOf, BufferGroup.Valid, BufferGroup.Ring;
      StepInv(Now(), Moves(Append));
      var bytes, bids := CopyOut(c);
      hand := hand[1..];
      reasm, pending := reasm + bytes, pending + bids;
    }

    method ConsumeBytes(n: nat)
      requires Valid() && !state.abandoned
      modifies this
      ensures Valid() && Now() == StepConsume(old(Now()), n)
    {
      hide Inv, InSlots, Bids, Payload;
      StepInv(Now(), Moves(Consume(n)));
      consumed := consumed + reasm[..Min(n, |reasm|)];
      assert reasm[|reasm|..] == [];
      if n >= |reasm| {
        reasm := [];
      } else {
        reasm := reasm[n..];
      }
    }

    method ReturnReasmBuffers()
      requires Valid() && !state.abandoned
      modifies this`pending, bg`tail, bg.slots
      ensures Valid() && Now() == ReturnedAlone(old(Now()))
    {
      hide Inv, InSlots, Bids, Payload, BufferGroup.Valid, BufferGroup.Ring;
      ReturnedInv(Now());
      RoomFor(Now());
      bg.RingSize();
      bg.ReturnAll(pending);
      pending := [];
    }

    // The queue is emptied under the lock, one buffer at a time.
    method DrainQueue()
      requires bg.Valid() && (hasBg || state.queue == [])
      requires bg.tail + |Bids(state.queue)| <= bg.head + bg.slots.Length
      modifies state`queue, bg`tail, bg.slots
      ensures bg.Valid() && state.queue == [] && bg.Ring() == old(bg.Ring()) + Bids(old(state.queue))
    {
      hide InSlots, Bids;
      ghost var given: seq<nat> := [];
      ghost var ring := bg.Ring();
      assert ring + [] == ring && [] + Bids(state.queue) == Bids(state.queue);
      while state.queue != []
        invariant bg.Valid() && bg.Ring() == ring + given && given + Bids(state.queue) == Bids(old(state.queue))
        invariant bg.tail + |Bids(state.queue)| <= bg.head + bg.slots.Length
        decreases |state.queue|
      {
        var c := state.queue[0];
        BidsPop(state.queue);
        BidsOne(c);
        assert given + [] == given;
        Assoc(given, Bids([c]), Bids(state.queue[1..]));
        Assoc(ring, given, Bids([c]));
        state.queue := state.queue[1..];
        if c.res > 0 && hasBg {
          bg.ReturnAll([BufferId(c)]);
          given := given + [BufferId(c)];
        }
      }
      BidsNone();
      assert given + [] == given;
    }

    // No more resuming: the handler frees the callback at the terminal completion.
    method Abandon()
      modifies this`hasCb, this`started, this`hasBg, state`abandoned, state`waiter, state`hasBg, state`ownerCb
      ensures Standing() == CleanStatus(old(Standing()))
    {
      state.abandoned := true;
      state.waiter := false;
      state.hasBg := hasBg;
      if hasCb {
        state.ownerCb := true;
      }
      hasCb, started, hasBg := false, false, false;
    }

    // All the buffers the assembler and the queue hold.
    method ReturnHeld()
      requires Valid() && (hasBg || state.queue == [])
      modifies this`pending, state`queue, bg`tail, bg.slots
      ensures bg.Valid()
      ensures var v := old(Now()); Now() == v.(ring := v.ring + v.pending + Bids(v.queue), pending := [], queue := [])
    {
      hide Inv, InSlots, Bids, Payload;
      RoomFor(Now());
      bg.ReturnAll(pending);
      pending := [];
      DrainQueue();
    }

    // cleanup: also of an assembler never started, and a second time.
    method CleanupAll()
      requires Valid() && hand == []
      modifies this`pending, this`hasCb, this`started, this`hasBg, state, bg`tail, bg.slots
      ensures Valid() && Now() == CleanedAlone(old(Now()))
    {
      hide Inv, InSlots, Bids, Payload, CleanStatus, BufferGroup.Valid, BufferGroup.Ring;
      ghost var v := Now();
      CleanedInv(v);
      RoomFor(v);
      ReturnHeld();
      Abandon();
    }
  }

  // ---- the methods as runs of the machine --------------------------------------------------

  // The handler with no other thread.
  function HandledAlone(v: View): View
    requires v.posted != []
  {
    var c, rest := v.posted[0], v.posted[1..];
    if !v.st.abandoned then StepHandle(v)
    else
      v.(posted := rest, ring := if v.st.stateBg then v.ring + Bids([c]) else v.ring,
         lost := if v.st.stateBg then v.lost else v.lost + Bids([c]), st := LateStatus(v.st, Terminal(c)))
  }

  function LateStatus(t: Status, end: bool): Status {
    t.(disposed := t.disposed + (if end && t.ownerCb then 1 else 0), ownerCb := t.ownerCb && !end,
       lateEnd := t.lateEnd || end)
  }

  // No return is under way and nothing is left for the handler to do.
  predicate Idle(v: View) {
    v.giving == [] && !v.st.disposing && (v.st.phase.Using? || v.st.phase.Gone?)
  }

  lemma HandledIs(v: View)
    requires Inv(v) && Idle(v) && v.posted != []
    ensures HandledAlone(v) == Apply(Apply(Apply(v, Handle), Moves(Publish)), Marks(Dispose))
    ensures Inv(HandledAlone(v))
  {
    hide Inv, Bids, Terminal, HandleStatus, LateStatus, Step, Takes;
    var w := Apply(v, Handle);
    StepInv(v, Handle);
    StepInv(w, Moves(Publish));
    StepInv(Apply(w, Moves(Publish)), Marks(Dispose));
    HandleAlone(v);
    HandledStatus(v.st, Terminal(v.posted[0]));
    PublishAlone(w);
    DisposeAlone(w.(ring := w.ring + w.giving, giving := []));
    assert v.ring + [] == v.ring;
  }

  lemma HandleAlone(v: View)
    requires Idle(v) && v.posted != []
    ensures Apply(v, Handle) == StepHandle(v)
    ensures StepHandle(v).giving == if v.st.abandoned && v.st.stateBg then Bids([v.posted[0]]) else []
  {
    hide Bids, Terminal, HandleStatus;
    assert [] + Bids([v.posted[0]]) == Bids([v.posted[0]]);
  }

  lemma PublishAlone(w: View)
    ensures Apply(w, Moves(Publish)) == w.(ring := w.ring + w.giving, giving := [])
  {
    assert w.ring + [] == w.ring;
  }

  lemma DisposeAlone(w: View)
    requires w.giving == []
    ensures Apply(w, Marks(Dispose))
            == w.(st := w.st.(disposing := false, disposed := w.st.disposed + if w.st.disposing then 1 else 0))
  {
  }

  lemma HandledStatus(t: Status, end: bool)
    requires !t.disposing
    ensures var u := HandleStatus(t, end);
            u.(disposing := false, disposed := u.disposed + if u.disposing then 1 else 0)
            == if t.abandoned then LateStatus(t, end) else u
  {
  }

  // return_reasm_buffers with no other thread.
  function ReturnedAlone(v: View): View {
    v.(ring := v.ring + v.pending, pending := [])
  }

  lemma ReturnedIs(v: View)
    requires Inv(v) && Idle(v) && v.st.phase.Using?
    ensures ReturnedAlone(v) == Apply(Apply(v, Moves(GivePending)), Moves(Publish))
    ensures Inv(ReturnedAlone(v))
  {
    hide Inv;
    StepInv(v, Moves(GivePending));
    StepInv(Apply(v, Moves(GivePending)), Moves(Publish));
    assert v.ring + [] == v.ring;
  }

  lemma ReturnedInv(v: View)
    requires Inv(v) && Idle(v) && v.st.phase.Using?
    ensures Inv(ReturnedAlone(v))
  {
    hide Inv, ReturnedAlone, Apply;
    ReturnedIs(v);
  }

  // cleanup with no other thread.
  function CleanedAlone(v: View): View {
    v.(ring := v.ring + v.pending + Bids(v.queue), pending := [], queue := [], st := CleanStatus(v.st))
  }

  function CleanStatus(t: Status): Status {
    t.(waiter := false, abandoned := true, stateBg := t.hasBg, ownerCb := t.ownerCb || t.hasCb,
       hasCb := false, started := false, hasBg := false, phase := Gone)
  }

  function Drains(k: nat): seq<Event> {
    if k == 0 then [] else [Drain, Moves(Publish)] + Drains(k - 1)
  }

  function CleanupSteps(v: View): seq<Event> {
    if v.st.phase.Gone? then [Marks(Again)]
    else
      [Moves(GivePending), Moves(Publish), Marks(Lock)] + Drains(|v.queue|) + [Marks(Abandon), Marks(Detach)]
  }

  lemma {:induction false} DrainsIs(v: View)
    requires Inv(v) && v.st.phase.Draining? && v.giving == []
    ensures Exec(v, Drains(|v.queue|)) == v.(ring := v.ring + Bids(v.queue), queue := [])
    decreases |v.queue|
  {
    hide Inv, Bids;
    if v.queue == [] {
      BidsNone();
      assert v.ring + [] == v.ring;
    } else {
      var c, es := v.queue[0], Drains(|v.queue|);
      DrainIs(v);
      Exec1(v, es);
      Exec1(Apply(v, Drain), es[1..]);
      assert es[1..][1..] == Drains(|v.queue| - 1);
      DrainsIs(Drained(v));
      BidsPop(v.queue);
      Assoc(v.ring, Bids([c]), Bids(v.queue[1..]));
    }
  }

  function Drained(v: View): View
    requires v.queue != []
  {
    v.(ring := v.ring + Bids([v.queue[0]]), queue := v.queue[1..])
  }

  lemma DrainIs(v: View)
    requires v.queue != [] && v.st.phase.Draining? && v.giving == []
    ensures Apply(Apply(v, Drain), Moves(Publish)) == Drained(v)
  {
    hide Bids;
    assert [] + Bids([v.queue[0]]) == Bids([v.queue[0]]) && v.ring + [] == v.ring;
  }

  lemma CleanedIs(v: View)
    requires Inv(v) && Idle(v) && v.hand == []
    ensures CleanedAlone(v) == Exec(v, CleanupSteps(v)) && Inv(CleanedAlone(v))
  {
    hide Inv, Bids, CleanStatus, Drains;
    if v.st.phase.Gone? {
      GoneStays(v);
      Exec1(v, [Marks(Again)]);
    } else {
      var d := v.(ring := v.ring + v.pending, pending := [], st := v.st.(phase := Draining));
      var tail := Drains(|v.queue|) + [Marks(Abandon), Marks(Detach)];
      Locked(v, tail);
      assert CleanupSteps(v) == [Moves(GivePending), Moves(Publish), Marks(Lock)] + tail;
      DrainsIs(d);
      ExecAppend(d, Drains(|v.queue|), [Marks(Abandon), Marks(Detach)]);
      Unlock(v, d.(ring := d.ring + Bids(v.queue), queue := []));
    }
  }

  lemma CleanedInv(v: View)
    requires Inv(v) && Idle(v) && v.hand == []
    ensures Inv(CleanedAlone(v))
  {
    hide Inv, Exec, CleanedAlone, CleanupSteps;
    CleanedIs(v);
  }

  lemma GoneStays(v: View)
    requires Inv(v) && v.st.phase.Gone?
    ensures CleanedAlone(v) == Apply(v, Marks(Again))
  {
    hide Owned, Fitting, Intact, EndsOnce;
    BidsNone();
    assert v.ring + [] + [] == v.ring;
  }

  lemma Locked(v: View, tail: seq<Event>)
    requires Inv(v) && Idle(v) && v.hand == [] && v.st.phase.Using?
    ensures var d := v.(ring := v.ring + v.pending, pending := [], st := v.st.(phase := Draining));
            Inv(d) && Exec(v, [Moves(GivePending), Moves(Publish), Marks(Lock)] + tail) == Exec(d, tail)
  {
    hide Inv;
    var es := [Moves(GivePending), Moves(Publish), Marks(Lock)] + tail;
    Exec1(v, es);
    var w := Apply(v, Moves(GivePending));
    Exec1(w, es[1..]);
    ReturnedIs(v);
    Exec1(ReturnedAlone(v), es[1..][1..]);
    assert es[1..][1..][1..] == tail;
  }

  lemma Unlock(v: View, d: View)
    requires Inv(v) && Inv(d) && Idle(v) && v.st.phase.Using? && d.queue == [] && d.giving == []
    requires d.st == v.st.(phase := Draining)
    ensures Exec(d, [Marks(Abandon), Marks(Detach)]) == d.(st := CleanStatus(v.st))
  {
    hide Inv, MarkStatus, CleanStatus;
    var es := [Marks(Abandon), Marks(Detach)];
    Exec1(d, es);
    NotYetDisposed(v);
    Exec1(Apply(d, Marks(Abandon)), es[1..]);
    UnlockStatus(v.st);
  }

  lemma UnlockStatus(t: Status)
    requires t.disposed == 0 && !t.lateUse
    ensures var u := MarkStatus(t.(phase := Draining), t.stopped, Abandon);
            u.phase.Unlocked? && u.stopped == t.stopped && MarkStatus(u, t.stopped, Detach) == CleanStatus(t)
  {
  }

  lemma NotYetDisposed(v: View)
    requires Inv(v) && v.st.phase.Using?
    ensures v.st.disposed == 0 && !v.st.lateUse
  {
    hide Owned, Fitting, Intact, EndsOnce, Unstarted;
  }

  lemma TakeInv(v: View)
    requires Inv(v) && Takes(v, Take)
    ensures Inv(StepTake(v))
  {
    hide Inv, StepTake;
    StepInv(v, Take);
  }

  // A reader about to take finds a chunk, or the stream has ended.
  lemma TakesAll(v: View)
    requires Inv(v) && v.st.phase.Using? && v.st.reader.Resuming? && v.queue == []
    ensures v.st.stopped && !v.st.armed && v.posted == []
  {
  }

  // A chunk in hand that carries bytes refers to a whole part of its buffer.
  lemma HandFits(v: View)
    requires Inv(v) && v.hand != [] && v.hand[0].res > 0
    ensures BufferId(v.hand[0]) < |v.memory| && v.hand[0].res <= |v.memory[BufferId(v.hand[0])]|
  {
    assert v.hand == [v.hand[0]] + v.hand[1..];
    BidsAppend([v.hand[0]], v.hand[1..]);
    BidsOne(v.hand[0]);
    assert BufferId(v.hand[0]) in Bids(v.hand);
    PartitionFacts(v.n, v.ring, Bids(v.posted), Bids(v.queue), Away(v), Bids(v.hand), v.others);
  }

  // The ring has room for whatever is not in it.
  lemma RoomFor(v: View)
    requires Inv(v)
    ensures |v.ring| + |Bids(v.posted)| + |Bids(v.queue)| + |v.pending| + |Bids(v.hand)| <= v.n
    ensures !v.st.hasBg ==> v.queue == []
  {
    PartitionFacts(v.n, v.ring, Bids(v.posted), Bids(v.queue), Away(v), Bids(v.hand), v.others);
  }
}
