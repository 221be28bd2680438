module ChannelSystem {
  // Every run of a channel: any number of read and write operations, each one
  // coroutine, moving through ready, suspended, woken and done in any order,
  // with close at any moment.  A woken coroutine holds one ticket: a read or a
  // write reservation that its resume gives back.  An event its operation
  // cannot take changes nothing, so every sequence of events is a run.

  import opened Prelude
  import opened Channel

  datatype Op<T> =
    | Unstarted
    | WriteBlockedOp(v: T)   // await_ready returned false
    | WriteQueued(v: T)      // its handle is in m_writers
    | WriteWoken(v: T)       // popped from m_writers, holds a write ticket
    | Wrote(v: T)            // reported true
    | WriteRefused           // reported false
    | ReadBlockedOp
    | ReadQueued
    | ReadWoken              // popped from m_readers, holds a read ticket
    | Got(v: T)
    | Eof                    // reported nullopt

  // Items carry the number of the operation that wrote them.
  datatype Sys<T> = Sys(
    ch: Chan<(nat, T)>,
    ops: seq<Op<T>>,
    accepted: seq<(nat, T)>,   // history: values stored, in order
    delivered: seq<(nat, T)>)  // history: values taken, in order

  datatype Event<T> =
    | Write(op: nat, v: T)
    | SuspendWrite(op: nat)
    | ResumeWrite(op: nat)
    | WriteNow(op: nat, v: T)
    | Read(op: nat)
    | SuspendRead(op: nat)
    | ResumeRead(op: nat)
    | ReadNow(op: nat)
    | CloseChannel

  function Init<T>(capacity: nat, ops: nat): Sys<T> {
    Sys(Chan(capacity, [], 0, 0, false, [], []), seq(ops, _ => Unstarted), [], [])
  }

  function Wake<T>(p: Op<T>): Op<T> {
    match p
    case ReadQueued => ReadWoken
    case WriteQueued(v) => WriteWoken(v)
    case _ => p
  }

  // The scheduler is handed the waiter that a store or a fetch woke.
  function WakeOne<T>(ops: seq<Op<T>>, h: Option<nat>): seq<Op<T>> {
    if h.Some? && h.value < |ops| then ops[h.value := Wake(ops[h.value])] else ops
  }

  function WakeAll<T>(ops: seq<Op<T>>): (r: seq<Op<T>>)
    ensures |r| == |ops|
  {
    if ops == [] then [] else [Wake(ops[0])] + WakeAll(ops[1..])
  }

  // The effect of one write block on the system.
  function AfterWrite<T>(s: Sys<T>, op: nat, v: T, r: (Chan<(nat, T)>, WriteOutcome), blocked: Op<T>): Sys<T>
    requires op < |s.ops|
  {
    match r.1
    case WriteClosed => s.(ch := r.0, ops := s.ops[op := WriteRefused])
    case WriteBlocked => s.(ch := r.0, ops := s.ops[op := blocked])
    case WriteDone(wake) =>
      s.(ch := r.0, ops := WakeOne(s.ops[op := Wrote(v)], wake), accepted := s.accepted + [(op, v)])
  }

  // The effect of one read block on the system.
  function AfterRead<T>(s: Sys<T>, op: nat, r: (Chan<(nat, T)>, ReadOutcome<(nat, T)>), blocked: Op<T>): Sys<T>
    requires op < |s.ops|
  {
    match r.1
    case ReadEof => s.(ch := r.0, ops := s.ops[op := Eof])
    case ReadBlocked => s.(ch := r.0, ops := s.ops[op := blocked])
    case ReadValue(x, wake) =>
      s.(ch := r.0, ops := WakeOne(s.ops[op := Got(x.1)], wake), delivered := s.delivered + [x])
  }

  predicate Takes<T>(s: Sys<T>, e: Event<T>) {
    if e.CloseChannel? then true
    else
      && e.op < |s.ops|
      && var p := s.ops[e.op];
         match e
         case Write(_, _) => p.Unstarted?
         case SuspendWrite(_) => p.WriteBlockedOp?
         case ResumeWrite(_) => p.WriteWoken? && s.ch.writeReserved > 0
         case WriteNow(_, _) => p.Unstarted?
         case Read(_) => p.Unstarted?
         case SuspendRead(_) => p.ReadBlockedOp?
         case ResumeRead(_) => p.ReadWoken? && s.ch.readReserved > 0
         case ReadNow(_) => p.Unstarted?
         case CloseChannel => true
  }

  function Step<T>(s: Sys<T>, e: Event<T>): Sys<T>
    requires Takes(s, e)
  {
    match e
    case Write(op, v) => AfterWrite(s, op, v, WriteReady(s.ch, (op, v)), WriteBlockedOp(v))
    case SuspendWrite(op) =>
      var v := s.ops[op].v;
      AfterWrite(s, op, v, WriteSuspend(s.ch, op, (op, v)), WriteQueued(v))
    case ResumeWrite(op) =>
      var v := s.ops[op].v;
      AfterWrite(s, op, v, WriteResume(s.ch, (op, v)), WriteRefused)
    case WriteNow(op, v) => AfterWrite(s, op, v, TryWrite(s.ch, (op, v)), WriteRefused)
    case Read(op) => AfterRead(s, op, ReadReady(s.ch), ReadBlockedOp)
    case SuspendRead(op) => AfterRead(s, op, ReadSuspend(s.ch, op), ReadQueued)
    case ResumeRead(op) => AfterRead(s, op, ReadResume(s.ch), ReadWoken)
    case ReadNow(op) => AfterRead(s, op, TryRead(s.ch), Eof)
    case CloseChannel => s.(ch := Close(s.ch), ops := WakeAll(s.ops))
  }

  function Apply<T>(s: Sys<T>, e: Event<T>): Sys<T> {
    if Takes(s, e) then Step(s, e) else s
  }

  // ---- the invariant --------------------------------------------------------

  function WriteTicket<T>(p: Op<T>): nat { if p.WriteWoken? then 1 else 0 }
  function ReadTicket<T>(p: Op<T>): nat { if p.ReadWoken? then 1 else 0 }
  function InWriters<T>(p: Op<T>): nat { if p.WriteQueued? then 1 else 0 }
  function InReaders<T>(p: Op<T>): nat { if p.ReadQueued? then 1 else 0 }
  function HasWritten<T>(p: Op<T>): nat { if p.Wrote? then 1 else 0 }

  // A waiter queue lists each queued operation of its kind once.
  ghost predicate Queue<T>(q: seq<nat>, ops: seq<Op<T>>, waits: Op<T> -> nat) {
    && (forall i | 0 <= i < |q| :: q[i] < |ops| && waits(ops[q[i]]) == 1)
    && (forall i, j | 0 <= i < j < |q| :: q[i] != q[j])
    && |q| == Sum(ops, waits)
  }

  // Each reservation counter equals the number of woken-but-unresumed
  // operations of its kind.
  ghost predicate Tickets<T>(c: Chan<(nat, T)>, ops: seq<Op<T>>) {
    && c.writeReserved == Sum(ops, WriteTicket)
    && c.readReserved == Sum(ops, ReadTicket)
    && Queue(c.writers, ops, InWriters)
    && Queue(c.readers, ops, InReaders)
  }

  // The counters while the channel is open, and what remains once closed.
  ghost predicate Room<T>(c: Chan<T>) {
    && |c.items| <= c.capacity
    && (!c.closed ==>
          && |c.items| + c.writeReserved <= c.capacity
          && c.readReserved <= |c.items|
          && (c.readers != [] ==> |c.items| == c.readReserved)
          && (c.writers != [] ==> |c.items| + c.writeReserved == c.capacity))
    && (c.closed ==> c.readers == [] && c.writers == [])
  }

  // Values come out in the order they went in, none lost and none twice; an
  // operation has a value in the channel's history exactly when it reported true.
  ghost predicate Values<T>(s: Sys<T>) {
    s.accepted == s.delivered + s.ch.items && Reported(s.accepted, s.ops)
  }

  ghost predicate Reported<T>(accepted: seq<(nat, T)>, ops: seq<Op<T>>) {
    && (forall i | 0 <= i < |accepted| :: accepted[i].0 < |ops| && ops[accepted[i].0] == Wrote(accepted[i].1))
    && (forall i, j | 0 <= i < j < |accepted| :: accepted[i].0 != accepted[j].0)
    && |accepted| == Sum(ops, HasWritten)
  }

  ghost predicate Inv<T>(s: Sys<T>) {
    Tickets(s.ch, s.ops) && Room(s.ch) && Values(s)
  }

  lemma InitInv<T>(capacity: nat, ops: nat)
    ensures Inv<T>(Init(capacity, ops))
  {
    var s: Sys<T> := Init(capacity, ops);
    SumZero(s.ops, WriteTicket);
    SumZero(s.ops, ReadTicket);
    SumZero(s.ops, InWriters);
    SumZero(s.ops, InReaders);
    SumZero(s.ops, HasWritten);
  }

  // The five counts after one operation changes phase.
  lemma Moved<T>(ops: seq<Op<T>>, i: nat, p: Op<T>)
    requires i < |ops|
    ensures var r, q := ops[i := p], ops[i];
            && Sum(r, WriteTicket) + WriteTicket(q) == Sum(ops, WriteTicket) + WriteTicket(p)
            && Sum(r, ReadTicket) + ReadTicket(q) == Sum(ops, ReadTicket) + ReadTicket(p)
            && Sum(r, InWriters) + InWriters(q) == Sum(ops, InWriters) + InWriters(p)
            && Sum(r, InReaders) + InReaders(q) == Sum(ops, InReaders) + InReaders(p)
            && Sum(r, HasWritten) + HasWritten(q) == Sum(ops, HasWritten) + HasWritten(p)
  {
    SumUpdate(ops, i, p, WriteTicket);
    SumUpdate(ops, i, p, ReadTicket);
    SumUpdate(ops, i, p, InWriters);
    SumUpdate(ops, i, p, InReaders);
    SumUpdate(ops, i, p, HasWritten);
  }

  // Waking the oldest waiter of a queue keeps the queue and moves one ticket.
  lemma QueueFront<T>(q: seq<nat>, ops: seq<Op<T>>, waits: Op<T> -> nat)
    requires Queue(q, ops, waits) && q != [] && waits(Wake(ops[q[0]])) == 0
    ensures Queue(q[1..], ops[q[0] := Wake(ops[q[0]])], waits)
  {
    SumUpdate(ops, q[0], Wake(ops[q[0]]), waits);
  }

  // An operation that is not waiting may change to another that is not.
  lemma QueueOther<T>(q: seq<nat>, ops: seq<Op<T>>, waits: Op<T> -> nat, i: nat, p: Op<T>)
    requires Queue(q, ops, waits) && i < |ops| && waits(ops[i]) == 0 && waits(p) == 0
    ensures Queue(q, ops[i := p], waits)
  {
    SumUpdate(ops, i, p, waits);
  }

  // An operation joins a queue at its back.
  lemma QueueBack<T>(q: seq<nat>, ops: seq<Op<T>>, waits: Op<T> -> nat, i: nat, p: Op<T>)
    requires Queue(q, ops, waits) && i < |ops| && waits(ops[i]) == 0 && waits(p) == 1
    ensures Queue(q + [i], ops[i := p], waits)
  {
    SumUpdate(ops, i, p, waits);
  }

  // ---- tickets ------------------------------------------------------------------

  // Neither in a waiter queue nor holding a ticket.
  predicate Free<T>(p: Op<T>) {
    WriteTicket(p) + ReadTicket(p) + InWriters(p) + InReaders(p) == 0
  }

  lemma TicketsMove<T>(c: Chan<(nat, T)>, ops: seq<Op<T>>, i: nat, p: Op<T>)
    requires Tickets(c, ops) && i < |ops| && Free(p)
    requires InWriters(ops[i]) + InReaders(ops[i]) == 0
    requires c.writeReserved >= WriteTicket(ops[i]) && c.readReserved >= ReadTicket(ops[i])
    ensures Tickets(c.(writeReserved := c.writeReserved - WriteTicket(ops[i]),
                       readReserved := c.readReserved - ReadTicket(ops[i])), ops[i := p])
  {
    Moved(ops, i, p);
    QueueOther(c.writers, ops, InWriters, i, p);
    QueueOther(c.readers, ops, InReaders, i, p);
  }

  lemma TicketsWakeReader<T>(c: Chan<(nat, T)>, ops: seq<Op<T>>)
    requires Tickets(c, ops)
    ensures Tickets(WakeReader(c).0, WakeOne(ops, WakeReader(c).1))
  {
    if c.readers != [] {
      var h := c.readers[0];
      assert ops[h].ReadQueued?;
      Moved(ops, h, ReadWoken);
      QueueFront(c.readers, ops, InReaders);
      QueueOther(c.writers, ops, InWriters, h, ReadWoken);
    }
  }

  lemma TicketsWakeWriter<T>(c: Chan<(nat, T)>, ops: seq<Op<T>>)
    requires Tickets(c, ops)
    ensures Tickets(WakeWriter(c).0, WakeOne(ops, WakeWriter(c).1))
  {
    if c.writers != [] {
      var h := c.writers[0];
      assert ops[h].WriteQueued?;
      var p := Wake(ops[h]);
      Moved(ops, h, p);
      QueueFront(c.writers, ops, InWriters);
      QueueOther(c.readers, ops, InReaders, h, p);
    }
  }

  lemma {:induction false} WakeAllSums<T>(ops: seq<Op<T>>)
    ensures var r := WakeAll(ops);
            && Sum(r, WriteTicket) == Sum(ops, WriteTicket) + Sum(ops, InWriters)
            && Sum(r, ReadTicket) == Sum(ops, ReadTicket) + Sum(ops, InReaders)
            && Sum(r, InWriters) == 0 && Sum(r, InReaders) == 0
            && Sum(r, HasWritten) == Sum(ops, HasWritten)
    ensures forall i | 0 <= i < |ops| :: WakeAll(ops)[i] == Wake(ops[i])
  {
    if ops != [] {
      WakeAllSums(ops[1..]);
      assert WakeAll(ops)[1..] == WakeAll(ops[1..]);
    }
  }

  // ---- history --------------------------------------------------------------------

  // A change that neither reports true nor takes a report back.
  lemma ReportedMove<T>(accepted: seq<(nat, T)>, ops: seq<Op<T>>, i: nat, p: Op<T>)
    requires Reported(accepted, ops) && i < |ops| && !ops[i].Wrote? && !p.Wrote?
    ensures Reported(accepted, ops[i := p])
  {
    Moved(ops, i, p);
  }

  lemma ReportedWrite<T>(accepted: seq<(nat, T)>, ops: seq<Op<T>>, i: nat, v: T)
    requires Reported(accepted, ops) && i < |ops| && !ops[i].Wrote?
    ensures Reported(accepted + [(i, v)], ops[i := Wrote(v)])
  {
    Moved(ops, i, Wrote(v));
  }

  lemma ReportedWake<T>(accepted: seq<(nat, T)>, ops: seq<Op<T>>, h: Option<nat>)
    requires Reported(accepted, ops)
    ensures Reported(accepted, WakeOne(ops, h))
  {
    if h.Some? && h.value < |ops| {
      Moved(ops, h.value, Wake(ops[h.value]));
    }
  }

  // ---- steps ------------------------------------------------------------------------

  // A write that stores: op leaves its phase, gives back its ticket if it has
  // one, and one reader is woken.
  lemma StoreKeeps<T>(s: Sys<T>, op: nat, v: T)
    requires Inv(s) && op < |s.ops| && !s.ch.closed
    requires s.ops[op].Unstarted? || s.ops[op].WriteBlockedOp? || s.ops[op].WriteWoken?
    requires s.ops[op].WriteWoken? ==> s.ch.writeReserved > 0
    requires !s.ops[op].WriteWoken? ==> |s.ch.items| + s.ch.writeReserved < s.ch.capacity
    ensures var c := s.ch.(writeReserved := s.ch.writeReserved - WriteTicket(s.ops[op]));
            Inv(AfterWrite(s, op, v, Store(c, (op, v)), WriteRefused))
  {
    hide Sum, Queue, Reported, Tickets;
    var c := s.ch.(writeReserved := s.ch.writeReserved - WriteTicket(s.ops[op]));
    TicketsMove(s.ch, s.ops, op, Wrote(v));
    var stored := c.(items := c.items + [(op, v)]);
    var ops := s.ops[op := Wrote(v)];
    TicketsWakeReader(stored, ops);
    ReportedWrite(s.accepted, s.ops, op, v);
    ReportedWake(s.accepted + [(op, v)], ops, WakeReader(stored).1);
    assert s.accepted + [(op, v)] == s.delivered + (s.ch.items + [(op, v)]);
  }

  // A read that fetches: op leaves its phase, gives back its ticket if it has
  // one, and one writer is woken.
  lemma FetchKeeps<T>(s: Sys<T>, op: nat)
    requires Inv(s) && op < |s.ops| && s.ch.items != []
    requires s.ops[op].Unstarted? || s.ops[op].ReadBlockedOp? || s.ops[op].ReadWoken?
    requires s.ops[op].ReadWoken? ==> s.ch.readReserved > 0
    requires !s.ops[op].ReadWoken? ==> |s.ch.items| > s.ch.readReserved
    ensures var c := s.ch.(readReserved := s.ch.readReserved - ReadTicket(s.ops[op]));
            Inv(AfterRead(s, op, Fetch(c), Eof))
  {
    hide Sum, Queue, Reported, Tickets;
    var c := s.ch.(readReserved := s.ch.readReserved - ReadTicket(s.ops[op]));
    var x := s.ch.items[0];
    TicketsMove(s.ch, s.ops, op, Got(x.1));
    var fetched := c.(items := c.items[1..]);
    var ops := s.ops[op := Got(x.1)];
    TicketsWakeWriter(fetched, ops);
    ReportedMove(s.accepted, s.ops, op, Got(x.1));
    ReportedWake(s.accepted, ops, WakeWriter(fetched).1);
    assert s.ch.items == [x] + s.ch.items[1..];
    assert s.delivered + ([x] + s.ch.items[1..]) == (s.delivered + [x]) + s.ch.items[1..];
  }

  // A step that changes only op, giving back its ticket if it has one.
  lemma QuietKeeps<T>(s: Sys<T>, op: nat, p: Op<T>)
    requires Inv(s) && op < |s.ops| && Free(p) && !p.Wrote? && !s.ops[op].Wrote?
    requires InWriters(s.ops[op]) + InReaders(s.ops[op]) == 0
    requires s.ch.writeReserved >= WriteTicket(s.ops[op]) && s.ch.readReserved >= ReadTicket(s.ops[op])
    requires !Free(s.ops[op]) ==> s.ch.closed
    ensures Inv(s.(ch := s.ch.(writeReserved := s.ch.writeReserved - WriteTicket(s.ops[op]),
                               readReserved := s.ch.readReserved - ReadTicket(s.ops[op])),
                   ops := s.ops[op := p]))
  {
    hide Sum, Queue, Reported, Tickets;
    TicketsMove(s.ch, s.ops, op, p);
    ReportedMove(s.accepted, s.ops, op, p);
  }

  lemma QueueWriter<T>(s: Sys<T>, op: nat)
    requires Inv(s) && op < |s.ops| && s.ops[op].WriteBlockedOp? && !s.ch.closed
    requires |s.ch.items| + s.ch.writeReserved >= s.ch.capacity
    ensures Inv(s.(ch := s.ch.(writers := s.ch.writers + [op]), ops := s.ops[op := WriteQueued(s.ops[op].v)]))
  {
    hide Sum, Queue, Reported;
    var p := WriteQueued(s.ops[op].v);
    Moved(s.ops, op, p);
    QueueBack(s.ch.writers, s.ops, InWriters, op, p);
    QueueOther(s.ch.readers, s.ops, InReaders, op, p);
    ReportedMove(s.accepted, s.ops, op, p);
  }

  lemma QueueReader<T>(s: Sys<T>, op: nat)
    requires Inv(s) && op < |s.ops| && s.ops[op].ReadBlockedOp? && !s.ch.closed
    requires |s.ch.items| <= s.ch.readReserved
    ensures Inv(s.(ch := s.ch.(readers := s.ch.readers + [op]), ops := s.ops[op := ReadQueued]))
  {
    hide Sum, Queue, Reported;
    Moved(s.ops, op, ReadQueued);
    QueueBack(s.ch.readers, s.ops, InReaders, op, ReadQueued);
    QueueOther(s.ch.writers, s.ops, InWriters, op, ReadQueued);
    ReportedMove(s.accepted, s.ops, op, ReadQueued);
  }

  lemma StepClose<T>(s: Sys<T>)
    requires Inv(s)
    ensures Inv(Step(s, CloseChannel))
  {
    WakeAllSums(s.ops);
    var s' := Step(s, CloseChannel);
    assert Reported(s'.accepted, s'.ops);
  }

  predicate Reading<T>(e: Event<T>) {
    e.Read? || e.SuspendRead? || e.ResumeRead? || e.ReadNow?
  }

  lemma StepReading<T>(s: Sys<T>, e: Event<T>)
    requires Inv(s) && Takes(s, e) && Reading(e)
    ensures Inv(Step(s, e))
  {
    hide Tickets, Values, Sum, WakeWriter;
    var op := e.op;
    if if e.ResumeRead? then s.ch.items != [] else |s.ch.items| > s.ch.readReserved {
      FetchKeeps(s, op);
    } else if e.SuspendRead? && !s.ch.closed {
      QueueReader(s, op);
    } else if e.SuspendRead? {
      QuietKeeps(s, op, Eof);
    } else {
      QuietKeeps(s, op, Step(s, e).ops[op]);
    }
  }

  lemma StepWriting<T>(s: Sys<T>, e: Event<T>)
    requires Inv(s) && Takes(s, e) && !Reading(e) && !e.CloseChannel?
    ensures Inv(Step(s, e))
  {
    hide Tickets, Values, Sum, WakeReader;
    var op, p := e.op, s.ops[e.op];
    if !s.ch.closed && (e.ResumeWrite? || |s.ch.items| + s.ch.writeReserved < s.ch.capacity) {
      StoreKeeps(s, op, if e.Write? || e.WriteNow? then e.v else p.v);
    } else if e.SuspendWrite? && !s.ch.closed {
      QueueWriter(s, op);
    } else if e.SuspendWrite? {
      QuietKeeps(s, op, WriteRefused);
    } else {
      QuietKeeps(s, op, Step(s, e).ops[op]);
    }
  }

  lemma StepInv<T>(s: Sys<T>, e: Event<T>)
    requires Inv(s)
    ensures Inv(Apply(s, e))
  {
    hide Inv, Step;
    if Takes(s, e) {
      if e.CloseChannel? {
        StepClose(s);
      } else if Reading(e) {
        StepReading(s, e);
      } else {
        StepWriting(s, e);
      }
    }
  }

  ghost function Exec<T>(s: Sys<T>, es: seq<Event<T>>): (s': Sys<T>)
    requires Inv(s)
    ensures Inv(s') && s'.ch.capacity == s.ch.capacity && |s'.ops| == |s.ops|
    ensures s.accepted <= s'.accepted && s.delivered <= s'.delivered
    ensures s.ch.closed ==> s'.ch.closed && s'.accepted == s.accepted
    decreases |es|
  {
    if es == [] then s
    else
      StepInv(s, es[0]);
      StepGrows(s, es[0]);
      Exec(Apply(s, es[0]), es[1..])
  }

  // History only grows, and once the channel is closed nothing is accepted.
  lemma StepGrows<T>(s: Sys<T>, e: Event<T>)
    requires Inv(s)
    ensures var s' := Apply(s, e);
            && s'.ch.capacity == s.ch.capacity && |s'.ops| == |s.ops|
            && s.accepted <= s'.accepted && s.delivered <= s'.delivered
            && (s.ch.closed ==> s'.ch.closed && s'.accepted == s.accepted)
  {
    hide Tickets, Values, Sum, WakeOne, WakeReader, WakeWriter;
    if Takes(s, e) && !e.CloseChannel? {
      if Reading(e) {
        ReadingGrows(s, e);
      } else {
        WritingGrows(s, e);
      }
    }
  }

  lemma WakeOneKeeps<T>(ops: seq<Op<T>>, h: Option<nat>)
    ensures |WakeOne(ops, h)| == |ops|
  {
  }

  lemma ReadingGrows<T>(s: Sys<T>, e: Event<T>)
    requires Takes(s, e) && Reading(e)
    ensures var s' := Step(s, e);
            && s'.ch.capacity == s.ch.capacity && |s'.ops| == |s.ops| && s'.ch.closed == s.ch.closed
            && s'.accepted == s.accepted && s.delivered <= s'.delivered
  {
    hide WakeOne;
    forall ops: seq<Op<T>>, h: Option<nat> ensures |WakeOne(ops, h)| == |ops| {
      WakeOneKeeps(ops, h);
    }
  }

  lemma WritingGrows<T>(s: Sys<T>, e: Event<T>)
    requires Takes(s, e) && !Reading(e) && !e.CloseChannel?
    ensures var s' := Step(s, e);
            && s'.ch.capacity == s.ch.capacity && |s'.ops| == |s.ops| && s'.ch.closed == s.ch.closed
            && s.accepted <= s'.accepted && s'.delivered == s.delivered
            && (s.ch.closed ==> s'.accepted == s.accepted)
  {
    hide WakeOne;
    forall ops: seq<Op<T>>, h: Option<nat> ensures |WakeOne(ops, h)| == |ops| {
      WakeOneKeeps(ops, h);
    }
  }

  // ---- what the channel promises -----------------------------------------------------

  // In every run, before close: the reservations fit, each counts its woken
  // coroutines, and nobody waits while there is something unpromised to take.
  lemma OpenCounters<T>(capacity: nat, ops: nat, es: seq<Event<T>>)
    ensures Inv<T>(Init(capacity, ops))
    ensures var s := Exec(Init(capacity, ops), es);
            && s.ch.readReserved == Sum(s.ops, ReadTicket)
            && s.ch.writeReserved == Sum(s.ops, WriteTicket)
            && (!s.ch.closed ==>
                  && |s.ch.items| + s.ch.writeReserved <= capacity
                  && s.ch.readReserved <= |s.ch.items|
                  && (Sum(s.ops, InReaders) > 0 ==> |s.ch.items| == s.ch.readReserved)
                  && (Sum(s.ops, InWriters) > 0 ==> |s.ch.items| + s.ch.writeReserved == capacity))
  {
    InitInv<T>(capacity, ops);
  }

  // A woken reader always finds data or a closed channel: the branch with
  // neither is unreachable.  A woken operation always holds its ticket.
  lemma WokenMayResume<T>(s: Sys<T>, op: nat)
    requires Inv(s) && op < |s.ops|
    ensures s.ops[op].ReadWoken? ==>
              && Takes(s, ResumeRead(op))
              && (Apply(s, ResumeRead(op)).ops[op].Got? || (s.ch.closed && Apply(s, ResumeRead(op)).ops[op].Eof?))
    ensures s.ops[op].WriteWoken? ==>
              && Takes(s, ResumeWrite(op))
              && (if s.ch.closed then Apply(s, ResumeWrite(op)).ops[op].WriteRefused?
                  else Apply(s, ResumeWrite(op)).ops[op] == Wrote(s.ops[op].v))
              && (!s.ch.closed ==> |s.ch.items| < s.ch.capacity)
  {
    SumAtLeast(s.ops, op, ReadTicket);
    SumAtLeast(s.ops, op, WriteTicket);
    if s.ops[op].WriteWoken? && !s.ch.closed && s.ch.readers != [] {
      assert s.ops[s.ch.readers[0]].ReadQueued?;
    }
    if s.ops[op].ReadWoken? && s.ch.items != [] && s.ch.writers != [] {
      assert s.ops[s.ch.writers[0]].WriteQueued?;
    }
  }

  // Readers and writers wait together only while some woken coroutine is in flight.
  lemma BothSidesWait<T>(s: Sys<T>) returns (op: nat)
    requires Inv(s) && s.ch.capacity > 0 && s.ch.readers != [] && s.ch.writers != []
    ensures op < |s.ops| && (s.ops[op].ReadWoken? || s.ops[op].WriteWoken?)
  {
    if s.ch.readReserved > 0 {
      op := SumWitness(s.ops, ReadTicket);
    } else {
      op := SumWitness(s.ops, WriteTicket);
    }
  }

  // Values delivered, then those buffered, are the values accepted, in order;
  // a write has left its value there exactly when it reported true.
  lemma ValuesConserved<T>(capacity: nat, ops: nat, es: seq<Event<T>>, op: nat)
    requires op < ops
    ensures Inv<T>(Init(capacity, ops))
    ensures var s := Exec(Init(capacity, ops), es);
            && s.accepted == s.delivered + s.ch.items
            && (s.ops[op].Wrote? <==> exists i :: 0 <= i < |s.accepted| && s.accepted[i].0 == op)
            && (s.ops[op].Wrote? ==> (op, s.ops[op].v) in s.accepted)
            && forall i, j | 0 <= i < j < |s.accepted| :: s.accepted[i].0 != s.accepted[j].0
  {
    InitInv<T>(capacity, ops);
    var s := Exec(Init(capacity, ops), es);
    if s.ops[op].Wrote? && forall i | 0 <= i < |s.accepted| :: s.accepted[i].0 != op {
      TooFew(s.accepted, s.ops, op);
    }
  }

  // Distinct writers that reported true are at most as many as the count, and
  // fewer when one of the counted is missing.
  lemma {:induction false} TooFew<T>(accepted: seq<(nat, T)>, ops: seq<Op<T>>, op: nat)
    requires op < |ops| && ops[op].Wrote?
    requires forall i | 0 <= i < |accepted| :: accepted[i].0 < |ops| && accepted[i].0 != op && ops[accepted[i].0].Wrote?
    requires forall i, j | 0 <= i < j < |accepted| :: accepted[i].0 != accepted[j].0
    ensures |accepted| < Sum(ops, HasWritten)
  {
    if accepted == [] {
      SumAtLeast(ops, op, HasWritten);
    } else {
      var last := |accepted| - 1;
      var i := accepted[last].0;
      SumUpdate(ops, i, Unstarted, HasWritten);
      TooFew(accepted[..last], ops[i := Unstarted], op);
    }
  }

  // After close nothing more is accepted, by any continuation of the run.
  lemma NothingAfterClose<T>(capacity: nat, ops: nat, before: seq<Event<T>>, after: seq<Event<T>>)
    ensures Inv<T>(Init(capacity, ops))
    ensures var s := Apply(Exec(Init(capacity, ops), before), CloseChannel);
            Inv(s) && s.ch.closed && Exec(s, after).accepted == Exec(Init<T>(capacity, ops), before).accepted
  {
    hide Inv;
    InitInv<T>(capacity, ops);
    StepInv(Exec(Init(capacity, ops), before), CloseChannel);
  }

  // A read reports the end only on a closed channel whose remaining items are
  // all promised to woken readers; once no ticket is outstanding, only on an
  // empty one.  So closing loses no accepted value.
  lemma EndMeansDrained<T>(s: Sys<T>, e: Event<T>)
    requires Inv(s) && Takes(s, e) && (e.Read? || e.SuspendRead? || e.ResumeRead?)
    requires Step(s, e).ops[e.op].Eof?
    ensures s.ch.closed
    ensures e.ResumeRead? ==> s.ch.items == []
    ensures |s.ch.items| <= Sum(s.ops, ReadTicket)
    ensures (forall i | 0 <= i < |s.ops| :: !s.ops[i].ReadWoken?) ==> s.ch.items == [] && s.delivered == s.accepted
  {
    if forall i | 0 <= i < |s.ops| :: !s.ops[i].ReadWoken? {
      SumZero(s.ops, ReadTicket);
    }
  }

  // ---- which operation ends how -----------------------------------------------------

  // There is room beyond what is promised to woken writers.
  predicate HasRoom<T>(c: Chan<T>) {
    |c.items| + c.writeReserved < c.capacity
  }

  // A waiter that a store or a fetch wakes is another operation.
  lemma WokenIsOther<T>(s: Sys<T>, op: nat)
    requires Inv(s) && op < |s.ops|
    ensures s.ch.readers != [] && !s.ops[op].ReadQueued? ==> s.ch.readers[0] != op
    ensures s.ch.writers != [] && !s.ops[op].WriteQueued? ==> s.ch.writers[0] != op
    ensures forall h | h in s.ch.readers :: h < |s.ops| && s.ops[h].ReadQueued?
    ensures forall h | h in s.ch.writers :: h < |s.ops| && s.ops[h].WriteQueued?
  {
  }

  // A write is refused exactly when the channel is closed, and has stored exactly
  // when there was room; otherwise it waits, last in its queue.  The store wakes
  // the oldest waiting reader, if there is one.
  lemma WriteEnds<T>(s: Sys<T>, e: Event<T>)
    requires Inv(s) && Takes(s, e) && (e.Write? || e.SuspendWrite?)
    ensures var v, s' := if e.Write? then e.v else s.ops[e.op].v, Apply(s, e);
            && |s'.ops| == |s.ops|
            && var p := s'.ops[e.op];
               && (p.WriteRefused? <==> s.ch.closed)
               && (p == Wrote(v) <==> !s.ch.closed && HasRoom(s.ch))
               && (!s.ch.closed && !HasRoom(s.ch) ==>
                     && p == (if e.Write? then WriteBlockedOp(v) else WriteQueued(v))
                     && s'.ch.writers == (if e.Write? then s.ch.writers else s.ch.writers + [e.op]))
               && (p.Wrote? ==> s'.accepted == s.accepted + [(e.op, v)] && WakesReader(s, s'))
               && (!p.Wrote? ==> s'.accepted == s.accepted)
  {
    hide Sum, Values, Room;
    WokenIsOther(s, e.op);
  }

  // try_write stores exactly when there is room on an open channel; a woken
  // writer exactly when the channel is still open.
  lemma OtherWriteEnds<T>(s: Sys<T>, e: Event<T>)
    requires Inv(s) && Takes(s, e) && (e.WriteNow? || e.ResumeWrite?)
    ensures var v, s' := if e.WriteNow? then e.v else s.ops[e.op].v, Apply(s, e);
            var stores := !s.ch.closed && (e.ResumeWrite? || HasRoom(s.ch));
            && |s'.ops| == |s.ops| && s'.ops[e.op] == (if stores then Wrote(v) else WriteRefused)
            && (stores ==> s'.accepted == s.accepted + [(e.op, v)] && WakesReader(s, s'))
            && (!stores ==> s'.accepted == s.accepted)
  {
    hide Sum, Values, Room;
    WokenIsOther(s, e.op);
  }

  // The oldest waiting reader is woken and gets a reservation.
  predicate WakesReader<T>(s: Sys<T>, s': Sys<T>) {
    if s.ch.readers == [] then s'.ch.readers == [] && s'.ch.readReserved == s.ch.readReserved
    else
      && s'.ch.readers == s.ch.readers[1..] && s'.ch.readReserved == s.ch.readReserved + 1
      && s.ch.readers[0] < |s'.ops| && s'.ops[s.ch.readers[0]].ReadWoken?
  }

  // The oldest waiting writer is woken and gets a reservation.
  predicate WakesWriter<T>(s: Sys<T>, s': Sys<T>) {
    if s.ch.writers == [] then s'.ch.writers == [] && s'.ch.writeReserved == s.ch.writeReserved
    else
      && s'.ch.writers == s.ch.writers[1..] && s'.ch.writeReserved == s.ch.writeReserved + 1
      && s.ch.writers[0] < |s'.ops| && s'.ops[s.ch.writers[0]].WriteWoken?
  }

  // A read gets the oldest value exactly when one is not promised to a woken
  // reader, ends exactly when there is none and the channel is closed, and waits
  // otherwise, last in its queue.  The fetch wakes the oldest waiting writer.
  lemma ReadEnds<T>(s: Sys<T>, e: Event<T>)
    requires Inv(s) && Takes(s, e) && (e.Read? || e.SuspendRead?)
    ensures var s' := Apply(s, e);
            && |s'.ops| == |s.ops|
            && var p := s'.ops[e.op];
               && (p.Got? <==> |s.ch.items| > s.ch.readReserved)
               && (p.Eof? <==> |s.ch.items| <= s.ch.readReserved && s.ch.closed)
               && (!p.Got? && !p.Eof? ==>
                     && p == (if e.Read? then ReadBlockedOp else ReadQueued)
                     && s'.ch.readers == (if e.Read? then s.ch.readers else s.ch.readers + [e.op]))
               && (p.Got? ==> TakesOldest(s, s', p) && WakesWriter(s, s'))
               && (!p.Got? ==> s'.delivered == s.delivered)
  {
    hide Sum, Values, Room;
    WokenIsOther(s, e.op);
  }

  ghost predicate TakesOldest<T>(s: Sys<T>, s': Sys<T>, p: Op<T>) {
    s.ch.items != [] && p == Got(s.ch.items[0].1) && s'.delivered == s.delivered + [s.ch.items[0]]
  }

  // try_read gets a value exactly when one is not promised; a woken reader
  // exactly when there is any.
  lemma OtherReadEnds<T>(s: Sys<T>, e: Event<T>)
    requires Inv(s) && Takes(s, e) && (e.ReadNow? || e.ResumeRead?)
    ensures var s' := Apply(s, e);
            && |s'.ops| == |s.ops|
            && var p := s'.ops[e.op];
               && (p.Got? <==> if e.ReadNow? then |s.ch.items| > s.ch.readReserved else s.ch.items != [])
               && (p.Got? ==> TakesOldest(s, s', p) && WakesWriter(s, s'))
               && (!p.Got? ==> p.Eof? && s'.delivered == s.delivered)
  {
    hide Sum, Values;
    WokenIsOther(s, e.op);
    if e.ResumeRead? {
      WokenHasTicket(s, e.op);
    }
  }

  lemma WokenHasTicket<T>(s: Sys<T>, op: nat)
    requires Inv(s) && op < |s.ops| && s.ops[op].ReadWoken?
    ensures s.ch.items == [] ==> s.ch.closed
  {
    SumAtLeast(s.ops, op, ReadTicket);
  }

  // ---- what can always happen next -------------------------------------------------------

  // A new operation may be of any kind, a blocked one may suspend and a woken one
  // may resume: its reservation is there.
  lemma OperationsMove<T>(s: Sys<T>, op: nat, v: T)
    requires Inv(s) && op < |s.ops|
    ensures s.ops[op].Unstarted? ==>
              Takes(s, Write(op, v)) && Takes(s, WriteNow(op, v)) && Takes(s, Read(op)) && Takes(s, ReadNow(op))
    ensures s.ops[op].WriteBlockedOp? ==> Takes(s, SuspendWrite(op))
    ensures s.ops[op].ReadBlockedOp? ==> Takes(s, SuspendRead(op))
    ensures s.ops[op].WriteWoken? ==> Takes(s, ResumeWrite(op))
    ensures s.ops[op].ReadWoken? ==> Takes(s, ResumeRead(op))
  {
    SumAtLeast(s.ops, op, WriteTicket);
    SumAtLeast(s.ops, op, ReadTicket);
  }

  predicate WriteUnderWay<T>(p: Op<T>) {
    p.WriteBlockedOp? || p.WriteQueued? || p.WriteWoken?
  }

  predicate ReadUnderWay<T>(p: Op<T>) {
    p.ReadBlockedOp? || p.ReadQueued? || p.ReadWoken?
  }

  function UnderWay<T>(p: Op<T>): nat {
    if WriteUnderWay(p) || ReadUnderWay(p) then 1 else 0
  }

  // The block an operation under way runs next.
  function Onward<T>(p: Op<T>, op: nat): Event<T>
    requires UnderWay(p) == 1
  {
    match p
    case WriteBlockedOp(_) => SuspendWrite(op)
    case WriteQueued(_) => ResumeWrite(op)
    case WriteWoken(_) => ResumeWrite(op)
    case ReadBlockedOp => SuspendRead(op)
    case _ => ResumeRead(op)
  }

  // How an operation ends once the channel is closed.
  ghost predicate EndsAs<T>(p: Op<T>, q: Op<T>) {
    if WriteUnderWay(p) then q.WriteRefused? else if ReadUnderWay(p) then q.Got? || q.Eof? else q == p
  }

  lemma NobodyQueued<T>(s: Sys<T>, op: nat)
    requires Inv(s) && s.ch.closed && op < |s.ops|
    ensures !s.ops[op].WriteQueued? && !s.ops[op].ReadQueued?
  {
    SumAtLeast(s.ops, op, InWriters);
    SumAtLeast(s.ops, op, InReaders);
  }

  // On a closed channel the next block ends its operation and touches no other.
  lemma BlockEnds<T>(s: Sys<T>, op: nat)
    requires Inv(s) && s.ch.closed && op < |s.ops| && UnderWay(s.ops[op]) == 1
    ensures var e := Onward(s.ops[op], op);
            var s' := Apply(s, e);
            && Takes(s, e) && s'.ch.closed && |s'.ops| == |s.ops| && s'.ops == s.ops[op := s'.ops[op]]
            && EndsAs(s.ops[op], s'.ops[op])
  {
    NobodyQueued(s, op);
    SumAtLeast(s.ops, op, WriteTicket);
    SumAtLeast(s.ops, op, ReadTicket);
    hide Sum, Values;
  }

  // After close every operation under way can end: the reads with what is left or
  // the end, the writes refused.  Nobody stays asleep.
  lemma {:induction false} ClosedCanEnd<T>(s: Sys<T>) returns (es: seq<Event<T>>)
    requires Inv(s) && s.ch.closed
    ensures forall e | e in es :: e.SuspendWrite? || e.ResumeWrite? || e.SuspendRead? || e.ResumeRead?
    ensures forall op | 0 <= op < |s.ops| :: EndsAs(s.ops[op], Exec(s, es).ops[op])
    decreases Sum(s.ops, UnderWay)
  {
    hide Inv, Takes, Step;
    if Sum(s.ops, UnderWay) == 0 {
      es := [];
      forall op | 0 <= op < |s.ops| ensures EndsAs(s.ops[op], s.ops[op]) {
        SumAtLeast(s.ops, op, UnderWay);
      }
    } else {
      var op := SumWitness(s.ops, UnderWay);
      var e := Onward(s.ops[op], op);
      BlockEnds(s, op);
      StepInv(s, e);
      var s' := Apply(s, e);
      SumUpdate(s.ops, op, s'.ops[op], UnderWay);
      var more := ClosedCanEnd(s');
      es := [e] + more;
      assert es[1..] == more;
      forall i | 0 <= i < |s.ops| ensures EndsAs(s.ops[i], Exec(s, es).ops[i]) {
        assert EndsAs(s'.ops[i], Exec(s', more).ops[i]);
      }
    }
  }

  // The channel is closed exactly once close has been called.
  lemma {:induction false} ClosedExactly<T>(s: Sys<T>, es: seq<Event<T>>)
    requires Inv(s)
    ensures Exec(s, es).ch.closed <==> s.ch.closed || CloseChannel in es
    decreases |es|
  {
    hide Inv;
    if es != [] {
      StepInv(s, es[0]);
      StepCloses(s, es[0]);
      ClosedExactly(Apply(s, es[0]), es[1..]);
      assert es == [es[0]] + es[1..];
    }
  }

  lemma StepCloses<T>(s: Sys<T>, e: Event<T>)
    requires Inv(s)
    ensures Apply(s, e).ch.closed <==> s.ch.closed || e.CloseChannel?
  {
    if Takes(s, e) && !e.CloseChannel? {
      if Reading(e) {
        ReadingGrows(s, e);
      } else {
        WritingGrows(s, e);
      }
    }
  }

  lemma NewIsOpen<T>(capacity: nat, ops: nat, es: seq<Event<T>>)
    ensures Inv<T>(Init(capacity, ops))
    ensures Exec<T>(Init(capacity, ops), es).ch.closed <==> CloseChannel in es
  {
    InitInv<T>(capacity, ops);
    hide Inv;
    ClosedExactly<T>(Init(capacity, ops), es);
  }
}
