module ActorActivation {
  // The activation protocol of an actor: any number of threads push envelopes
  // (push, count, activate) while pool threads run pull_and_run (drain,
  // subtract, release, re-check).  One event is one atomic operation; an event
  // its thread cannot take changes nothing, so every sequence of events is a
  // run.  The schedule function is set and shutdown is not in progress.

  import opened Prelude
  import opened Mailbox

  datatype Thread<T> =
    | Outside
    | Pushing(item: T)       // push_envelope, mailbox.try_push not yet through
    | Claimed(item: T)       // its cell is claimed, not yet published
    | Published              // try_push returned, m_pending not yet incremented
    | Activating             // at the compare-exchange of m_activated
    | Scheduling             // won it, at the call of the schedule function
    | Started                // pull_and_run, m_pending not yet loaded
    | Draining(limit: nat, executed: nat)
    | Drained(executed: nat) // about to subtract from m_pending
    | Subtracted             // about to store false to m_activated
    | Released               // about to re-check m_pending

  datatype Actor<T> = Actor(
    box: seq<Cell<T>>,
    pending: int,
    activated: bool,
    tasks: nat,               // pull_and_run submitted and not yet started
    threads: seq<Thread<T>>,
    accepted: seq<T>,         // history: envelopes in claim order
    delivered: seq<T>)        // history: envelopes dispatched

  datatype Event<T> =
    | EnterPush(t: nat, item: T)
    | TryPush(t: nat)
    | GiveUp(t: nat)
    | PublishCell(t: nat, i: nat)
    | Count(t: nat)
    | Activate(t: nat)
    | Schedule(t: nat)
    | Start(t: nat)
    | LoadPending(t: nat)
    | Pop(t: nat)
    | EndDrain(t: nat)
    | Subtract(t: nat)
    | Release(t: nat)
    | Recheck(t: nat)

  datatype Limits = Limits(capacity: nat, maxPerActivation: nat)

  function Init<T>(threads: nat): Actor<T> {
    Actor([], 0, false, 0, seq(threads, _ => Outside), [], [])
  }

  function Go<T>(a: Actor<T>, t: nat, phase: Thread<T>): Actor<T>
    requires t < |a.threads|
  {
    a.(threads := a.threads[t := phase])
  }

  function TryPushStep<T>(k: Limits, a: Actor<T>, t: nat): Actor<T>
    requires t < |a.threads| && a.threads[t].Pushing?
  {
    if |a.box| < k.capacity then
      var item := a.threads[t].item;
      Go(a, t, Claimed(item)).(box := Claim(a.box, t, item), accepted := a.accepted + [item])
    else a
  }

  function PopStep<T>(a: Actor<T>, t: nat): Actor<T>
    requires t < |a.threads| && a.threads[t].Draining?
  {
    var limit, executed := a.threads[t].limit, a.threads[t].executed;
    if executed < limit && Poppable(a.box) then
      Go(a, t, Draining(limit, executed + 1)).(box := a.box[1..], delivered := a.delivered + [a.box[0].item])
    else a
  }

  // The phase a thread must be in for an event of its own.
  predicate Takes<T>(e: Event<T>, p: Thread<T>) {
    match e
    case EnterPush(_, _) => p.Outside?
    case TryPush(_) => p.Pushing?
    case GiveUp(_) => p.Pushing?
    case PublishCell(_, _) => p.Claimed?
    case Count(_) => p.Published?
    case Activate(_) => p.Activating?
    case Schedule(_) => p.Scheduling?
    case Start(_) => p.Outside?
    case LoadPending(_) => p.Started?
    case Pop(_) => p.Draining?
    case EndDrain(_) => p.Draining?
    case Subtract(_) => p.Drained?
    case Release(_) => p.Subtracted?
    case Recheck(_) => p.Released?
  }

  function Apply<T>(k: Limits, a: Actor<T>, e: Event<T>): Actor<T> {
    if e.t < |a.threads| && Takes(e, a.threads[e.t]) then Step(k, a, e) else a
  }

  function Step<T>(k: Limits, a: Actor<T>, e: Event<T>): Actor<T>
    requires e.t < |a.threads| && Takes(e, a.threads[e.t])
  {
    var t, p := e.t, a.threads[e.t];
    match e
    case EnterPush(_, item) => Go(a, t, Pushing(item))
    case TryPush(_) => TryPushStep(k, a, t)
    case GiveUp(_) => if |a.box| < k.capacity then a else Go(a, t, Outside)
    case PublishCell(_, i) =>
      if i < |a.box| && a.box[i].owner == t && !a.box[i].published then
        Go(a, t, Published).(box := PublishAt(a.box, i))
      else a
    case Count(_) => Go(a, t, Activating).(pending := a.pending + 1)
    case Activate(_) =>
      if a.activated then Go(a, t, Outside) else Go(a, t, Scheduling).(activated := true)
    case Schedule(_) => Go(a, t, Outside).(tasks := a.tasks + 1)
    case Start(_) => if a.tasks > 0 then Go(a, t, Started).(tasks := a.tasks - 1) else a
    case LoadPending(_) =>
      Go(a, t, Draining(if a.pending < 0 then 0 else Min(k.maxPerActivation, a.pending), 0))
    case Pop(_) => PopStep(a, t)
    case EndDrain(_) =>
      if p.executed < p.limit && Poppable(a.box) then a else Go(a, t, Drained(p.executed))
    case Subtract(_) => Go(a, t, Subtracted).(pending := a.pending - p.executed)
    case Release(_) => Go(a, t, Released).(activated := false)
    case Recheck(_) => if a.pending > 0 then Go(a, t, Activating) else Go(a, t, Outside)
  }

  // ---- the invariant --------------------------------------------------------

  // Between winning the activation and storing false to m_activated.
  function Token<T>(p: Thread<T>): nat {
    if p.Scheduling? || p.Started? || p.Draining? || p.Drained? || p.Subtracted? then 1 else 0
  }

  // Pushed and not yet counted in m_pending.
  function Uncounted<T>(p: Thread<T>): nat {
    if p.Claimed? || p.Published? then 1 else 0
  }

  // Drained and not yet subtracted from m_pending.
  function Unsubtracted<T>(p: Thread<T>): nat {
    if p.Draining? || p.Drained? then p.executed else 0
  }

  // Has an activation check ahead of it.
  function Checking<T>(p: Thread<T>): nat {
    if p.Activating? || p.Released? then 1 else 0
  }

  function Items<T>(box: seq<Cell<T>>): (r: seq<T>)
    ensures |r| == |box|
    ensures forall i | 0 <= i < |box| :: r[i] == box[i].item
  {
    seq(|box|, (i: nat) requires i < |box| => box[i].item)
  }

  ghost predicate WithinPending<T>(a: Actor<T>, p: Thread<T>) {
    && (p.Draining? ==> p.executed <= p.limit <= a.pending)
    && (p.Drained? ==> p.executed <= a.pending)
  }

  ghost predicate Inv<T>(a: Actor<T>) {
    Counters(a) && LogOk(a) && CellsOk(a)
  }

  // A thread between its claim and its publication has one unpublished cell, and
  // there are no others.
  ghost predicate CellsOk<T>(a: Actor<T>) {
    && (forall i | 0 <= i < |a.box| && !a.box[i].published :: Claimer(a, a.box[i].owner))
    && (forall t | 0 <= t < |a.threads| && a.threads[t].Claimed? :: HasCell(a.box, t))
    && (forall i, j | 0 <= i < j < |a.box| && !a.box[i].published && !a.box[j].published ::
          a.box[i].owner != a.box[j].owner)
  }

  predicate Claimer<T>(a: Actor<T>, t: nat) {
    t < |a.threads| && a.threads[t].Claimed?
  }

  predicate HasCell<T>(box: seq<Cell<T>>, t: nat) {
    exists i :: 0 <= i < |box| && OwnCell(box[i], t)
  }

  predicate OwnCell<T>(c: Cell<T>, t: nat) {
    c.owner == t && !c.published
  }

  ghost predicate Counters<T>(a: Actor<T>) {
    Totals(a) && forall t | 0 <= t < |a.threads| :: WithinPending(a, a.threads[t])
  }

  ghost predicate Totals<T>(a: Actor<T>) {
    && a.tasks + Sum(a.threads, Token) == (if a.activated then 1 else 0)
    && |a.box| + Sum(a.threads, Unsubtracted) == a.pending + Sum(a.threads, Uncounted)
    && a.pending >= 0
    && (a.pending > 0 ==> a.activated || Sum(a.threads, Checking) > 0)
  }

  lemma InitInv<T>(threads: nat)
    ensures Inv<T>(Init(threads))
  {
    var a: Actor<T> := Init(threads);
    SumZero(a.threads, Token);
    SumZero(a.threads, Unsubtracted);
    SumZero(a.threads, Uncounted);
  }

  // The four counters after thread t moves to another phase.
  lemma Moved<T>(a: Actor<T>, t: nat, p: Thread<T>)
    requires t < |a.threads|
    ensures var s, s', q := a.threads, a.threads[t := p], a.threads[t];
            && Sum(s', Token) + Token(q) == Sum(s, Token) + Token(p)
            && Sum(s', Unsubtracted) + Unsubtracted(q) == Sum(s, Unsubtracted) + Unsubtracted(p)
            && Sum(s', Uncounted) + Uncounted(q) == Sum(s, Uncounted) + Uncounted(p)
            && Sum(s', Checking) + Checking(q) == Sum(s, Checking) + Checking(p)
            && Token(q) <= Sum(s, Token)
            && (Token(q) > 0 ==> forall u | 0 <= u < |s| && u != t :: Token(s[u]) == 0 || Sum(s, Token) > 1)
  {
    SumUpdate(a.threads, t, p, Token);
    SumUpdate(a.threads, t, p, Unsubtracted);
    SumUpdate(a.threads, t, p, Uncounted);
    SumUpdate(a.threads, t, p, Checking);
    SumAtLeast(a.threads, t, Token);
    forall u | 0 <= u < |a.threads| && u != t
      ensures Token(a.threads[t]) == 0 || Token(a.threads[u]) == 0 || Sum(a.threads, Token) > 1
    {
      if u < t {
        SumAtLeastTwo(a.threads, u, t, Token);
      } else {
        SumAtLeastTwo(a.threads, t, u, Token);
      }
    }
  }

  lemma StepInv<T>(k: Limits, a: Actor<T>, e: Event<T>)
    requires Inv(a)
    ensures Inv(Apply(k, a, e)) && |Apply(k, a, e).threads| == |a.threads|
  {
    hide Counters, LogOk, CellsOk, Step;
    StepLog(k, a, e);
    StepCounters(k, a, e);
    StepCells(k, a, e);
    if e.t < |a.threads| && Takes(e, a.threads[e.t]) {
      var p := StepMoves(k, a, e);
    }
  }

  lemma StepCounters<T>(k: Limits, a: Actor<T>, e: Event<T>)
    requires Counters(a)
    ensures Counters(Apply(k, a, e))
  {
    if e.t < |a.threads| && Takes(e, a.threads[e.t]) {
      StepTotals(k, a, e);
      StepWithin(k, a, e);
    }
  }

  lemma StepMoves<T>(k: Limits, a: Actor<T>, e: Event<T>) returns (p: Thread<T>)
    requires e.t < |a.threads| && Takes(e, a.threads[e.t])
    ensures |Step(k, a, e).threads| == |a.threads| && p == Step(k, a, e).threads[e.t]
    ensures Step(k, a, e).threads == a.threads[e.t := p]
  {
    p := Step(k, a, e).threads[e.t];
  }

  lemma StepTotals<T>(k: Limits, a: Actor<T>, e: Event<T>)
    requires Counters(a) && e.t < |a.threads| && Takes(e, a.threads[e.t])
    ensures Totals(Step(k, a, e))
  {
    hide Sum, Items;
    var p := StepMoves(k, a, e);
    Moved(a, e.t, p);
    assert WithinPending(a, a.threads[e.t]);
  }

  lemma StepWithin<T>(k: Limits, a: Actor<T>, e: Event<T>)
    requires Counters(a) && e.t < |a.threads| && Takes(e, a.threads[e.t])
    ensures forall u | 0 <= u < |a.threads| ::
              |Step(k, a, e).threads| == |a.threads| && WithinPending(Step(k, a, e), Step(k, a, e).threads[u])
  {
    hide Sum, Items;
    var a' := Step(k, a, e);
    var p := StepMoves(k, a, e);
    Moved(a, e.t, p);
    forall u | 0 <= u < |a.threads| ensures WithinPending(a', a'.threads[u]) {
      assert WithinPending(a, a.threads[u]);
    }
  }

  // Delivered envelopes, followed by those in the mailbox, are the accepted ones.
  ghost predicate LogOk<T>(a: Actor<T>) {
    a.accepted == a.delivered + Items(a.box)
  }

  // Claims append to the envelopes accepted, pops take the oldest, and a
  // publication changes neither.
  lemma StepLog<T>(k: Limits, a: Actor<T>, e: Event<T>)
    requires LogOk(a)
    ensures LogOk(Apply(k, a, e))
  {
    hide Items;
    if e.t < |a.threads| && Takes(e, a.threads[e.t]) {
      if e.Pop? {
        PopLog(k, a, e.t);
      } else if e.TryPush? {
        PushLog(k, a, e.t);
      } else if e.PublishCell? {
        PublishLog(a.box, e.i);
      } else {
        OtherLog(k, a, e);
      }
    }
  }

  lemma PopLog<T>(k: Limits, a: Actor<T>, t: nat)
    requires LogOk(a) && t < |a.threads| && a.threads[t].Draining?
    ensures LogOk(PopStep(a, t))
  {
    if Poppable(a.box) {
      assert Items(a.box) == [a.box[0].item] + Items(a.box[1..]);
      Assoc(a.delivered, [a.box[0].item], Items(a.box[1..]));
    }
  }

  lemma PushLog<T>(k: Limits, a: Actor<T>, t: nat)
    requires LogOk(a) && t < |a.threads| && a.threads[t].Pushing?
    ensures LogOk(TryPushStep(k, a, t))
  {
    var item := a.threads[t].item;
    assert Items(Claim(a.box, t, item)) == Items(a.box) + [item];
    Assoc(a.delivered, Items(a.box), [item]);
  }

  lemma PublishLog<T>(box: seq<Cell<T>>, i: nat)
    ensures i < |box| ==> Items(PublishAt(box, i)) == Items(box)
  {
  }

  lemma OtherLog<T>(k: Limits, a: Actor<T>, e: Event<T>)
    requires e.t < |a.threads| && Takes(e, a.threads[e.t]) && !e.Pop? && !e.TryPush? && !e.PublishCell?
    ensures var a' := Step(k, a, e); a'.box == a.box && a'.accepted == a.accepted && a'.delivered == a.delivered
  {
    hide Items;
  }

  lemma StepCells<T>(k: Limits, a: Actor<T>, e: Event<T>)
    requires CellsOk(a)
    ensures CellsOk(Apply(k, a, e))
  {
    if e.t < |a.threads| && Takes(e, a.threads[e.t]) {
      if e.Pop? {
        PopCells(k, a, e.t);
      } else if e.TryPush? {
        PushCells(k, a, e.t);
      } else if e.PublishCell? {
        PublishCells(k, a, e.t, e.i);
      } else {
        OtherCells(k, a, e);
      }
    }
  }

  lemma HasCellAt<T>(box: seq<Cell<T>>, box': seq<Cell<T>>, t: nat, shift: nat)
    requires HasCell(box, t) && |box| <= |box'| + shift
    requires forall i | 0 <= i < |box| && OwnCell(box[i], t) :: shift <= i && box'[i - shift] == box[i]
    ensures HasCell(box', t)
  {
    var i :| 0 <= i < |box| && OwnCell(box[i], t);
    assert OwnCell(box'[i - shift], t);
  }

  lemma PopCells<T>(k: Limits, a: Actor<T>, t: nat)
    requires CellsOk(a) && t < |a.threads| && a.threads[t].Draining?
    ensures CellsOk(PopStep(a, t))
  {
    hide HasCell;
    var a' := PopStep(a, t);
    forall u | 0 <= u < |a'.threads| && a'.threads[u].Claimed? ensures HasCell(a'.box, u) {
      HasCellAt(a.box, a'.box, u, |a.box| - |a'.box|);
    }
    forall i | 0 <= i < |a'.box| && !a'.box[i].published ensures Claimer(a', a'.box[i].owner) {
      assert a'.box[i] == a.box[i + (|a.box| - |a'.box|)];
      assert Claimer(a, a'.box[i].owner);
    }
  }

  lemma PushCells<T>(k: Limits, a: Actor<T>, t: nat)
    requires CellsOk(a) && t < |a.threads| && a.threads[t].Pushing?
    ensures CellsOk(TryPushStep(k, a, t))
  {
    hide HasCell;
    var a' := TryPushStep(k, a, t);
    forall i | 0 <= i < |a.box| && !a.box[i].published ensures a.box[i].owner != t && Claimer(a', a.box[i].owner) {
      assert Claimer(a, a.box[i].owner);
    }
    forall u | 0 <= u < |a'.threads| && a'.threads[u].Claimed? ensures HasCell(a'.box, u) {
      if u == t {
        NewCell(a.box, t, a.threads[t].item);
      } else {
        HasCellAt(a.box, a'.box, u, 0);
      }
    }
  }

  lemma NewCell<T>(box: seq<Cell<T>>, t: nat, item: T)
    ensures HasCell(Claim(box, t, item), t)
  {
    assert OwnCell(Claim(box, t, item)[|box|], t);
  }

  lemma PublishCells<T>(k: Limits, a: Actor<T>, t: nat, i: nat)
    requires CellsOk(a) && t < |a.threads| && a.threads[t].Claimed?
    ensures CellsOk(Step(k, a, PublishCell(t, i)))
  {
    hide HasCell;
    if i < |a.box| && a.box[i].owner == t && !a.box[i].published {
      var a' := Step(k, a, PublishCell(t, i));
      forall j | 0 <= j < |a'.box| && !a'.box[j].published ensures Claimer(a', a'.box[j].owner) {
        assert Claimer(a, a.box[j].owner);
      }
      forall u | 0 <= u < |a'.threads| && a'.threads[u].Claimed? ensures HasCell(a'.box, u) {
        HasCellAt(a.box, a'.box, u, 0);
      }
    }
  }

  lemma OtherCells<T>(k: Limits, a: Actor<T>, e: Event<T>)
    requires CellsOk(a)
    requires e.t < |a.threads| && Takes(e, a.threads[e.t]) && !e.Pop? && !e.TryPush? && !e.PublishCell?
    ensures CellsOk(Step(k, a, e))
  {
    hide HasCell, CellsOk;
    var a' := Step(k, a, e);
    var p := StepMoves(k, a, e);
    assert !p.Claimed? && !a.threads[e.t].Claimed? && a'.box == a.box;
    SameCells(a, a', e.t, p);
  }

  lemma SameCells<T>(a: Actor<T>, a': Actor<T>, t: nat, p: Thread<T>)
    requires CellsOk(a) && t < |a.threads| && a'.threads == a.threads[t := p] && a'.box == a.box
    requires !p.Claimed? && !a.threads[t].Claimed?
    ensures CellsOk(a')
  {
    hide HasCell;
    forall i | 0 <= i < |a.box| && !a.box[i].published ensures Claimer(a', a.box[i].owner) {
      assert Claimer(a, a.box[i].owner);
    }
  }

  // Every sequence of events from any state that satisfies the invariant keeps it.
  ghost function Exec<T>(k: Limits, a: Actor<T>, es: seq<Event<T>>): (a': Actor<T>)
    requires Inv(a)
    ensures Inv(a') && |a'.threads| == |a.threads|
    decreases |es|
  {
    if es == [] then a
    else
      StepInv(k, a, es[0]);
      Exec(k, Apply(k, a, es[0]), es[1..])
  }

  // ---- what the protocol promises ----------------------------------------------

  // At most one pull_and_run is between scheduling and its release store, and
  // then nothing else is submitted: the mailbox has one consumer at a time.
  lemma OneConsumer<T>(k: Limits, threads: nat, es: seq<Event<T>>, t: nat, u: nat)
    requires t < u < threads
    ensures Inv<T>(Init(threads))
    ensures var a := Exec(k, Init(threads), es);
            && |a.threads| == threads
            && Token(a.threads[t]) + Token(a.threads[u]) + a.tasks <= 1
  {
    InitInv<T>(threads);
    SumAtLeastTwo(Exec(k, Init(threads), es).threads, t, u, Token);
  }

  // m_pending never underflows, and accounts for every cell of the mailbox.
  lemma PendingAccounts<T>(k: Limits, threads: nat, es: seq<Event<T>>)
    ensures Inv<T>(Init(threads))
    ensures var a := Exec(k, Init(threads), es);
            && a.pending >= 0
            && |a.box| + Sum(a.threads, Unsubtracted) == a.pending + Sum(a.threads, Uncounted)
            && a.accepted == a.delivered + Items(a.box)
  {
    InitInv<T>(threads);
  }

  // No wake-up is lost: while envelopes wait, a task is submitted or some
  // thread is still inside the protocol.
  lemma NoLostWakeup<T>(k: Limits, threads: nat, es: seq<Event<T>>)
    ensures Inv<T>(Init(threads))
    ensures var a := Exec(k, Init(threads), es);
            a.delivered != a.accepted ==>
              a.tasks > 0 || exists t :: 0 <= t < |a.threads| && !a.threads[t].Outside? && !a.threads[t].Pushing?
  {
    InitInv<T>(threads);
    var a := Exec(k, Init(threads), es);
    if Quiet(a) {
      QuietIsEmpty(a);
    }
  }

  // No task is submitted and nobody is past the mailbox's try_push.
  ghost predicate Quiet<T>(a: Actor<T>) {
    a.tasks == 0 && forall t | 0 <= t < |a.threads| :: a.threads[t].Outside? || a.threads[t].Pushing?
  }

  lemma QuietIsEmpty<T>(a: Actor<T>)
    requires Inv(a) && Quiet(a)
    ensures a.box == [] && a.delivered == a.accepted
  {
    SumZero(a.threads, Token);
    SumZero(a.threads, Unsubtracted);
    SumZero(a.threads, Uncounted);
    SumZero(a.threads, Checking);
    assert Items(a.box) == [];
  }

  // While m_pending is positive, the actor is activated or some thread has
  // its activation check ahead of it.
  lemma PendingIsWatched<T>(k: Limits, threads: nat, es: seq<Event<T>>) returns (t: nat)
    requires Inv<T>(Init(threads))
    requires Exec(k, Init<T>(threads), es).pending > 0
    ensures var a := Exec(k, Init<T>(threads), es);
            a.activated || (t < |a.threads| && (a.threads[t].Activating? || a.threads[t].Released?))
  {
    var a := Exec(k, Init<T>(threads), es);
    t := 0;
    if !a.activated {
      t := SumWitness(a.threads, Checking);
    }
  }
}
