module ActorProgress {
  // The activation protocol gets somewhere: what one activation delivers, and
  // that from every reachable state the actor can be run to rest, unless every
  // thread is inside a push on a full mailbox.

  import opened Prelude
  import opened Mailbox
  import opened ActorActivation

  // ---- one activation --------------------------------------------------------------

  // What the envelopes of the mailbox's first n cells are.
  predicate Ready<T>(box: seq<Cell<T>>, n: nat) {
    n <= |box| && forall i | 0 <= i < n :: box[i].published
  }

  // Thread t stays in its drain all through the run.
  ghost predicate KeepsDraining<T>(k: Limits, a: Actor<T>, es: seq<Event<T>>, t: nat)
    requires Inv(a)
    decreases |es|
  {
    && t < |a.threads| && a.threads[t].Draining?
    && (es == [] || (StepInv(k, a, es[0]); KeepsDraining(k, Apply(k, a, es[0]), es[1..], t)))
  }

  // Only the draining thread pops, and it counts what it pops.
  ghost predicate Counts<T>(a: Actor<T>, b: Actor<T>, t: nat)
    requires t < |a.threads| && a.threads[t].Draining?
  {
    && t < |b.threads| && b.threads[t].Draining? && b.threads[t].limit == a.threads[t].limit
    && a.delivered <= b.delivered
    && |b.delivered| - |a.delivered| == b.threads[t].executed - a.threads[t].executed
  }

  lemma OnlyOneDrains<T>(a: Actor<T>, t: nat, u: nat)
    requires Inv(a) && t < |a.threads| && u < |a.threads| && a.threads[t].Draining? && a.threads[u].Draining?
    ensures t == u
  {
    hide LogOk, CellsOk;
    if t < u {
      SumAtLeastTwo(a.threads, t, u, Token);
    } else if u < t {
      SumAtLeastTwo(a.threads, u, t, Token);
    }
  }

  // One step of a run in which t keeps draining: t popped, or nobody did, and
  // published cells stay published.
  lemma StepCounts<T>(k: Limits, a: Actor<T>, e: Event<T>, t: nat)
    requires Inv(a) && t < |a.threads| && a.threads[t].Draining?
    requires t < |Apply(k, a, e).threads| && Apply(k, a, e).threads[t].Draining?
    ensures var b := Apply(k, a, e);
            && Counts(a, b, t) && a.accepted <= b.accepted
            && var d := |b.delivered| - |a.delivered|;
               d <= 1 && forall n: nat | d <= n && Ready(a.box, n) :: Ready(b.box, n - d)
  {
    if e.Pop? && e.t < |a.threads| && a.threads[e.t].Draining? {
      OnlyOneDrains(a, t, e.t);
    }
    hide Inv;
  }

  // From the load on, the count follows the deliveries, and what is left of the
  // published cells is still there.
  lemma {:induction false} DrainFollows<T>(k: Limits, a: Actor<T>, es: seq<Event<T>>, t: nat, n: nat)
    requires Inv(a) && KeepsDraining(k, a, es, t) && Ready(a.box, n)
    ensures var b := Exec(k, a, es);
            && Counts(a, b, t) && a.accepted <= b.accepted
            && var x := b.threads[t].executed - a.threads[t].executed;
               x >= 0 && (x <= n ==> Ready(b.box, n - x))
    decreases |es|
  {
    hide Inv, Apply, Ready;
    if es != [] {
      var c := Apply(k, a, es[0]);
      StepInv(k, a, es[0]);
      StepCounts(k, a, es[0], t);
      var d := |c.delivered| - |a.delivered|;
      if d <= n {
        DrainFollows(k, c, es[1..], t, n - d);
      } else {
        NoneReady(c.box);
        DrainFollows(k, c, es[1..], t, 0);
      }
    }
  }

  lemma NoneReady<T>(box: seq<Cell<T>>)
    ensures Ready(box, 0)
  {
  }

  // An activation that loads m_pending over n published cells delivers exactly
  // the first min(max_per_activation, n) of them before it ends, if m_pending was
  // n; and any activation ends with fewer than its limit only where the front of
  // the mailbox is missing or not published.
  lemma ActivationDelivers<T>(k: Limits, a: Actor<T>, t: nat, es: seq<Event<T>>)
    requires Inv(a) && t < |a.threads| && a.threads[t].Started?
    requires Inv(Apply(k, a, LoadPending(t))) && KeepsDraining(k, Apply(k, a, LoadPending(t)), es, t)
    ensures var b := Exec(k, Apply(k, a, LoadPending(t)), es);
            var limit := if a.pending < 0 then 0 else Min(k.maxPerActivation, a.pending);
            var c := Apply(k, b, EndDrain(t));
            && t < |b.threads| && t < |c.threads|
            && a.delivered <= b.delivered && |b.delivered| <= |a.delivered| + limit
            && (c.threads[t] != b.threads[t] <==> |b.delivered| == |a.delivered| + limit || !Poppable(b.box))
            && (c.threads[t] != b.threads[t] ==> c.threads[t] == Drained(|b.delivered| - |a.delivered|))
            && (a.pending == |a.box| && Ready(a.box, |a.box|) ==>
                  && b.delivered <= a.accepted
                  && (c.threads[t] != b.threads[t] <==> |b.delivered| == |a.delivered| + limit))
  {
    hide Counters, CellsOk, LogOk, Items, KeepsDraining;
    var s := Apply(k, a, LoadPending(t));
    var b := Exec(k, s, es);
    var limit := if a.pending < 0 then 0 else Min(k.maxPerActivation, a.pending);
    assert s == a.(threads := a.threads[t := Draining(limit, 0)]);
    NoneReady(s.box);
    var n := if a.pending == |a.box| && Ready(a.box, |a.box|) then |a.box| else 0;
    StartsDraining(k, s, es, t);
    DrainFollows(k, s, es, t, n);
    ExecutedWithin(b, t);
    if n > 0 || |a.box| == 0 {
      Delivered(a);
      Delivered(b);
    }
  }

  lemma StartsDraining<T>(k: Limits, a: Actor<T>, es: seq<Event<T>>, t: nat)
    requires Inv(a) && KeepsDraining(k, a, es, t)
    ensures t < |a.threads| && a.threads[t].Draining?
  {
    hide Inv;
  }

  lemma ExecutedWithin<T>(a: Actor<T>, t: nat)
    requires Inv(a) && t < |a.threads| && a.threads[t].Draining?
    ensures a.threads[t].executed <= a.threads[t].limit <= a.pending
  {
    hide LogOk, CellsOk, Totals;
    assert WithinPending(a, a.threads[t]);
  }

  lemma Delivered<T>(a: Actor<T>)
    requires Inv(a)
    ensures a.delivered <= a.accepted && |a.accepted| == |a.delivered| + |a.box|
  {
    hide Counters, CellsOk;
  }

  // ---- rest ----------------------------------------------------------------------------

  predicate AtRest<T>(a: Actor<T>) {
    a.tasks == 0 && forall t | 0 <= t < |a.threads| :: a.threads[t].Outside?
  }

  lemma RestIsEmpty<T>(a: Actor<T>)
    requires Inv(a) && AtRest(a)
    ensures a.box == [] && a.delivered == a.accepted
  {
    hide Inv;
    QuietIsEmpty(a);
  }

  // Every thread is inside a push, and the mailbox is full.
  predicate Jammed<T>(k: Limits, a: Actor<T>) {
    |a.box| >= k.capacity && forall t | 0 <= t < |a.threads| :: a.threads[t].Pushing?
  }

  // ---- a measure of what is left to do ---------------------------------------------------

  function PushLeft<T>(p: Thread<T>): nat {
    match p
    case Pushing(_) => 3
    case Claimed(_) => 2
    case Published => 1
    case _ => 0
  }

  // The way to the next pop, while cells are in the mailbox.
  function ToPop<T>(p: Thread<T>): nat {
    match p
    case Draining(limit, executed) => if executed < limit then 1 else 9
    case Started => 2
    case Scheduling => 4
    case Activating => 5
    case Released => 6
    case Subtracted => 7
    case Drained(_) => 8
    case _ => 0
  }

  // The way outside, when it is empty.
  function ToRest<T>(p: Thread<T>): nat {
    match p
    case Released => 2
    case Subtracted => 3
    case Drained(_) => 4
    case Draining(_, _) => 5
    case Started => 6
    case Scheduling => 8
    case Activating => 9
    case _ => 0
  }

  function Way<T>(a: Actor<T>): nat {
    if a.box == [] then Sum(a.threads, ToRest) + 7 * a.tasks else Sum(a.threads, ToPop) + 3 * a.tasks
  }

  // Pushes first, then cells to deliver, then the way there.
  predicate Less<T>(a: Actor<T>, b: Actor<T>) {
    var p, q := Sum(a.threads, PushLeft), Sum(b.threads, PushLeft);
    p < q || (p == q && (|a.box| < |b.box| || (|a.box| == |b.box| && Way(a) < Way(b))))
  }

  lemma Moves<T>(a: Actor<T>, t: nat, p: Thread<T>)
    requires t < |a.threads|
    ensures var s, s', q := a.threads, a.threads[t := p], a.threads[t];
            && Sum(s', PushLeft) + PushLeft(q) == Sum(s, PushLeft) + PushLeft(p)
            && Sum(s', ToPop) + ToPop(q) == Sum(s, ToPop) + ToPop(p)
            && Sum(s', ToRest) + ToRest(q) == Sum(s, ToRest) + ToRest(p)
  {
    SumUpdate(a.threads, t, p, PushLeft);
    SumUpdate(a.threads, t, p, ToPop);
    SumUpdate(a.threads, t, p, ToRest);
  }

  // One thread's part in it, as it moves from q to p.
  predicate Nearer<T>(a: Actor<T>, b: Actor<T>, q: Thread<T>, p: Thread<T>) {
    || PushLeft(p) < PushLeft(q)
    || (PushLeft(p) == PushLeft(q) && |b.box| < |a.box|)
    || (PushLeft(p) == PushLeft(q) && |b.box| == |a.box|
        && if a.box == [] then ToRest(p) + 7 * b.tasks < ToRest(q) + 7 * a.tasks
           else ToPop(p) + 3 * b.tasks < ToPop(q) + 3 * a.tasks)
  }

  lemma Advances<T>(k: Limits, a: Actor<T>, e: Event<T>)
    requires e.t < |a.threads| && Takes(e, a.threads[e.t])
    requires e.t < |Step(k, a, e).threads|
    requires Nearer(a, Step(k, a, e), a.threads[e.t], Step(k, a, e).threads[e.t])
    ensures Less(Apply(k, a, e), a)
  {
    hide Sum, Step;
    var p := StepMoves(k, a, e);
    Moves(a, e.t, p);
  }

  // ---- the next event ------------------------------------------------------------------------

  // A push goes on: a claim when there is room, a publication, a count.
  lemma PushGoesOn<T>(k: Limits, a: Actor<T>, t: nat) returns (e: Event<T>)
    requires Inv(a) && t < |a.threads| && PushLeft(a.threads[t]) > 0
    requires a.threads[t].Pushing? ==> |a.box| < k.capacity
    ensures e.t == t && !e.EnterPush? && !e.GiveUp? && Less(Apply(k, a, e), a)
    ensures !Jammed(k, Apply(k, a, e))
  {
    hide Counters, LogOk, Sum, Less, Way;
    match a.threads[t] {
    case Pushing(_) => e := TryPush(t);
    case Claimed(_) =>
      assert HasCell(a.box, t);
      var i :| 0 <= i < |a.box| && OwnCell(a.box[i], t);
      e := PublishCell(t, i);
    case Published => e := Count(t);
    }
    Advances(k, a, e);
    assert !Apply(k, a, e).threads[t].Pushing?;
  }

  // Nothing is being pushed but onto a full mailbox: every cell is published and
  // counted.
  predicate Still<T>(k: Limits, a: Actor<T>) {
    forall t | 0 <= t < |a.threads| :: PushLeft(a.threads[t]) > 0 ==> a.threads[t].Pushing? && |a.box| >= k.capacity
  }

  lemma StillFacts<T>(k: Limits, a: Actor<T>)
    requires Inv(a) && Still(k, a)
    ensures Ready(a.box, |a.box|)
    ensures |a.box| + Sum(a.threads, Unsubtracted) == a.pending
  {
    hide LogOk;
    SumZero(a.threads, Uncounted);
    forall i | 0 <= i < |a.box| ensures a.box[i].published {
      assert !a.box[i].published ==> Claimer(a, a.box[i].owner);
    }
  }

  // The activation under way goes on.
  lemma TokenGoesOn<T>(k: Limits, a: Actor<T>, t: nat) returns (e: Event<T>)
    requires Inv(a) && Still(k, a) && k.maxPerActivation > 0 && t < |a.threads| && Token(a.threads[t]) > 0
    ensures e.t == t && !e.EnterPush? && !e.GiveUp? && Less(Apply(k, a, e), a)
    ensures !Jammed(k, Apply(k, a, e))
  {
    StillFacts(k, a);
    hide Inv, Sum, Less, Way, Still, Ready;
    match a.threads[t] {
    case Scheduling => e := Schedule(t);
    case Started => e := LoadPending(t);
    case Draining(_, _) => e := DrainGoesOn(k, a, t);
    case Drained(_) => e := Subtract(t);
    case Subtracted => e := Release(t);
    }
    if !a.threads[t].Draining? {
      TokenNearer(k, a, t, e);
      Advances(k, a, e);
    }
  }

  lemma TokenNearer<T>(k: Limits, a: Actor<T>, t: nat, e: Event<T>)
    requires t < |a.threads| && k.maxPerActivation > 0 && |a.box| <= a.pending
    requires var p := a.threads[t];
             || (p.Scheduling? && e == Schedule(t)) || (p.Started? && e == LoadPending(t))
             || (p.Drained? && e == Subtract(t)) || (p.Subtracted? && e == Release(t))
    ensures Takes(e, a.threads[t]) && |Step(k, a, e).threads| == |a.threads| && !Step(k, a, e).threads[t].Pushing?
    ensures Nearer(a, Step(k, a, e), a.threads[t], Step(k, a, e).threads[t])
  {
  }

  lemma DrainGoesOn<T>(k: Limits, a: Actor<T>, t: nat) returns (e: Event<T>)
    requires Ready(a.box, |a.box|) && t < |a.threads| && a.threads[t].Draining?
    ensures e.t == t && !e.EnterPush? && !e.GiveUp? && Less(Apply(k, a, e), a)
    ensures !Jammed(k, Apply(k, a, e))
  {
    hide Sum, Less, Way;
    e := if a.threads[t].executed < a.threads[t].limit && Poppable(a.box) then Pop(t) else EndDrain(t);
    Advances(k, a, e);
    assert !Apply(k, a, e).threads[t].Pushing?;
  }

  // No activation is under way: one is checked for.
  lemma CheckGoesOn<T>(k: Limits, a: Actor<T>, t: nat) returns (e: Event<T>)
    requires Inv(a) && Still(k, a) && t < |a.threads| && Checking(a.threads[t]) > 0
    requires forall u | 0 <= u < |a.threads| :: Token(a.threads[u]) == 0
    ensures e.t == t && !e.EnterPush? && !e.GiveUp? && Less(Apply(k, a, e), a)
    ensures !Jammed(k, Apply(k, a, e))
  {
    StillFacts(k, a);
    SumZero(a.threads, Unsubtracted);
    e := if a.threads[t].Activating? then Activate(t) else Recheck(t);
    hide Inv, Sum, Less, Way;
    Advances(k, a, e);
    assert !Apply(k, a, e).threads[t].Pushing?;
  }

  lemma TaskGoesOn<T>(k: Limits, a: Actor<T>, t: nat) returns (e: Event<T>)
    requires a.tasks > 0 && t < |a.threads| && a.threads[t].Outside?
    ensures e.t == t && !e.EnterPush? && !e.GiveUp? && Less(Apply(k, a, e), a)
    ensures !Jammed(k, Apply(k, a, e))
  {
    e := Start(t);
    hide Sum, Less, Way;
    Advances(k, a, e);
    assert !Apply(k, a, e).threads[t].Pushing?;
  }

  // Threads outside or inside a push on a full mailbox, nothing submitted: there
  // would be something to wake up for.
  lemma NobodyPushes<T>(k: Limits, a: Actor<T>, t: nat)
    requires Inv(a) && Still(k, a) && k.capacity > 0 && a.tasks == 0 && t < |a.threads|
    requires forall u | 0 <= u < |a.threads| :: a.threads[u].Outside? || a.threads[u].Pushing?
    ensures a.threads[t].Outside?
  {
    hide Sum;
    QuietIsEmpty(a);
  }

  lemma SomethingGoesOn<T>(k: Limits, a: Actor<T>) returns (e: Event<T>)
    requires Inv(a) && k.capacity > 0 && k.maxPerActivation > 0 && |a.threads| > 0 && !Jammed(k, a) && !AtRest(a)
    ensures !e.EnterPush? && !e.GiveUp? && Less(Apply(k, a, e), a) && !Jammed(k, Apply(k, a, e))
  {
    hide Inv, Less, Sum, Apply;
    if t :| 0 <= t < |a.threads| && PushLeft(a.threads[t]) > 0 && (a.threads[t].Pushing? ==> |a.box| < k.capacity) {
      e := PushGoesOn(k, a, t);
    } else if t :| 0 <= t < |a.threads| && Token(a.threads[t]) > 0 {
      e := TokenGoesOn(k, a, t);
    } else if t :| 0 <= t < |a.threads| && Checking(a.threads[t]) > 0 {
      e := CheckGoesOn(k, a, t);
    } else {
      assert forall u | 0 <= u < |a.threads| :: a.threads[u].Outside? || a.threads[u].Pushing?;
      if a.tasks == 0 {
        forall t | 0 <= t < |a.threads| ensures a.threads[t].Outside? {
          NobodyPushes(k, a, t);
        }
        assert false;
      } else {
        var t :| 0 <= t < |a.threads| && a.threads[t].Outside?;
        e := TaskGoesOn(k, a, t);
      }
    }
  }

  // ---- the continuation ------------------------------------------------------------------------

  // The threads finish what they are at: no new push, none given up.
  ghost predicate Finishing<T>(es: seq<Event<T>>) {
    forall e | e in es :: !e.EnterPush? && !e.GiveUp?
  }

  // From every reachable state in which not every thread is inside a push on a
  // full mailbox, finishing what is under way brings the actor to rest, with all
  // accepted envelopes delivered.
  lemma {:induction false} CanFinish<T>(k: Limits, a: Actor<T>) returns (es: seq<Event<T>>)
    requires Inv(a) && k.capacity > 0 && k.maxPerActivation > 0 && |a.threads| > 0 && !Jammed(k, a)
    ensures Finishing(es) && AtRest(Exec(k, a, es))
    ensures Exec(k, a, es).delivered == Exec(k, a, es).accepted
    decreases Sum(a.threads, PushLeft), |a.box|, Way(a)
  {
    if AtRest(a) {
      es := [];
      RestIsEmpty(a);
    } else {
      hide Inv, AtRest, Apply, Sum, Jammed, Way;
      var e := SomethingGoesOn(k, a);
      StepInv(k, a, e);
      var more := CanFinish(k, Apply(k, a, e));
      es := [e] + more;
      assert es[1..] == more;
    }
  }

  // A jam stays as it is until one of the pushes is given up.
  lemma {:induction false} JamStays<T>(k: Limits, a: Actor<T>, es: seq<Event<T>>)
    requires Inv(a) && Jammed(k, a) && Finishing(es)
    ensures Exec(k, a, es) == a
    decreases |es|
  {
    hide Inv;
    if es != [] {
      assert es[0] in es;
      JamStays(k, a, es[1..]);
    }
  }

  // The actor can be brought to rest by finishing what is under way exactly when
  // not every thread is inside a push on a full mailbox.
  lemma FinishesExactly<T>(k: Limits, a: Actor<T>)
    requires Inv(a) && k.capacity > 0 && k.maxPerActivation > 0 && |a.threads| > 0
    ensures (exists es :: Finishing(es) && AtRest(Exec(k, a, es))) <==> !Jammed(k, a)
  {
    hide Inv;
    if Jammed(k, a) {
      forall es | Finishing(es) ensures !AtRest(Exec(k, a, es)) {
        JamStays(k, a, es);
        assert a.threads[0].Pushing?;
      }
    } else {
      var es := CanFinish(k, a);
    }
  }

  // Once a jammed push is given up, everything accepted is delivered.
  lemma CanDeliver<T>(k: Limits, a: Actor<T>) returns (es: seq<Event<T>>)
    requires Inv(a) && k.capacity > 0 && k.maxPerActivation > 0 && |a.threads| > 0
    ensures (forall e | e in es :: !e.EnterPush?) && AtRest(Exec(k, a, es))
    ensures Exec(k, a, es).delivered == Exec(k, a, es).accepted
  {
    hide Inv, AtRest;
    if Jammed(k, a) {
      StepInv(k, a, GiveUp(0));
      assert a.threads[0].Pushing?;
      assert Apply(k, a, GiveUp(0)).threads[0].Outside?;
      var more := CanFinish(k, Apply(k, a, GiveUp(0)));
      es := [GiveUp(0)] + more;
      assert es[1..] == more;
    } else {
      es := CanFinish(k, a);
    }
  }
}
