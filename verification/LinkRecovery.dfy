module LinkRecovery {
  // Recovery of the link to one node: on_link_dead may be entered by any number
  // of threads at any time, and hands over to a single recover_node coroutine.
  // Each event is one lock-guarded block or one call; shutdown is not in
  // progress.

  import opened Prelude

  datatype Thread =
    | Idle
    | Notified                // entered on_link_dead
    | LookedUp(have: bool)    // removed the pooled address, if there was one
    | Submitting              // told to start recover_node
    | Sleeping                // recover_node at the top of an iteration
    | Live                    // found the node in the live set
    | Tried                   // connect_to_node returned, frames resent
    | AgainRead(again: bool)  // read and cleared m_recover_again
    | Closing                 // nothing left to do, about to clear m_recovering

  datatype Link = Link(
    pooled: bool,           // m_connections has an address for the node
    recovering: bool,
    again: bool,
    tasks: nat,             // recover_node submitted and not yet started
    threads: seq<Thread>,
    owed: bool)             // history: a notice since the running iteration began

  datatype Event =
    | Notify(t: nat)
    | LookUp(t: nat)
    | Decide(t: nat)
    | Submit(t: nat)
    | Start(t: nat)
    | CheckLive(t: nat, live: bool)
    | TryConnect(t: nat, pooled: bool)
    | ReadAgain(t: nat)
    | Judge(t: nat, quiet: bool)     // quiet: connection valid, nothing flagged
    | LastCheck(t: nat)
    | PoolElsewhere(t: nat)          // gossip pools a connection

  function Init(threads: nat, pooled: bool): Link {
    Link(pooled, false, false, 0, seq(threads, _ => Idle), false)
  }

  function Go(l: Link, t: nat, p: Thread): Link
    requires t < |l.threads|
  {
    l.(threads := l.threads[t := p])
  }

  predicate Takes(l: Link, e: Event) {
    && e.t < |l.threads|
    && var p := l.threads[e.t];
       match e
       case Notify(_) => p.Idle?
       case LookUp(_) => p.Notified?
       case Decide(_) => p.LookedUp?
       case Submit(_) => p.Submitting?
       case Start(_) => p.Idle? && l.tasks > 0
       case CheckLive(_, _) => p.Sleeping?
       case TryConnect(_, _) => p.Live?
       case ReadAgain(_) => p.Tried?
       case Judge(_, _) => p.AgainRead?
       case LastCheck(_) => p.Closing?
       case PoolElsewhere(_) => true
  }

  // The block of on_link_dead under m_recover_mu.
  function DecideStep(l: Link, t: nat, have: bool): Link
    requires t < |l.threads|
  {
    if !have && !l.recovering then Go(l, t, Idle)
    else if l.recovering then Go(l, t, Idle).(again := true, owed := true)
    else Go(l, t, if have then Submitting else Idle).(recovering := true, again := false)
  }

  function Step(l: Link, e: Event): Link
    requires Takes(l, e)
  {
    var t, p := e.t, l.threads[e.t];
    match e
    case Notify(_) => Go(l, t, Notified)
    case LookUp(_) => Go(l, t, LookedUp(l.pooled)).(pooled := false)
    case Decide(_) => DecideStep(l, t, p.have)
    case Submit(_) => Go(l, t, Idle).(tasks := l.tasks + 1)
    case Start(_) => Go(l, t, Sleeping).(tasks := l.tasks - 1)
    case CheckLive(_, live) =>
      if live then Go(l, t, Live) else Go(l, t, Idle).(recovering := false, again := false, owed := false)
    case TryConnect(_, pooled) => Go(l, t, Tried).(pooled := l.pooled || pooled)
    case ReadAgain(_) => Go(l, t, AgainRead(l.again)).(again := false)
    case Judge(_, quiet) =>
      if p.again || !quiet then Go(l, t, Sleeping).(owed := false) else Go(l, t, Closing)
    case LastCheck(_) =>
      if l.again then Go(l, t, Sleeping).(again := false, owed := false)
      else Go(l, t, Idle).(recovering := false)
    case PoolElsewhere(_) => l.(pooled := true)
  }

  function Apply(l: Link, e: Event): Link {
    if Takes(l, e) then Step(l, e) else l
  }

  // ---- the invariant ----------------------------------------------------------

  // A recover_node coroutine, or a thread about to submit one.
  function Active(p: Thread): nat {
    if p.Submitting? || Coroutine(p) then 1 else 0
  }

  predicate Coroutine(p: Thread) {
    p.Sleeping? || p.Live? || p.Tried? || p.AgainRead? || p.Closing?
  }

  // A coroutine that has already read that it must go round again.
  function WillRepeat(p: Thread): nat {
    if p.AgainRead? && p.again then 1 else 0
  }

  ghost predicate Inv(l: Link) {
    && l.tasks + Sum(l.threads, Active) == (if l.recovering then 1 else 0)
    && (l.owed ==> l.recovering && (l.again || Sum(l.threads, WillRepeat) > 0))
  }

  lemma InitInv(threads: nat, pooled: bool)
    ensures Inv(Init(threads, pooled))
  {
    SumZero(Init(threads, pooled).threads, Active);
  }

  lemma {:induction false} RepeatersAreActive(s: seq<Thread>)
    ensures Sum(s, WillRepeat) <= Sum(s, Active)
  {
    if s != [] {
      RepeatersAreActive(s[1..]);
    }
  }

  // If the only active thread is one that will not repeat, none will.
  lemma NoOtherRepeats(l: Link, t: nat)
    requires t < |l.threads| && Active(l.threads[t]) == 1 && WillRepeat(l.threads[t]) == 0
    requires Sum(l.threads, Active) <= 1
    ensures Sum(l.threads, WillRepeat) == 0
  {
    var r := l.threads[t := Idle];
    SumUpdate(l.threads, t, Idle, Active);
    SumUpdate(l.threads, t, Idle, WillRepeat);
    RepeatersAreActive(r);
  }

  lemma StepMoves(l: Link, e: Event)
    requires Takes(l, e)
    ensures var l' := Step(l, e);
            && |l'.threads| == |l.threads|
            && var p, q := l.threads[e.t], l'.threads[e.t];
               && Sum(l'.threads, Active) + Active(p) == Sum(l.threads, Active) + Active(q)
               && Sum(l'.threads, WillRepeat) + WillRepeat(p) == Sum(l.threads, WillRepeat) + WillRepeat(q)
               && Active(p) <= Sum(l.threads, Active)
  {
    hide Sum;
    var q := Step(l, e).threads[e.t];
    assert Step(l, e).threads == l.threads[e.t := q];
    SumUpdate(l.threads, e.t, q, Active);
    SumUpdate(l.threads, e.t, q, WillRepeat);
    SumAtLeast(l.threads, e.t, Active);
  }

  lemma StepInv(l: Link, e: Event)
    requires Inv(l)
    ensures Inv(Apply(l, e)) && |Apply(l, e).threads| == |l.threads|
  {
    hide Sum;
    if Takes(l, e) {
      StepMoves(l, e);
      if Active(l.threads[e.t]) == 1 && WillRepeat(l.threads[e.t]) == 0 {
        NoOtherRepeats(l, e.t);
      }
    }
  }

  ghost function Exec(l: Link, es: seq<Event>): (l': Link)
    requires Inv(l)
    ensures Inv(l') && |l'.threads| == |l.threads|
    decreases |es|
  {
    if es == [] then l
    else
      StepInv(l, es[0]);
      Exec(Apply(l, es[0]), es[1..])
  }

  // ---- what recovery promises ----------------------------------------------------

  // In every run at most one recover_node exists, submitted or running.
  lemma OneRecovery(threads: nat, pooled: bool, es: seq<Event>, t: nat, u: nat)
    requires t < u < threads
    ensures Inv(Init(threads, pooled))
    ensures var l := Exec(Init(threads, pooled), es);
            l.tasks + Active(l.threads[t]) + Active(l.threads[u]) <= 1
  {
    InitInv(threads, pooled);
    SumAtLeastTwo(Exec(Init(threads, pooled), es).threads, t, u, Active);
  }

  // m_recovering is cleared only by the node-not-live exit, or when no
  // iteration is owed: every notice has been followed by a new iteration.
  lemma ClearedOnlyWhenPaid(l: Link, e: Event)
    requires Inv(l) && l.recovering && !Apply(l, e).recovering
    ensures (e.CheckLive? && !e.live) || (e.LastCheck? && !l.owed)
    ensures Takes(l, e) && Coroutine(l.threads[e.t])
  {
    SumAtLeast(l.threads, e.t, Active);
    if e.LastCheck? {
      NoOtherRepeats(l, e.t);
    }
  }

  // ---- every notice is answered ----------------------------------------------------

  ghost function Run(threads: nat, pooled: bool, es: seq<Event>): (l: Link)
    ensures Inv(l) && |l.threads| == threads
  {
    InitInv(threads, pooled);
    Exec(Init(threads, pooled), es)
  }

  lemma {:induction false} ExecSnoc(l: Link, es: seq<Event>, e: Event)
    requires Inv(l)
    ensures Exec(l, es + [e]) == Apply(Exec(l, es), e)
    decreases |es|
  {
    StepInv(l, (es + [e])[0]);
    if es == [] {
      assert Exec(Apply(l, e), []) == Apply(l, e);
    } else {
      assert (es + [e])[1..] == es[1..] + [e];
      ExecSnoc(Apply(l, es[0]), es[1..], e);
    }
  }

  lemma RunStep(threads: nat, pooled: bool, es: seq<Event>, k: nat)
    requires k < |es|
    ensures Run(threads, pooled, es[..k + 1]) == Apply(Run(threads, pooled, es[..k]), es[k])
  {
    InitInv(threads, pooled);
    assert es[..k + 1] == es[..k] + [es[k]];
    ExecSnoc(Init(threads, pooled), es[..k], es[k]);
  }

  // This step submits a recover_node, or begins one of its iterations.
  ghost predicate Progress(l: Link, e: Event) {
    Takes(l, e) && (e.Submit? || Step(l, e).threads[e.t].Sleeping?)
  }

  // on_link_dead found the pooled address and is about to decide.
  ghost predicate Noticed(l: Link, e: Event) {
    e.Decide? && e.t < |l.threads| && l.threads[e.t] == LookedUp(true)
  }

  // m_recovering goes from true to false, not by the node-not-live exit.
  ghost predicate Settles(l: Link, e: Event) {
    l.recovering && !Apply(l, e).recovering && !(e.CheckLive? && !e.live)
  }

  function InFlight(p: Thread): nat {
    if Coroutine(p) then 1 else 0
  }

  // A notice waits for a new iteration of the running coroutine, or for a
  // coroutine that is yet to be submitted.
  ghost predicate Owing(l: Link) {
    l.owed || l.tasks + Sum(l.threads, InFlight) == 0
  }

  lemma {:induction false} CoroutinesAreActive(s: seq<Thread>)
    ensures Sum(s, InFlight) <= Sum(s, Active)
  {
    if s != [] {
      CoroutinesAreActive(s[1..]);
    }
  }

  lemma CoroutineMoves(l: Link, e: Event)
    requires Takes(l, e)
    ensures Sum(Step(l, e).threads, InFlight) + InFlight(l.threads[e.t])
            == Sum(l.threads, InFlight) + InFlight(Step(l, e).threads[e.t])
  {
    hide Sum;
    var q := Step(l, e).threads[e.t];
    assert Step(l, e).threads == l.threads[e.t := q];
    SumUpdate(l.threads, e.t, q, InFlight);
  }

  // With nobody recovering there is no coroutine.
  lemma NoneRecovering(l: Link)
    requires Inv(l) && !l.recovering
    ensures l.tasks + Sum(l.threads, InFlight) == 0
  {
    CoroutinesAreActive(l.threads);
  }

  // A dead link whose address was pooled starts a recovery, or leaves the
  // running one owing another iteration.
  lemma NoticeOwes(l: Link, e: Event)
    requires Inv(l) && Noticed(l, e)
    ensures Apply(l, e).recovering && Owing(Apply(l, e))
  {
    hide Sum;
    CoroutineMoves(l, e);
    if !l.recovering {
      NoneRecovering(l);
    }
  }

  // What is owed stays owed until a recovery is submitted or an iteration begins.
  lemma OwingKept(l: Link, e: Event)
    requires Inv(l) && Owing(l) && !Progress(l, e)
    ensures Owing(Apply(l, e))
  {
    hide Sum;
    StepInv(l, e);
    if Takes(l, e) {
      CoroutineMoves(l, e);
      if !Apply(l, e).recovering {
        NoneRecovering(Apply(l, e));
      }
    }
  }

  lemma {:induction false} OwingUntil(threads: nat, pooled: bool, es: seq<Event>, i: nat, m: nat)
    requires i < m <= |es| && Noticed(Run(threads, pooled, es[..i]), es[i])
    requires forall k | i < k < m :: !Progress(Run(threads, pooled, es[..k]), es[k])
    ensures Owing(Run(threads, pooled, es[..m]))
  {
    var k := m - 1;
    hide Owing, Noticed, Progress, Run, Inv;
    RunStep(threads, pooled, es, k);
    if k == i {
      NoticeOwes(Run(threads, pooled, es[..i]), es[i]);
    } else {
      OwingUntil(threads, pooled, es, i, k);
      OwingKept(Run(threads, pooled, es[..k]), es[k]);
    }
  }

  // In every run: after a notice that found a pooled address, m_recovering is
  // not cleared (but by the node-not-live exit) before a recovery has been
  // submitted or an iteration begun.
  lemma NoticeIsAnswered(threads: nat, pooled: bool, es: seq<Event>, i: nat, j: nat)
    requires i < j < |es|
    requires Noticed(Run(threads, pooled, es[..i]), es[i])
    requires Settles(Run(threads, pooled, es[..j]), es[j])
    ensures exists k | i < k < j :: Progress(Run(threads, pooled, es[..k]), es[k])
  {
    if forall k | i < k < j :: !Progress(Run(threads, pooled, es[..k]), es[k]) {
      var l := Run(threads, pooled, es[..j]);
      OwingUntil(threads, pooled, es, i, j);
      ClearedOnlyWhenPaid(l, es[j]);
      SumAtLeast(l.threads, es[j].t, InFlight);
      assert false;
    }
  }

  // ---- how a recovery ends --------------------------------------------------------

  lemma SamePrefixes(es: seq<Event>, n: nat)
    requires n <= |es|
    ensures forall k | 0 <= k <= n :: es[..n][..k] == es[..k]
  {
  }

  lemma OnlyCoroutineCloses(l: Link, e: Event, t: nat)
    requires t < |l.threads| && Takes(l, e) && Step(l, e).threads[t].Closing? && !l.threads[t].Closing?
    ensures e == Judge(t, true) && l.threads[t] == AgainRead(false)
  {
  }

  lemma RunOfNothing(threads: nat, pooled: bool)
    ensures forall t | 0 <= t < threads :: Run(threads, pooled, []).threads[t].Idle?
  {
  }

  // A coroutine about to clear m_recovering has judged the link quiet, and
  // nothing has begun an iteration since.
  lemma {:induction false} ClosingWasQuiet(threads: nat, pooled: bool, es: seq<Event>, t: nat)
    requires t < threads && Run(threads, pooled, es).threads[t].Closing?
    ensures exists i :: 0 <= i < |es| && es[i] == Judge(t, true)
                        && forall k | i < k <= |es| :: Run(threads, pooled, es[..k]).threads[t].Closing?
    decreases |es|
  {
    if es == [] {
      RunOfNothing(threads, pooled);
    } else {
      var n := |es| - 1;
      assert es[..n + 1] == es;
      RunStep(threads, pooled, es, n);
      var before := es[..n];
      var l := Run(threads, pooled, before);
      if l.threads[t].Closing? {
        ClosingWasQuiet(threads, pooled, before, t);
        var i :| 0 <= i < |before| && before[i] == Judge(t, true)
                 && forall k | i < k <= |before| :: Run(threads, pooled, before[..k]).threads[t].Closing?;
        SamePrefixes(es, n);
        assert es[i] == Judge(t, true);
      } else {
        OnlyCoroutineCloses(l, es[n], t);
        assert es[n] == Judge(t, true);
      }
    }
  }

  // In every run, m_recovering is cleared, but by the node-not-live exit, only by
  // a coroutine that found the connection valid and nothing flagged, with no
  // iteration of its begun since.
  lemma SettlesWhenQuiet(threads: nat, pooled: bool, es: seq<Event>)
    requires es != [] && Settles(Run(threads, pooled, es[..|es| - 1]), es[|es| - 1])
    ensures var n := |es| - 1;
            && es[n].LastCheck? && es[n].t < threads
            && exists i :: 0 <= i < n && es[i] == Judge(es[n].t, true)
                           && forall k | i < k <= n :: Run(threads, pooled, es[..k]).threads[es[n].t].Closing?
  {
    var n := |es| - 1;
    var before := es[..n];
    ClearedOnlyWhenPaid(Run(threads, pooled, before), es[n]);
    ClosingWasQuiet(threads, pooled, before, es[n].t);
    var i :| 0 <= i < |before| && before[i] == Judge(es[n].t, true)
             && forall k | i < k <= |before| :: Run(threads, pooled, before[..k]).threads[es[n].t].Closing?;
    SamePrefixes(es, n);
    assert es[i] == Judge(es[n].t, true);
  }

  // ---- a recovery can end ------------------------------------------------------------

  // No further notice; the node is live, connects, and has nothing flagged.
  ghost predicate Calm(es: seq<Event>) {
    forall e | e in es :: !e.Notify? && !e.PoolElsewhere? && (e.CheckLive? ==> e.live) && (e.Judge? ==> e.quiet)
  }

  function Notices(p: Thread): nat {
    if p.Notified? || p.LookedUp? then 1 else 0
  }

  function Stage(p: Thread): nat {
    match p
    case Idle => 0
    case Notified => 9
    case LookedUp(_) => 8
    case Submitting => 7
    case Sleeping => 5
    case Live => 4
    case Tried => 3
    case AgainRead(_) => 2
    case Closing => 1
  }

  function Repeats(l: Link): nat {
    Sum(l.threads, WillRepeat) + if l.again then 1 else 0
  }

  predicate Settled(l: Link) {
    l.tasks == 0 && forall t | 0 <= t < |l.threads| :: l.threads[t].Idle?
  }

  predicate Nearer(l: Link, m: Link) {
    var a, b := Sum(l.threads, Notices), Sum(m.threads, Notices);
    || a < b
    || (a == b && (|| Repeats(l) < Repeats(m)
                   || (Repeats(l) == Repeats(m)
                       && Sum(l.threads, Stage) + 6 * l.tasks < Sum(m.threads, Stage) + 6 * m.tasks)))
  }

  lemma RecoveryGoesOn(l: Link) returns (e: Event)
    requires Inv(l) && !Settled(l) && |l.threads| > 0
    ensures Calm([e]) && Nearer(Apply(l, e), l)
  {
    if t :| 0 <= t < |l.threads| && !l.threads[t].Idle? {
      match l.threads[t] {
      case Notified => e := LookUp(t);
      case LookedUp(_) => e := Decide(t);
      case Submitting => e := Submit(t);
      case Sleeping => e := CheckLive(t, true);
      case Live => e := TryConnect(t, true);
      case Tried => e := ReadAgain(t);
      case AgainRead(_) => e := Judge(t, true);
      case Closing => e := LastCheck(t);
      }
    } else {
      e := Start(0);
    }
    Sooner(l, e);
    MovesNearer(l, e);
  }

  // What one thread's next step takes off.
  predicate Less(p: Thread, again: bool, q: Thread, again': bool, taken: nat, taken': nat) {
    || Notices(q) < Notices(p)
    || (Notices(q) == Notices(p)
        && var a, b := WillRepeat(q) + (if again' then 1 else 0), WillRepeat(p) + (if again then 1 else 0);
           a < b || (a == b && Stage(q) + 6 * taken' < Stage(p) + 6 * taken))
  }

  lemma Sooner(l: Link, e: Event)
    requires Takes(l, e) && !e.Notify? && !e.PoolElsewhere?
    requires (e.CheckLive? ==> e.live) && (e.Judge? ==> e.quiet)
    ensures |Step(l, e).threads| == |l.threads|
    ensures Less(l.threads[e.t], l.again, Step(l, e).threads[e.t], Step(l, e).again, l.tasks, Step(l, e).tasks)
  {
    match e
    case LookUp(_) =>
    case Decide(_) =>
    case Submit(_) =>
    case Start(_) =>
    case CheckLive(_, _) =>
    case TryConnect(_, _) =>
    case ReadAgain(_) =>
    case Judge(_, _) =>
    case LastCheck(_) =>
  }

  lemma MovesNearer(l: Link, e: Event)
    requires Takes(l, e) && |Step(l, e).threads| == |l.threads|
    requires Less(l.threads[e.t], l.again, Step(l, e).threads[e.t], Step(l, e).again, l.tasks, Step(l, e).tasks)
    ensures Nearer(Apply(l, e), l)
  {
    StepMoves(l, e);
    var q := Step(l, e).threads[e.t];
    assert Step(l, e).threads == l.threads[e.t := q];
    hide Step, Sum;
    SumUpdate(l.threads, e.t, q, Notices);
    SumUpdate(l.threads, e.t, q, Stage);
  }

  // From every reachable state, once no more notices come and the node is live,
  // connects and has nothing flagged, whatever recovery there is ends, and
  // m_recovering with it.
  lemma {:induction false} CanSettle(l: Link) returns (es: seq<Event>)
    requires Inv(l) && |l.threads| > 0
    ensures Calm(es) && Settled(Exec(l, es)) && !Exec(l, es).recovering
    decreases Sum(l.threads, Notices), Repeats(l), Sum(l.threads, Stage) + 6 * l.tasks
  {
    if Settled(l) {
      SumZero(l.threads, Active);
      es := [];
    } else {
      hide Inv, Sum, Apply, Settled;
      var e := RecoveryGoesOn(l);
      StepInv(l, e);
      var more := CanSettle(Apply(l, e));
      es := [e] + more;
      assert es[1..] == more;
    }
  }

  // ---- what starts and repeats a recovery ------------------------------------------------

  // A notice handled with no other thread in between starts a recovery exactly
  // when it found a pooled address and none is under way; if one is under way it
  // is told to go round again.
  lemma NoticeAlone(l: Link, t: nat)
    requires t < |l.threads| && l.threads[t].Idle?
    ensures var l' := Apply(Apply(Apply(l, Notify(t)), LookUp(t)), Decide(t));
            && !l'.pooled && l'.tasks == l.tasks
            && l'.threads == l.threads[t := if l.pooled && !l.recovering then Submitting else Idle]
            && l'.recovering == (l.recovering || l.pooled) && (l.recovering ==> l'.again)
  {
  }

  // A connection pooled is found by the first notice to look, and by no second.
  lemma PooledOnce(l: Link, e: Event, u: nat, v: nat)
    requires Takes(l, e) && (e.PoolElsewhere? || (e.TryConnect? && e.pooled)) && u != v
    requires u < |l.threads| && v < |l.threads| && l.threads[u].Notified? && l.threads[v].Notified?
    ensures var l' := Apply(Apply(Apply(l, e), LookUp(u)), LookUp(v));
            l'.threads[u] == LookedUp(true) && l'.threads[v] == LookedUp(false) && !l'.pooled
  {
    var m := Apply(l, e);
    assert m.pooled && m.threads[u] == m.threads[v] == Notified;
    hide Takes, Step;
    LookFinds(m, u);
    LookFinds(Apply(m, LookUp(u)), v);
  }

  lemma LookFinds(l: Link, t: nat)
    requires t < |l.threads| && l.threads[t].Notified?
    ensures Apply(l, LookUp(t)) == l.(threads := l.threads[t := LookedUp(l.pooled)], pooled := false)
  {
  }

  // How often, in a run, an event happens that w counts.
  ghost function Tally(l: Link, es: seq<Event>, w: (Link, Event) -> nat): nat
    requires Inv(l)
    decreases |es|
  {
    if es == [] then 0
    else
      StepInv(l, es[0]);
      w(l, es[0]) + Tally(Apply(l, es[0]), es[1..], w)
  }

  // A notice hands over to a new recovery, ...
  function Starts(l: Link, e: Event): nat {
    if Takes(l, e) && e.Decide? && e.t < |Step(l, e).threads| && Step(l, e).threads[e.t].Submitting? then 1 else 0
  }

  // ... and a connection is pooled.
  function Pools(l: Link, e: Event): nat {
    if Takes(l, e) && (e.PoolElsewhere? || (e.TryConnect? && e.pooled)) then 1 else 0
  }

  // The coroutine begins an iteration although the link was quiet, ...
  function Rounds(l: Link, e: Event): nat {
    if Takes(l, e) && ((e.Judge? && e.quiet) || e.LastCheck?)
       && e.t < |Step(l, e).threads| && Step(l, e).threads[e.t].Sleeping? then 1 else 0
  }

  // ... and a notice finds a recovery under way.
  function Raises(l: Link, e: Event): nat {
    if Takes(l, e) && e.Decide? && l.recovering then 1 else 0
  }

  function Found(p: Thread): nat {
    if p.LookedUp? && p.have then 1 else 0
  }

  function InHand(l: Link): nat {
    Sum(l.threads, Found) + if l.pooled then 1 else 0
  }

  lemma StartIsPaid(l: Link, e: Event)
    ensures Starts(l, e) + InHand(Apply(l, e)) <= InHand(l) + Pools(l, e)
  {
    hide Sum;
    if Takes(l, e) {
      var q := Step(l, e).threads[e.t];
      assert Step(l, e).threads == l.threads[e.t := q];
      SumUpdate(l.threads, e.t, q, Found);
    }
  }

  lemma RoundIsPaid(l: Link, e: Event)
    ensures Rounds(l, e) + Repeats(Apply(l, e)) <= Repeats(l) + Raises(l, e)
  {
    hide Sum;
    if Takes(l, e) {
      var q := Step(l, e).threads[e.t];
      assert Step(l, e).threads == l.threads[e.t := q];
      SumUpdate(l.threads, e.t, q, WillRepeat);
    }
  }

  lemma {:induction false} RunPays(l: Link, es: seq<Event>)
    requires Inv(l)
    ensures Tally(l, es, Starts) + InHand(Exec(l, es)) <= InHand(l) + Tally(l, es, Pools)
    ensures Tally(l, es, Rounds) + Repeats(Exec(l, es)) <= Repeats(l) + Tally(l, es, Raises)
    decreases |es|
  {
    hide Inv, Apply, InHand, Repeats;
    if es != [] {
      StepInv(l, es[0]);
      StartIsPaid(l, es[0]);
      RoundIsPaid(l, es[0]);
      RunPays(Apply(l, es[0]), es[1..]);
    }
  }

  // In every run each connection pooled starts at most one recovery, and each
  // notice that finds one under way makes it go round at most once more.
  lemma EachNoticeOnce(threads: nat, pooled: bool, es: seq<Event>)
    ensures Inv(Init(threads, pooled))
    ensures var l := Init(threads, pooled);
            && Tally(l, es, Starts) <= Tally(l, es, Pools) + (if pooled then 1 else 0)
            && Tally(l, es, Rounds) <= Tally(l, es, Raises)
  {
    InitInv(threads, pooled);
    var l := Init(threads, pooled);
    SumZero(l.threads, Found);
    SumZero(l.threads, WillRepeat);
    RunPays(l, es);
  }
}
