// A connection's receive path gets somewhere: what the kernel delivered can be
// read to the end, and a cleanup can be finished, with every buffer given back;
// but the callback is disposed of only if the stream had not ended before it.
module ReceiveProgress {
  import opened Prelude
  import opened BufferRing

  lemma Next(v: View, e: Event, es: seq<Event>)
    requires Inv(v)
    ensures Inv(Apply(v, e)) && Exec(v, [e] + es) == Exec(Apply(v, e), es)
  {
    hide Inv, Apply;
    Exec1(v, [e] + es);
    assert ([e] + es)[1..] == es;
  }

  // ---- reading ---------------------------------------------------------------------

  // What the handler and the reading coroutine do by themselves.
  predicate Reads(e: Event) {
    e.Handle? || e.Take? || e == Marks(Ask) || e == Marks(Suspend) || e == Moves(Append)
  }

  predicate AllRead(v: View) {
    v.posted == v.queue == v.hand == []
  }

  function ReaderStage(r: Reader): nat {
    match r
    case Running => 3
    case Asking => 2
    case Resuming => 1
    case Sleeping => 0
  }

  function ToRead(v: View): nat {
    10 * |v.posted| + 6 * |v.queue| + |v.hand| + ReaderStage(v.st.reader)
  }

  lemma HandleReads(v: View)
    requires Awake(v) && v.st.phase.Using? && v.posted != []
    ensures Takes(v, Handle) && ToRead(Step(v, Handle)) < ToRead(v)
    ensures Step(v, Handle).st.phase.Using? && Step(v, Handle).received == v.received
  {
    hide Bids, Terminal;
  }

  lemma MarkReads(v: View)
    requires Awake(v) && v.st.phase.Using? && v.queue != []
    requires v.st.reader.Running? || v.st.reader.Asking?
    ensures var m := if v.st.reader.Running? then Ask else Suspend;
            && MayMark(v, m) && ToRead(StepMark(v, m)) < ToRead(v)
            && StepMark(v, m).st.phase.Using? && StepMark(v, m).received == v.received
  {
  }

  lemma TakeReads(v: View)
    requires v.st.phase.Using? && v.queue != [] && v.st.reader.Resuming?
    ensures Takes(v, Take) && ToRead(StepTake(v)) < ToRead(v)
    ensures StepTake(v).st.phase.Using? && StepTake(v).received == v.received
  {
    hide StepTake;
    TakeIs(v);
  }

  lemma AppendReads(v: View)
    requires v.st.phase.Using? && v.hand != []
    ensures Takes(v, Moves(Append)) && ToRead(StepAppend(v)) < ToRead(v)
    ensures StepAppend(v).st.phase.Using? && StepAppend(v).received == v.received
  {
    hide Bids, BytesOf;
  }

  lemma ReadGoesOn(v: View) returns (e: Event)
    requires Inv(v) && v.st.phase.Using? && !AllRead(v)
    ensures Reads(e) && ToRead(Apply(v, e)) < ToRead(v)
    ensures Apply(v, e).st.phase.Using? && Apply(v, e).received == v.received
  {
    hide Owned, Fitting, Intact, EndsOnce, Disposal, Unstarted, ToRead, Step;
    if v.hand != [] {
      e := Moves(Append);
      AppendReads(v);
      assert Step(v, e) == StepAppend(v) by { StepIs(v, e); }
    } else if v.posted != [] {
      e := Handle;
      HandleReads(v);
    } else if v.st.reader.Resuming? {
      e := Take;
      TakeReads(v);
      assert Step(v, e) == StepTake(v) by { StepIs(v, e); }
    } else {
      e := Marks(if v.st.reader.Running? then Ask else Suspend);
      MarkReads(v);
      assert Step(v, e) == StepMark(v, e.mark) by { StepIs(v, e); }
    }
  }

  lemma StepIs(v: View, e: Event)
    requires Takes(v, e)
    ensures e == Moves(Append) ==> Step(v, e) == StepAppend(v)
    ensures e == Take ==> Step(v, e) == StepTake(v)
    ensures e.Marks? ==> Step(v, e) == StepMark(v, e.mark)
  {
    hide StepTake, StepAppend, StepMark;
  }

  // From every reachable state before cleanup, the handler and the reader can
  // bring everything received to the consumer, in order and complete.
  lemma {:induction false} CanReadAll(v: View) returns (es: seq<Event>)
    requires Inv(v) && v.st.phase.Using?
    ensures forall e | e in es :: Reads(e)
    ensures var w := Exec(v, es);
            AllRead(w) && w.received == v.received && w.consumed + w.reasm == v.received
    decreases ToRead(v)
  {
    if AllRead(v) {
      es := [];
      hide Owned, Fitting, Flagged;
      var front := v.consumed + v.reasm;
      FrontOf(front, Payload(v.memory, v.hand), Payload(v.memory, v.queue), Payload(v.memory, v.posted));
    } else {
      hide Inv, AllRead, ToRead, Apply;
      var e := ReadGoesOn(v);
      Next(v, e, []);
      es := CanReadAll(Apply(v, e));
      Next(v, e, es);
      es := [e] + es;
    }
  }

  // ---- cleaning up -------------------------------------------------------------------

  // Cleanup, the kernel's last completion, and the handler after it.
  predicate Cleans(e: Event) {
    match e
    case PostEnd(_) => true
    case Handle => true
    case Drain => true
    case Marks(m) => m.Dispose? || m.Lock? || m.Abandon? || m.Detach?
    case Moves(m) => m.Append? || m.GivePending? || m.Publish?
    case _ => false
  }

  // Cleanup is over and the kernel has nothing left to say.
  predicate Over(v: View) {
    v.st.phase.Gone? && !v.st.armed && v.posted == [] && v.giving == [] && !v.st.disposing
  }

  function Rank(p: Phase): nat {
    match p
    case Using => 3
    case Draining => 2
    case Unlocked => 1
    case Gone => 0
  }

  function NextCleaning(v: View): Event {
    if v.giving != [] then Moves(Publish)
    else if v.st.disposing then Marks(Dispose)
    else
      match v.st.phase
      case Using => if v.hand != [] then Moves(Append) else if v.pending != [] then Moves(GivePending) else Marks(Lock)
      case Draining => if v.queue != [] then Drain else Marks(Abandon)
      case Unlocked => Marks(Detach)
      case Gone => if v.st.armed then PostEnd(0) else Handle
  }

  // What is left, in the order it goes.
  predicate Nearer(w: View, v: View) {
    var (a, b) := (Rank(w.st.phase), Rank(v.st.phase));
    a < b || (a == b && NearerIn(w, v))
  }

  predicate NearerIn(w: View, v: View) {
    var (a, b) := (w.st.armed, v.st.armed);
    || (b && !a)
    || (a == b && (|| |w.posted| < |v.posted|
                   || (|w.posted| == |v.posted| && NearerBuffers(w, v))))
  }

  predicate NearerBuffers(w: View, v: View) {
    var (m, n) := (|w.queue| + |w.hand|, |v.queue| + |v.hand|);
    || m < n
    || (m == n && (|| (v.st.disposing && !w.st.disposing)
                   || (v.st.disposing == w.st.disposing
                       && (|| |w.pending| < |v.pending|
                           || (|w.pending| == |v.pending| && |w.giving| < |v.giving|)))))
  }

  lemma CleaningTakes(v: View)
    requires Inv(v) && !Over(v)
    ensures Takes(v, NextCleaning(v)) && Cleans(NextCleaning(v))
  {
    hide Owned, Fitting, Intact, EndsOnce, Disposal, Unstarted;
  }

  lemma CleaningNearer(v: View)
    requires Inv(v) && !Over(v) && Takes(v, NextCleaning(v))
    ensures Nearer(Step(v, NextCleaning(v)), v)
  {
    hide Owned, Fitting, Intact, EndsOnce, Disposal, Unstarted, Bids, BytesOf, Terminal;
    match NextCleaning(v)
    case PostEnd(_) =>
    case Handle =>
    case Drain =>
    case Marks(m) => MarkNearer(v, m);
    case Moves(m) => MoveNearer(v, m);
  }

  lemma MarkNearer(v: View, m: Mark)
    requires MayMark(v, m) && (m.Dispose? || m.Lock? || m.Abandon? || m.Detach?)
    ensures Nearer(StepMark(v, m), v)
  {
  }

  lemma MoveNearer(v: View, m: Move)
    requires MayMove(v, m) && (m.Append? || (m.GivePending? && v.pending != []) || m.Publish?)
    ensures Nearer(StepMove(v, m), v)
  {
    hide Bids, BytesOf;
  }

  // From every reachable state cleanup can be finished, by itself, the kernel's
  // last completion and the handler; then all the connection was lent is back in
  // the ring, unless something was lost before.
  lemma {:induction false} CanCleanUp(v: View) returns (es: seq<Event>)
    requires Inv(v)
    ensures (forall e | e in es :: Cleans(e)) && Over(Exec(v, es))
    ensures var w := Exec(v, es);
            v.lost == [] && !v.st.abandoned ==> multiset(w.ring) + w.others == multiset(Upto(v.n))
    decreases Rank(v.st.phase), v.st.armed, |v.posted|, |v.queue| + |v.hand|, v.st.disposing, |v.pending|, |v.giving|
  {
    es := Cleaning(v);
    if v.lost == [] && !v.st.abandoned {
      LostBy(v, es, false);
      NoSecondCleanup(v, es);
      OverIsBack(Exec(v, es));
    }
  }

  lemma OverIsBack(v: View)
    requires Inv(v) && Over(v) && v.lost == []
    ensures multiset(v.ring) + v.others == multiset(Upto(v.n))
  {
    assert v.st.abandoned by {
      hide Owned, Fitting, Intact, EndsOnce, Disposal, Unstarted;
    }
    AllBack(v);
  }

  lemma {:induction false} NoSecondCleanup(v: View, es: seq<Event>)
    requires forall e | e in es :: e != Marks(Again)
    ensures !Wasted(v, es, false)
    decreases |es|
  {
    hide Apply, Takes;
    if es != [] {
      assert es[0] in es && forall e | e in es[1..] :: e in es;
      NoSecondCleanup(Apply(v, es[0]), es[1..]);
    }
  }

  lemma CleanGoesOn(v: View) returns (e: Event)
    requires Inv(v) && !Over(v)
    ensures Cleans(e) && Inv(Apply(v, e)) && Nearer(Apply(v, e), v)
  {
    hide Inv, Over, Step, Takes, NextCleaning, Cleans, Nearer;
    e := NextCleaning(v);
    CleaningTakes(v);
    CleaningNearer(v);
    StepInv(v, e);
  }

  lemma {:induction false} Cleaning(v: View) returns (es: seq<Event>)
    requires Inv(v)
    ensures (forall e | e in es :: Cleans(e)) && Over(Exec(v, es))
    decreases Rank(v.st.phase), v.st.armed, |v.posted|, |v.queue| + |v.hand|, v.st.disposing, |v.pending|, |v.giving|
  {
    hide Inv, Over, Apply, Cleans, Rank;
    if Over(v) {
      es := [];
    } else {
      var e := CleanGoesOn(v);
      var more := Cleaning(Apply(v, e));
      Next(v, e, more);
      es := [e] + more;
    }
  }

  // ---- who deletes the callback ----------------------------------------------------------

  // The request was armed at some step of the run.
  ghost predicate Opens(v: View, es: seq<Event>)
    decreases |es|
  {
    es != [] && (OpensNow(v, es[0]) || Opens(Apply(v, es[0]), es[1..]))
  }

  predicate OpensNow(v: View, e: Event) {
    e == Marks(Start(true)) && Takes(v, e)
  }

  // Once armed, the request's end is to come, or was handled before cleanup, or
  // after it.
  ghost predicate Follows(v: View, armedOnce: bool) {
    && (armedOnce ==> Busy(v) || v.st.stopped || v.st.lateEnd)
    && (!armedOnce ==> !Busy(v) && !v.st.stopped && !v.st.lateEnd)
    && !(v.st.stopped && v.st.lateEnd)
  }

  lemma HandleFollows(v: View, armedOnce: bool)
    requires Inv(v) && Follows(v, armedOnce) && Takes(v, Handle)
    ensures Follows(StepHandle(v), armedOnce)
  {
    hide Owned, Fitting, Intact, Unstarted, Awake, Bids;
    assert |v.posted| == 1 && !Terminal(v.posted[0]) ==> v.st.armed;
    hide Terminal;
  }

  lemma StepFollows(v: View, e: Event, armedOnce: bool)
    requires Inv(v) && Follows(v, armedOnce) && Takes(v, e)
    ensures Follows(Step(v, e), armedOnce || OpensNow(v, e))
  {
    hide Owned, Fitting, Intact, EndsOnce, StepMove, StepHandle, Flags, Filled, Terminal, Bids;
    match e
    case PostData(_, _) =>
    case PostEnd(_) =>
    case Handle => HandleFollows(v, armedOnce);
    case Take =>
    case Drain =>
    case Marks(m) => MarkFollows(v, m, armedOnce);
    case Moves(m) =>
  }

  lemma MarkFollows(v: View, m: Mark, armedOnce: bool)
    requires Inv(v) && Follows(v, armedOnce) && MayMark(v, m)
    ensures Follows(StepMark(v, m), armedOnce || m == Start(true))
  {
    hide Owned, Fitting, Intact, EndsOnce;
    match m
    case Start(_) =>
    case Ask =>
    case Suspend =>
    case Dispose =>
    case Lock =>
    case Abandon =>
    case Detach =>
    case Again =>
  }

  lemma {:induction false} RunFollows(v: View, es: seq<Event>, armedOnce: bool)
    requires Inv(v) && Follows(v, armedOnce)
    ensures Follows(Exec(v, es), armedOnce || Opens(v, es))
    decreases |es|
  {
    hide Inv, Follows, Step, Takes;
    if es != [] {
      var e := es[0];
      StepInv(v, e);
      if Takes(v, e) {
        StepFollows(v, e, armedOnce);
        RunFollows(Apply(v, e), es[1..], armedOnce || OpensNow(v, e));
      } else {
        RunFollows(v, es[1..], armedOnce);
      }
    }
  }

  // When all is over, m_dispose was set for a callback that was armed exactly if
  // the stream had not ended before cleanup marked the state abandoned: otherwise
  // nothing ever deletes it.
  lemma DisposedExactly(n: nat, bufSize: nat, ring: seq<nat>, memory: seq<Bytes>, others: multiset<nat>,
                        es: seq<Event>)
    requires Begins(n, bufSize, ring, memory, others)
    ensures var v := Run(n, bufSize, ring, memory, others, es);
            Over(v) ==>
              (v.st.disposed == 1 <==> Opens(Init(n, bufSize, ring, memory, others), es) && !v.st.stopped)
              && v.st.disposed <= 1
  {
    hide Begins, Run, Opens, Inv, Exec, Over, Follows;
    InitFollows(n, bufSize, ring, memory, others);
    var start := Init(n, bufSize, ring, memory, others);
    InitInv(n, bufSize, ring, memory, others);
    RunFollows(start, es, false);
    RunIs(n, bufSize, ring, memory, others, es);
    if Over(Exec(start, es)) {
      FollowsTells(Exec(start, es), Opens(start, es));
    }
  }

  lemma InitFollows(n: nat, bufSize: nat, ring: seq<nat>, memory: seq<Bytes>, others: multiset<nat>)
    ensures Follows(Init(n, bufSize, ring, memory, others), false)
  {
  }

  lemma FollowsTells(v: View, armedOnce: bool)
    requires Inv(v) && Follows(v, armedOnce) && Over(v)
    ensures v.st.disposed <= 1 && (v.st.disposed == 1 <==> armedOnce && !v.st.stopped)
  {
    hide Owned, Fitting, Intact, EndsOnce, Unstarted, Awake;
  }

  // A stream that has ended stays ended.
  lemma EndedStays(v: View, e: Event)
    requires v.st.stopped && Takes(v, e)
    ensures Step(v, e).st.stopped
  {
    hide StepMove, StepHandle, HandleStatus, MarkStatus, Flags, Filled, Bids, Terminal;
    match e
    case PostData(_, _) =>
    case PostEnd(_) =>
    case Handle =>
      HandleDisposes(v);
      HandleKeepsEnd(v.st, Terminal(v.posted[0]));
    case Take =>
    case Drain =>
    case Marks(m) => MarkKeepsEnd(v.st, |v.queue| > 0 || v.st.stopped, m);
    case Moves(m) =>
  }

  lemma HandleKeepsEnd(t: Status, end: bool)
    requires t.stopped
    ensures HandleStatus(t, end).stopped
  {
  }

  lemma MarkKeepsEnd(t: Status, ready: bool, m: Mark)
    ensures MarkStatus(t, ready, m).stopped == t.stopped
  {
    match m
    case Start(_) =>
    case Ask =>
    case Suspend =>
    case Dispose =>
    case Lock =>
    case Abandon =>
    case Detach =>
    case Again =>
  }

  lemma {:induction false} EndedForGood(v: View, es: seq<Event>)
    requires Inv(v) && v.st.stopped
    ensures Exec(v, es).st.stopped
    decreases |es|
  {
    hide Inv, Step, Takes;
    if es != [] {
      StepInv(v, es[0]);
      if Takes(v, es[0]) {
        EndedStays(v, es[0]);
      }
      EndedForGood(Apply(v, es[0]), es[1..]);
    }
  }
}
