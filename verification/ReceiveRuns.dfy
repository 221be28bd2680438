// Runs in which the receive path fails: a second cleanup that loses a buffer,
// a cleanup that writes to a callback marked for deletion, one that leaves the
// callback to nobody, and two overlapping returns that lose one buffer and publish
// another twice.
module ReceiveRuns {
  import opened Prelude
  import opened Bits
  import opened BufferRing
  import P = ReceiveProgress
  import S = SharedGroup
  import R = RingSlots

  // ---- one connection ------------------------------------------------------------

  lemma Next(v: View, e: Event, es: seq<Event>)
    requires Inv(v)
    ensures Inv(Apply(v, e)) && Exec(v, [e] + es) == Exec(Apply(v, e), es)
  {
    hide Inv, Apply;
    Exec1(v, [e] + es);
    assert ([e] + es)[1..] == es;
  }

  const Opened := Fresh.(hasBg := true, stateBg := true, hasCb := true, ownerCb := true, started := true,
                         armed := true)

  function Empty(): View {
    Init(1, 1, [0], [[0]], multiset{})
  }

  lemma EmptyInv()
    ensures Begins(1, 1, [0], [[0]], multiset{}) && Inv(Empty())
  {
    hide Inv;
    assert Upto(1) == [0];
    InitInv(1, 1, [0], [[0]], multiset{});
  }

  lemma Opens(v: View)
    requires v.st == Fresh
    ensures Apply(v, Marks(Start(true))) == v.(st := Opened)
  {
  }

  function Received(): View {
    Empty().(st := Opened, ring := [], memory := [[7]], posted := [Chunk(1, Flags(0, true))], received := [7])
  }

  lemma Receives()
    ensures Apply(Empty().(st := Opened), PostData([7], true)) == Received()
  {
    hide Flags;
    assert [0][1..] == [] && [[0]][0 := [7]] == [[7]];
    assert Filled([0], [7]) == [7];
  }

  // Cleanup of a connection with nothing to return.
  function Cleaned(t: Status): Status {
    t.(abandoned := true, hasCb := false, started := false, hasBg := false, phase := Gone)
  }

  lemma CleansUp(v: View, es: seq<Event>)
    requires Inv(v) && v.st == Opened && v.hand == v.queue == [] && v.pending == v.giving == []
    ensures var w := v.(st := Cleaned(Opened));
            Inv(w) && Exec(v, [Marks(Lock)] + ([Marks(Abandon)] + ([Marks(Detach)] + es))) == Exec(w, es)
  {
    hide Inv;
    Next(v, Marks(Lock), [Marks(Abandon)] + ([Marks(Detach)] + es));
    var v1 := v.(st := Opened.(phase := Draining));
    Next(v1, Marks(Abandon), [Marks(Detach)] + es);
    var v2 := v.(st := Opened.(abandoned := true, phase := Unlocked));
    Next(v2, Marks(Detach), es);
  }

  lemma LostAfter(v: View)
    requires v.st == Cleaned(Opened).(stateBg := false) && v.posted == [Chunk(1, Flags(0, true))]
    requires v.giving == [] && v.lost == []
    ensures Apply(v, Handle).lost == [0]
  {
    FlagsCarry(0, true, 1);
    BidsOne(v.posted[0]);
    hide Bids, Flags, Terminal;
    assert Apply(v, Handle) == StepHandle(v);
    assert [] + [0] == [0];
  }

  // Data is posted and the connection cleaned up; the destructor cleans up once
  // more, and only then the data is handled.
  lemma SecondCleanupLoses()
    ensures Begins(1, 1, [0], [[0]], multiset{})
    ensures var es := [Marks(Start(true))] + ([PostData([7], true)] + ([Marks(Lock)] + ([Marks(Abandon)]
                      + ([Marks(Detach)] + ([Marks(Again)] + [Handle])))));
            Run(1, 1, [0], [[0]], multiset{}, es).lost == [0]
  {
    hide Inv, Run, Begins, Init, Apply;
    EmptyInv();
    var cleanup := [Marks(Lock)] + ([Marks(Abandon)] + ([Marks(Detach)] + ([Marks(Again)] + [Handle])));
    var es := [Marks(Start(true))] + ([PostData([7], true)] + cleanup);
    RunIs(1, 1, [0], [[0]], multiset{}, es);
    Next(Empty(), Marks(Start(true)), [PostData([7], true)] + cleanup);
    Opens(Empty()) by { IsFresh(); }
    Next(Empty().(st := Opened), PostData([7], true), cleanup);
    Receives();
    IsReceived();
    CleansUp(Received(), [Marks(Again)] + [Handle]);
    var gone := Received().(st := Cleaned(Opened));
    Next(gone, Marks(Again), [Handle]);
    CleansAgain(gone);
    var w := gone.(st := Cleaned(Opened).(stateBg := false));
    assert [Handle] + [] == [Handle];
    Next(w, Handle, []);
    LostAfter(w);
  }

  lemma IsFresh()
    ensures Empty().st == Fresh
  {
  }

  lemma IsReceived()
    ensures var v := Received();
            && v.st == Opened && v.hand == v.queue == [] && v.pending == v.giving == v.lost == []
            && v.posted == [Chunk(1, Flags(0, true))]
  {
    hide Flags;
  }

  lemma CleansAgain(v: View)
    requires v.st == Cleaned(Opened)
    ensures Apply(v, Marks(Again)) == v.(st := Cleaned(Opened).(stateBg := false))
  {
  }

  // The connection ends, and its end is handled between cleanup's unlocking and
  // its last lines.
  lemma CleanupRaces()
    ensures Begins(1, 1, [0], [[0]], multiset{})
    ensures var es := [Marks(Start(true))] + ([PostEnd(0)] + ([Marks(Lock)] + ([Marks(Abandon)] + ([Handle]
                      + ([Marks(Dispose)] + [Marks(Detach)])))));
            Run(1, 1, [0], [[0]], multiset{}, es).st.lateUse
  {
    hide Inv, Run, Begins, Init, Apply;
    EmptyInv();
    var late := [Handle] + ([Marks(Dispose)] + [Marks(Detach)]);
    var locked := [Marks(Lock)] + ([Marks(Abandon)] + late);
    RunIs(1, 1, [0], [[0]], multiset{}, [Marks(Start(true))] + ([PostEnd(0)] + locked));
    Next(Empty(), Marks(Start(true)), [PostEnd(0)] + locked);
    Opens(Empty()) by { IsFresh(); }
    Next(Empty().(st := Opened), PostEnd(0), locked);
    Ends();
    var v := Ended(Opened.(armed := false), [Chunk(0, 0)]);
    Next(v, Marks(Lock), [Marks(Abandon)] + late);
    Unlocks();
    Next(Ended(Opened.(armed := false, phase := Draining), [Chunk(0, 0)]), Marks(Abandon), late);
    var t := Opened.(armed := false, abandoned := true, phase := Unlocked);
    Next(Ended(t, [Chunk(0, 0)]), Handle, [Marks(Dispose)] + [Marks(Detach)]);
    EndHandled();
    var u := t.(disposing := true, ownerCb := false, lateEnd := true);
    Next(Ended(u, []), Marks(Dispose), [Marks(Detach)]);
    Disposes();
    assert [Marks(Detach)] + [] == [Marks(Detach)];
    Next(Ended(u.(disposing := false, disposed := 1), []), Marks(Detach), []);
  }

  function Ended(t: Status, posted: seq<Chunk>): View {
    Empty().(st := t, posted := posted)
  }

  lemma Ends()
    ensures Apply(Empty().(st := Opened), PostEnd(0)) == Ended(Opened.(armed := false), [Chunk(0, 0)])
  {
    assert [] + [Chunk(0, 0)] == [Chunk(0, 0)];
  }

  lemma Unlocks()
    ensures Apply(Ended(Opened.(armed := false), [Chunk(0, 0)]), Marks(Lock))
            == Ended(Opened.(armed := false, phase := Draining), [Chunk(0, 0)])
    ensures Apply(Ended(Opened.(armed := false, phase := Draining), [Chunk(0, 0)]), Marks(Abandon))
            == Ended(Opened.(armed := false, abandoned := true, phase := Unlocked), [Chunk(0, 0)])
  {
  }

  lemma EndHandled()
    ensures var t := Opened.(armed := false, abandoned := true, phase := Unlocked);
            Apply(Ended(t, [Chunk(0, 0)]), Handle)
            == Ended(t.(disposing := true, ownerCb := false, lateEnd := true), [])
  {
    BidsOne(Chunk(0, 0));
    hide Bids;
    assert [Chunk(0, 0)][1..] == [];
  }

  lemma Disposes()
    ensures var t := Opened.(armed := false, abandoned := true, phase := Unlocked, ownerCb := false, lateEnd := true);
            && Apply(Ended(t.(disposing := true), []), Marks(Dispose)) == Ended(t.(disposed := 1), [])
            && Apply(Ended(t.(disposed := 1), []), Marks(Detach)).st.lateUse
  {
  }

  // The connection ends, the handler queues its end, and only then it is cleaned
  // up: nothing is left to come, and the callback is never disposed of.
  lemma EndBeforeCleanupLeaks()
    ensures Begins(1, 1, [0], [[0]], multiset{})
    ensures var es := [Marks(Start(true))] + ([PostEnd(0)] + ([Handle] + ([Marks(Lock)] + ([Drain]
                      + ([Marks(Abandon)] + [Marks(Detach)])))));
            var v := Run(1, 1, [0], [[0]], multiset{}, es);
            && P.Over(v) && v.st.stopped && v.st.disposed == 0
            && forall more: seq<Event> :: P.Over(Exec(v, more)) ==> Exec(v, more).st.disposed == 0
  {
    hide Inv, Run, Begins, Init, Apply, P.Over, P.Follows;
    EmptyInv();
    var cleanup := [Marks(Lock)] + ([Drain] + ([Marks(Abandon)] + [Marks(Detach)]));
    var es := [Marks(Start(true))] + ([PostEnd(0)] + ([Handle] + cleanup));
    RunIs(1, 1, [0], [[0]], multiset{}, es);
    Next(Empty(), Marks(Start(true)), [PostEnd(0)] + ([Handle] + cleanup));
    Opens(Empty()) by { IsFresh(); }
    Next(Empty().(st := Opened), PostEnd(0), [Handle] + cleanup);
    Ends();
    var t := Opened.(armed := false);
    Next(Ended(t, [Chunk(0, 0)]), Handle, cleanup);
    EndQueued();
    var v := Ended(t.(stopped := true), []).(queue := [Chunk(0, 0)]);
    Next(v, Marks(Lock), [Drain] + ([Marks(Abandon)] + [Marks(Detach)]));
    EndDrained();
    var u := Ended(t.(stopped := true, phase := Draining), []);
    Next(u.(queue := [Chunk(0, 0)]), Drain, [Marks(Abandon)] + [Marks(Detach)]);
    Next(u, Marks(Abandon), [Marks(Detach)]);
    assert [Marks(Detach)] + [] == [Marks(Detach)];
    Next(Ended(t.(stopped := true, abandoned := true, phase := Unlocked), []), Marks(Detach), []);
    var w := Exec(Empty(), es);
    LeftAlone();
    P.InitFollows(1, 1, [0], [[0]], multiset{});
    P.RunFollows(Empty(), es, false);
    forall more: seq<Event> | P.Over(Exec(w, more)) ensures Exec(w, more).st.disposed == 0 {
      P.EndedForGood(w, more);
      P.RunFollows(w, more, P.Opens(Empty(), es));
      P.FollowsTells(Exec(w, more), P.Opens(Empty(), es) || P.Opens(w, more));
    }
  }

  lemma EndQueued()
    ensures var t := Opened.(armed := false);
            Apply(Ended(t, [Chunk(0, 0)]), Handle)
            == Ended(t.(stopped := true), []).(queue := [Chunk(0, 0)])
  {
    assert [Chunk(0, 0)][1..] == [] && [] + [Chunk(0, 0)] == [Chunk(0, 0)];
  }

  lemma EndDrained()
    ensures var t := Opened.(armed := false, stopped := true);
            var v := Ended(t.(phase := Draining), []);
            && Apply(Ended(t, []).(queue := [Chunk(0, 0)]), Marks(Lock)) == v.(queue := [Chunk(0, 0)])
            && Apply(v.(queue := [Chunk(0, 0)]), Drain) == v
            && Apply(v, Marks(Abandon)) == Ended(t.(abandoned := true, phase := Unlocked), [])
  {
    BidsOne(Chunk(0, 0));
    hide Bids;
    var none: seq<nat> := [];
    assert [Chunk(0, 0)][1..] == [] && none + [] == none;
  }

  lemma LeftAlone()
    ensures var t := Opened.(armed := false, stopped := true, abandoned := true, phase := Unlocked);
            var v := Apply(Ended(t, []), Marks(Detach));
            P.Over(v) && v.st.stopped && v.st.disposed == 0
  {
  }

  // ---- two connections, a ring of two buffers --------------------------------------

  function Chunk1(bid: nat): Chunk {
    Chunk(1, Flags(bid, true))
  }

  // An open connection that has received and consumed some bytes.
  function Conn(ring: seq<nat>, memory: seq<Bytes>, posted: seq<Chunk>, giving: seq<nat>, received: Bytes,
                consumed: Bytes, others: multiset<nat>): View
  {
    View(2, 1, ring, memory, posted, [], [], [], giving, [], [], received, consumed, Opened, others)
  }

  lemma Go(s: R.State, a: R.Action, rest: seq<R.Action>)
    requires R.WellFormed(s)
    ensures R.Exec(s, [a] + rest) == R.Exec(R.Apply(s, a), rest)
  {
    hide R.Apply;
    assert ([a] + rest)[1..] == rest;
  }

  // An event of one connection that leaves the ring alone.
  lemma Quietly(s: R.State, i: nat, e: Event)
    requires R.WellFormed(s) && i < |s.conns| && S.Own(e) && !e.PostData? && e != Moves(Publish) && Takes(s.conns[i], e)
    ensures R.Apply(s, R.Act(i, e)) == s.(conns := s.conns[i := Step(s.conns[i], e)])
  {
    hide Takes, Step;
    var ws := S.StepAt(s.conns, i, e);
    assert S.Seen(s.conns[i], e) == None by { R.SeenIs(s.conns[i], e); }
    assert ws == s.conns[i := Step(s.conns[i], e)];
  }

  // handle, await, and give back without assembling.
  function Reading(i: nat): seq<R.Action> {
    [R.Act(i, Handle)] + ([R.Act(i, Marks(Ask))] + ([R.Act(i, Take)] + [R.Act(i, Moves(GiveHand))]))
  }

  lemma ReadsOne(v: View, c: Chunk)
    requires v.st == Opened && v.posted == [c] && v.queue == v.hand == [] && v.giving == [] && v.reasm == []
    requires !Terminal(c)
    ensures var v1 := v.(posted := [], queue := [c]);
            var v2 := v1.(st := Opened.(reader := Resuming));
            var v3 := v1.(queue := [], hand := [c]);
            && Takes(v, Handle) && Step(v, Handle) == v1
            && Takes(v1, Marks(Ask)) && Step(v1, Marks(Ask)) == v2
            && Takes(v2, Take) && Step(v2, Take) == v3
            && Takes(v3, Moves(GiveHand))
            && Step(v3, Moves(GiveHand)) == v1.(queue := [], giving := Bids([c]),
                                                consumed := v.consumed + Payload(v.memory, [c]))
  {
    hide Bids, Payload, Terminal;
    assert [c][1..] == [] && [] + [c] == [c];
    TakeIs(v.(posted := [], queue := [c], st := Opened.(reader := Resuming)));
  }

  lemma Reads(s: R.State, i: nat, c: Chunk, rest: seq<R.Action>)
    requires R.WellFormed(s) && i < |s.conns|
    requires var v := s.conns[i];
             && v.st == Opened && v.posted == [c] && v.queue == v.hand == [] && v.giving == [] && v.reasm == []
    requires !Terminal(c)
    ensures var v := s.conns[i];
            var w := v.(posted := [], giving := Bids([c]), consumed := v.consumed + Payload(v.memory, [c]));
            R.Exec(s, Reading(i) + rest) == R.Exec(s.(conns := s.conns[i := w]), rest)
  {
    hide Bids, Payload, Terminal, Takes, Step, InSlots;
    var v := s.conns[i];
    ReadsOne(v, c);
    var v1 := v.(posted := [], queue := [c]);
    var v2 := v1.(st := Opened.(reader := Resuming));
    var v3 := v1.(queue := [], hand := [c]);
    var give := [R.Act(i, Moves(GiveHand))] + rest;
    Go(s, R.Act(i, Handle), [R.Act(i, Marks(Ask))] + ([R.Act(i, Take)] + give));
    Quietly(s, i, Handle);
    var s1 := s.(conns := s.conns[i := v1]);
    Go(s1, R.Act(i, Marks(Ask)), [R.Act(i, Take)] + give);
    Quietly(s1, i, Marks(Ask));
    var s2 := s1.(conns := s1.conns[i := v2]);
    Go(s2, R.Act(i, Take), give);
    Quietly(s2, i, Take);
    var s3 := s2.(conns := s2.conns[i := v3]);
    Go(s3, R.Act(i, Moves(GiveHand)), rest);
    Quietly(s3, i, Moves(GiveHand));
    assert Reading(i) + rest
           == [R.Act(i, Handle)] + ([R.Act(i, Marks(Ask))] + ([R.Act(i, Take)] + give));
    assert s3.conns[i := Step(v3, Moves(GiveHand))] == s.conns[i := Step(v3, Moves(GiveHand))];
  }

  lemma StartOpens(v: View, w: View)
    requires v.st == Fresh && w.st == Fresh
    ensures Apply(v, Marks(Start(true))) == v.(st := Opened) && Takes(v, Marks(Start(true)))
    ensures Step(v, Marks(Start(true))) == v.(st := Opened)
  {
  }

  function Two(slots: seq<nat>, head: nat, tail: nat, a: View, b: View, wrote: seq<nat>): R.State {
    R.State(slots, head, tail, [a, b], wrote)
  }

  lemma OpensBoth(rest: seq<R.Action>)
    ensures var c := Conn([0, 1], [[0], [0]], [], [], [], [], multiset{});
            R.Exec(R.Begin(2, 2, 1, [[0], [0]]),
                   [R.Act(0, Marks(Start(true)))] + ([R.Act(1, Marks(Start(true)))] + rest))
            == R.Exec(Two([0, 1], 0, 2, c, c, [0, 0]), rest)
  {
    hide InSlots, Takes, Step;
    var v := Init(2, 1, [0, 1], [[0], [0]], multiset{});
    var c := v.(st := Opened);
    var s := Two([0, 1], 0, 2, v, v, [0, 0]);
    assert s == R.Begin(2, 2, 1, [[0], [0]]) by { assert Upto(2) == [0, 1]; }
    StartOpens(v, v);
    Go(s, R.Act(0, Marks(Start(true))), [R.Act(1, Marks(Start(true)))] + rest);
    Quietly(s, 0, Marks(Start(true)));
    var s1 := Two([0, 1], 0, 2, c, v, [0, 0]);
    assert s.conns[0 := c] == [c, v];
    Go(s1, R.Act(1, Marks(Start(true))), rest);
    Quietly(s1, 1, Marks(Start(true)));
    assert s1.conns[1 := c] == [c, c];
  }

  lemma PostSeen(v: View, u: View, x: byte)
    requires v.st.armed && CanReceive(v, [x]) && CanReceive(u, [x])
    ensures Takes(v, PostData([x], true)) && Apply(v, PostData([x], true)) == StepPostData(v, [x], true)
    ensures S.After(u, S.Seen(v, PostData([x], true))) == StepOtherTakes(u, [x])
  {
    hide StepPostData, StepOtherTakes;
  }

  // The kernel receives one byte for connection i of two.
  lemma Posts(s: R.State, i: nat, x: byte, rest: seq<R.Action>)
    requires R.WellFormed(s) && |s.conns| == 2 && s.head < s.tail && i < 2 && s.conns[i].st.armed
    requires CanReceive(s.conns[0], [x]) && CanReceive(s.conns[1], [x])
    ensures var a, b := s.conns[0], s.conns[1];
            R.Exec(s, [R.Act(i, PostData([x], true))] + rest)
            == R.Exec(s.(head := s.head + 1,
                         conns := if i == 0 then [StepPostData(a, [x], true), StepOtherTakes(b, [x])]
                                  else [StepOtherTakes(a, [x]), StepPostData(b, [x], true)]), rest)
  {
    hide StepPostData, StepOtherTakes, InSlots, Takes, Step, S.Seen, S.After, Apply;
    var e := PostData([x], true);
    Go(s, R.Act(i, e), rest);
    PostSeen(s.conns[i], s.conns[1 - i], x);
    var ws := S.StepAt(s.conns, i, e);
    if i == 0 {
      assert ws == [StepPostData(s.conns[0], [x], true), StepOtherTakes(s.conns[1], [x])];
    } else {
      assert ws == [StepOtherTakes(s.conns[0], [x]), StepPostData(s.conns[1], [x], true)];
    }
  }

  lemma PostTakes(v: View, x: byte, bid: nat)
    requires v.ring != [] && v.ring[0] == bid < |v.memory| && |v.memory[bid]| == 1 && v.st == Opened
    ensures Filled(v.memory[bid], [x]) == [x]
    ensures StepPostData(v, [x], true) == v.(ring := v.ring[1..], memory := v.memory[bid := [x]],
                                             posted := v.posted + [Chunk1(bid)], received := v.received + [x])
    ensures StepOtherTakes(v, [x]) == v.(ring := v.ring[1..], memory := v.memory[bid := [x]],
                                         others := v.others + multiset{bid})
  {
    hide Flags;
    assert v.memory[bid][1..] == [];
  }

  // Both returns write the slot at the same tail; then each moves the tail.
  function Returning(): seq<R.Action> {
    [R.Write(0)] + ([R.Write(1)] + ([R.Advance(0)] + [R.Advance(1)]))
  }

  function Giving(memory: seq<Bytes>, i: nat): View {
    if i == 0 then Conn([], memory, [], [0], [7], [7], multiset{1})
    else Conn([], memory, [], [1], [8], [8], multiset{0})
  }

  // Connection i once some of the returns are published.
  function Given(memory: seq<Bytes>, ring: seq<nat>, i: nat, giving: seq<nat>, others: multiset<nat>): View {
    Conn(ring, memory, [], giving, if i == 0 then [7] else [8], if i == 0 then [7] else [8], others)
  }

  lemma BothWrite(memory: seq<Bytes>, rest: seq<R.Action>)
    ensures var a, b := Giving(memory, 0), Giving(memory, 1);
            R.Exec(Two([0, 1], 2, 2, a, b, [0, 0]), [R.Write(0)] + ([R.Write(1)] + rest))
            == R.Exec(Two([1, 1], 2, 2, a, b, [1, 1]), rest)
  {
    hide R.Apply, InSlots;
    var a, b := Giving(memory, 0), Giving(memory, 1);
    var s := Two([0, 1], 2, 2, a, b, [0, 0]);
    var t := Two([0, 1], 2, 2, a, b, [1, 0]);
    Go(s, R.Write(0), [R.Write(1)] + rest);
    Writes(s, 0, 0);
    assert [0, 1][0 := 0] == [0, 1] && [0, 0][0 := 1] == [1, 0];
    Go(t, R.Write(1), rest);
    Writes(t, 1, 1);
    assert [0, 1][0 := 1] == [1, 1] && [1, 0][1 := 1] == [1, 1];
  }

  lemma BothAdvance(memory: seq<Bytes>, rest: seq<R.Action>)
    ensures var a, b := Giving(memory, 0), Giving(memory, 1);
            R.Exec(Two([1, 1], 2, 2, a, b, [1, 1]), [R.Advance(0)] + ([R.Advance(1)] + rest))
            == R.Exec(Two([1, 1], 2, 4, Given(memory, [1, 1], 0, [], multiset{}),
                          Given(memory, [1, 1], 1, [], multiset{}), [0, 0]), rest)
  {
    hide R.Apply, InSlots;
    var s := Two([1, 1], 2, 2, Giving(memory, 0), Giving(memory, 1), [1, 1]);
    var a, b := Given(memory, [1], 0, [], multiset{1}), Given(memory, [1], 1, [1], multiset{});
    var t := Two([1, 1], 2, 3, a, b, [0, 1]);
    Go(s, R.Advance(0), [R.Advance(1)] + rest);
    assert multiset{0} - multiset([0]) == multiset{} && multiset{1} - multiset([1]) == multiset{};
    OnesAndTwos();
    Advances(s, 0, a.(ring := []), b.(ring := []), [1]);
    assert [1, 1][0 := 0] == [0, 1] && [0, 1][1 := 0] == [0, 0];
    Go(t, R.Advance(1), rest);
    Advances(t, 1, a.(others := multiset{}), b.(giving := []), [1, 1]);
  }

  lemma OnesAndTwos()
    ensures InSlots([1, 1], 2, 3) == [1] && InSlots([1, 1], 2, 4) == [1, 1]
  {
  }

  lemma Writes(s: R.State, i: nat, bid: nat)
    requires R.WellFormed(s) && |s.conns| == 2 && |s.wrote| == 2 && i < 2 && s.wrote[i] == 0
    requires s.conns[i].giving == [bid] && s.head == s.tail && s.conns[0].ring == [] && s.conns[1].ring == []
    ensures R.Apply(s, R.Write(i)) == s.(slots := s.slots[s.tail % |s.slots| := bid], wrote := s.wrote[i := 1])
  {
    assert InSlots(s.slots[s.tail % |s.slots| := bid], s.head, s.tail) == [];
    assert R.Seeing(s.conns, []) == s.conns;
  }

  lemma Advances(s: R.State, i: nat, a: View, b: View, ring: seq<nat>)
    requires R.WellFormed(s) && |s.conns| == 2 && |s.wrote| == 2 && i < 2 && s.wrote[i] == 1
    requires |s.conns[i].giving| == 1 && ring == InSlots(s.slots, s.head, s.tail + 1)
    requires a == if i == 0 then s.conns[0].(giving := [])
                  else s.conns[0].(others := s.conns[0].others - multiset(s.conns[1].giving))
    requires b == if i == 1 then s.conns[1].(giving := [])
                  else s.conns[1].(others := s.conns[1].others - multiset(s.conns[0].giving))
    ensures R.Apply(s, R.Advance(i))
            == s.(tail := s.tail + 1, wrote := s.wrote[i := 0], conns := [a.(ring := ring), b.(ring := ring)])
  {
    hide InSlots;
    assert R.Given(s.conns, i) == [a, b];
    assert R.Seeing([a, b], ring) == [a.(ring := ring), b.(ring := ring)];
  }

  // Both connections open, receive a byte each and are done with it.
  function Opening(): seq<R.Action> {
    [R.Act(0, Marks(Start(true)))] + ([R.Act(1, Marks(Start(true)))] + Sharing())
  }

  function Sharing(): seq<R.Action> {
    [R.Act(0, PostData([7], true))] + ([R.Act(1, PostData([8], true))] + (Reading(0) + Reading(1)))
  }

  const Memory: seq<Bytes> := [[7], [8]]

  lemma FirstReceives(rest: seq<R.Action>)
    ensures var c := Conn([0, 1], [[0], [0]], [], [], [], [], multiset{});
            var a := Conn([1], [[7], [0]], [Chunk1(0)], [], [7], [], multiset{});
            var b := Conn([1], [[7], [0]], [], [], [], [], multiset{0});
            R.Exec(Two([0, 1], 0, 2, c, c, [0, 0]), [R.Act(0, PostData([7], true))] + rest)
            == R.Exec(Two([0, 1], 1, 2, a, b, [0, 0]), rest)
  {
    hide Flags, InSlots, R.Exec, StepPostData, StepOtherTakes;
    var c := Conn([0, 1], [[0], [0]], [], [], [], [], multiset{});
    assert [[0], [0]][0 := [7]] == [[7], [0]] && [0, 1][1..] == [1] && [] + [Chunk1(0)] == [Chunk1(0)];
    assert [] + [7] == [7] && multiset{} + multiset{0} == multiset{0};
    PostTakes(c, 7, 0);
    Posts(Two([0, 1], 0, 2, c, c, [0, 0]), 0, 7, rest);
  }

  lemma SecondReceives(rest: seq<R.Action>)
    ensures var c := Conn([1], [[7], [0]], [Chunk1(0)], [], [7], [], multiset{});
            var d := Conn([1], [[7], [0]], [], [], [], [], multiset{0});
            var a := Conn([], Memory, [Chunk1(0)], [], [7], [], multiset{1});
            var b := Conn([], Memory, [Chunk1(1)], [], [8], [], multiset{0});
            R.Exec(Two([0, 1], 1, 2, c, d, [0, 0]), [R.Act(1, PostData([8], true))] + rest)
            == R.Exec(Two([0, 1], 2, 2, a, b, [0, 0]), rest)
  {
    hide Flags, InSlots, R.Exec, StepPostData, StepOtherTakes;
    var c := Conn([1], [[7], [0]], [Chunk1(0)], [], [7], [], multiset{});
    var d := Conn([1], [[7], [0]], [], [], [], [], multiset{0});
    assert [[7], [0]][1 := [8]] == Memory && [1][1..] == [] && [] + [Chunk1(1)] == [Chunk1(1)];
    assert [] + [8] == [8] && multiset{} + multiset{1} == multiset{1};
    PostTakes(c, 8, 1);
    PostTakes(d, 8, 1);
    Posts(Two([0, 1], 1, 2, c, d, [0, 0]), 1, 8, rest);
  }

  lemma ChunkFacts(bid: nat, memory: seq<Bytes>, x: byte)
    requires bid < |memory| && memory[bid] == [x]
    ensures !Terminal(Chunk1(bid)) && Bids([Chunk1(bid)]) == [bid] && Payload(memory, [Chunk1(bid)]) == [x]
  {
    FlagsCarry(bid, true, 1);
    BidsOne(Chunk1(bid));
    assert [Chunk1(bid)][1..] == [];
    assert BytesOf(memory, Chunk1(bid)) == [x];
    assert [x] + [] == [x];
  }

  lemma BothRead(rest: seq<R.Action>)
    ensures var a := Conn([], Memory, [Chunk1(0)], [], [7], [], multiset{1});
            var b := Conn([], Memory, [Chunk1(1)], [], [8], [], multiset{0});
            R.Exec(Two([0, 1], 2, 2, a, b, [0, 0]), Reading(0) + (Reading(1) + rest))
            == R.Exec(Two([0, 1], 2, 2, Giving(Memory, 0), Giving(Memory, 1), [0, 0]), rest)
  {
    hide Flags, InSlots, Terminal, Bids, Payload, Reading;
    var a := Conn([], Memory, [Chunk1(0)], [], [7], [], multiset{1});
    var b := Conn([], Memory, [Chunk1(1)], [], [8], [], multiset{0});
    ChunkFacts(0, Memory, 7);
    ChunkFacts(1, Memory, 8);
    assert [] + [7] == [7] && [] + [8] == [8];
    Reads(Two([0, 1], 2, 2, a, b, [0, 0]), 0, Chunk1(0), Reading(1) + rest);
    assert [a, b][0 := Giving(Memory, 0)] == [Giving(Memory, 0), b];
    Reads(Two([0, 1], 2, 2, Giving(Memory, 0), b, [0, 0]), 1, Chunk1(1), rest);
    assert [Giving(Memory, 0), b][1 := Giving(Memory, 1)] == [Giving(Memory, 0), Giving(Memory, 1)];
  }

  lemma OpeningIs(rest: seq<R.Action>)
    ensures R.Exec(R.Begin(2, 2, 1, [[0], [0]]), Opening() + rest)
            == R.Exec(Two([0, 1], 2, 2, Giving(Memory, 0), Giving(Memory, 1), [0, 0]), rest)
  {
    hide R.Exec, Reading, Conn, Giving;
    var reading := Reading(0) + (Reading(1) + rest);
    var sharing := [R.Act(0, PostData([7], true))] + ([R.Act(1, PostData([8], true))] + reading);
    assert Opening() + rest == [R.Act(0, Marks(Start(true)))] + ([R.Act(1, Marks(Start(true)))] + sharing);
    OpensBoth(sharing);
    FirstReceives([R.Act(1, PostData([8], true))] + reading);
    SecondReceives(reading);
    BothRead(rest);
  }

  lemma Returned(rest: seq<R.Action>)
    ensures R.Exec(Two([0, 1], 2, 2, Giving(Memory, 0), Giving(Memory, 1), [0, 0]), Returning() + rest)
            == R.Exec(Two([1, 1], 2, 4, Given(Memory, [1, 1], 0, [], multiset{}),
                          Given(Memory, [1, 1], 1, [], multiset{}), [0, 0]), rest)
  {
    hide R.Exec, Giving, Given;
    var advancing := [R.Advance(0)] + ([R.Advance(1)] + rest);
    assert Returning() + rest == [R.Write(0)] + ([R.Write(1)] + advancing);
    BothWrite(Memory, advancing);
    BothAdvance(Memory, rest);
  }

  // Both connections receive once more.
  function Receiving(): seq<R.Action> {
    [R.Act(0, PostData([5], true))] + ([R.Act(1, PostData([6], true))] + Reading(0))
  }

  lemma Overwritten()
    ensures var s := R.Exec(Two([1, 1], 2, 4, Given(Memory, [1, 1], 0, [], multiset{}),
                                Given(Memory, [1, 1], 1, [], multiset{}), [0, 0]), Receiving());
            |s.conns| == 2 && s.conns[0].received == [7, 5] && s.conns[0].consumed == [7, 6]
  {
    hide Flags, InSlots, Terminal, Bids, Payload, Reading, R.Exec;
    var a, b := Given(Memory, [1, 1], 0, [], multiset{}), Given(Memory, [1, 1], 1, [], multiset{});
    PostTakes(a, 5, 1);
    PostTakes(b, 5, 1);
    Posts(Two([1, 1], 2, 4, a, b, [0, 0]), 0, 5, [R.Act(1, PostData([6], true))] + Reading(0));
    var a1, b1 := StepPostData(a, [5], true), StepOtherTakes(b, [5]);
    PostTakes(a1, 6, 1);
    PostTakes(b1, 6, 1);
    Posts(Two([1, 1], 3, 4, a1, b1, [0, 0]), 1, 6, Reading(0));
    var a2 := StepOtherTakes(a1, [6]);
    var s := Two([1, 1], 4, 4, a2, StepPostData(b1, [6], true), [0, 0]);
    assert a2.memory == [[7], [6]] && a2.posted == [Chunk1(1)];
    ChunkFacts(1, a2.memory, 6);
    Reads(s, 0, Chunk1(1), []);
    assert Reading(0) + [] == Reading(0);
    NoMore(s.(conns := s.conns[0 := a2.(posted := [], giving := Bids([Chunk1(1)]),
                                        consumed := a2.consumed + Payload(a2.memory, [Chunk1(1)]))]));
    assert [7] + [6] == [7, 6] && [7] + [5] == [7, 5];
  }

  lemma NoMore(s: R.State)
    requires R.WellFormed(s)
    ensures R.Exec(s, []) == s
  {
  }

  // Two connections that have given back and hold nothing, over a ring with
  // buffer 1 in it twice.
  function BothGiven(): (s: R.State)
    ensures R.WellFormed(s)
  {
    Two([1, 1], 2, 4, Given(Memory, [1, 1], 0, [], multiset{}), Given(Memory, [1, 1], 1, [], multiset{}), [0, 0])
  }

  lemma NobodyHolds()
    ensures R.Ring(BothGiven()) == [1, 1] && R.Owners(BothGiven())[0] == 0 && R.Owners(BothGiven())[1] == 2
  {
    hide S.Held, S.AllHeld, BothGiven;
    var s := BothGiven();
    OnesAndTwos();
    BothHoldNothing();
    S.NothingHeld(R.AllStanding(s));
    BothStand();
  }

  lemma BothStand()
    ensures R.Ring(BothGiven()) == [1, 1]
  {
  }

  lemma BothHoldNothing()
    ensures |R.AllStanding(BothGiven())| == 2
    ensures forall i | 0 <= i < 2 :: S.Held(R.AllStanding(BothGiven())[i]) == multiset{}
  {
    hide S.Held, S.AllHeld;
    var s := BothGiven();
    forall i | 0 <= i < 2 ensures S.Held(R.AllStanding(s)[i]) == multiset{} {
      assert R.Staged(s, i) == [];
      HoldsNothing(R.Standing(s, i));
    }
  }

  lemma HoldsNothing(v: View)
    requires v.posted == v.queue == v.hand == [] && v.pending == v.giving == v.lost == []
    ensures S.Held(v) == multiset{}
  {
    BidsNone();
  }

  // Two connections receive a byte each and give their buffers back at the same
  // time: buffer 0 is nowhere any more and buffer 1 is in the ring twice.  Both
  // receive once more, into the same buffer, and the first consumes a byte it
  // was not sent.
  lemma OverlapLoses()
    ensures var returned := Opening() + Returning();
            var s := R.Exec(R.Begin(2, 2, 1, [[0], [0]]), returned);
            R.Ring(s) == [1, 1] && R.Owners(s)[0] == 0 && R.Owners(s)[1] == 2
    ensures var all := Opening() + (Returning() + Receiving());
            var s := R.Exec(R.Begin(2, 2, 1, [[0], [0]]), all);
            |s.conns| == 2 && s.conns[0].received == [7, 5] && s.conns[0].consumed == [7, 6]
  {
    hide R.Exec, Returning, Receiving, Opening, R.Ring, R.Owners, Giving, Given;
    OpeningIs(Returning() + []);
    assert Returning() + [] == Returning();
    Returned([]);
    NoMore(Two([1, 1], 2, 4, Given(Memory, [1, 1], 0, [], multiset{}), Given(Memory, [1, 1], 1, [], multiset{}),
               [0, 0]));
    NobodyHolds();
    OpeningIs(Returning() + Receiving());
    Returned(Receiving());
    Overwritten();
  }
}
