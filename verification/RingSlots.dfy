module RingSlots {
  // The group's ring as it lies in memory: slots, the kernel's head and the shared
  // tail.  A return writes its buffers into slots one at a time, each at the tail it
  // reads plus an offset, and then moves the tail; no lock covers the two.

  import opened Prelude
  import opened BufferRing
  import opened Bits
  import S = SharedGroup

  // `wrote` counts, for each connection, the slots its return has written.
  datatype State = State(slots: seq<nat>, head: nat, tail: nat, conns: seq<View>, wrote: seq<nat>)

  datatype Action =
    | Act(conn: nat, event: Event)   // any event but the publication of a return
    | Write(conn: nat)               // return_buffer
    | Advance(conn: nat)             // advance_ring

  predicate WellFormed(s: State) {
    |s.slots| > 0 && s.head <= s.tail && |s.wrote| == |s.conns|
  }

  function Ring(s: State): seq<nat>
    requires WellFormed(s)
  {
    InSlots(s.slots, s.head, s.tail)
  }

  predicate Enabled(s: State, a: Action)
    requires WellFormed(s)
  {
    match a
    case Act(i, e) =>
      i < |s.conns| && S.Own(e) && e != Moves(Publish) && Takes(s.conns[i], e) && (e.PostData? ==> s.head < s.tail)
    case Write(i) => i < |s.conns| && s.wrote[i] < |s.conns[i].giving|
    case Advance(i) => i < |s.conns| && 0 < s.wrote[i] == |s.conns[i].giving|
  }

  function StepWrite(s: State, i: nat): (t: State)
    requires WellFormed(s) && Enabled(s, Write(i))
    ensures WellFormed(t)
  {
    var slots := s.slots[(s.tail + s.wrote[i]) % |s.slots| := s.conns[i].giving[s.wrote[i]]];
    s.(slots := slots, conns := Seeing(s.conns, InSlots(slots, s.head, s.tail)), wrote := s.wrote[i := s.wrote[i] + 1])
  }

  // The slots between the old tail and the new are the kernel's from now on,
  // whatever they hold.
  function StepAdvance(s: State, i: nat): (t: State)
    requires WellFormed(s) && Enabled(s, Advance(i))
    ensures WellFormed(t)
  {
    var tail := s.tail + s.wrote[i];
    s.(tail := tail, wrote := s.wrote[i := 0],
       conns := Seeing(Given(s.conns, i), InSlots(s.slots, s.head, tail)))
  }

  // The return of connection i is over.
  function Given(vs: seq<View>, i: nat): seq<View>
    requires i < |vs|
  {
    seq(|vs|, j requires 0 <= j < |vs| =>
                if j == i then vs[j].(giving := [])
                else vs[j].(others := vs[j].others - multiset(vs[i].giving)))
  }

  function Seeing(vs: seq<View>, ring: seq<nat>): seq<View> {
    seq(|vs|, j requires 0 <= j < |vs| => vs[j].(ring := ring))
  }

  function Apply(s: State, a: Action): (t: State)
    requires WellFormed(s)
    ensures WellFormed(t)
  {
    if !Enabled(s, a) then s
    else
      match a
      case Act(i, e) => s.(conns := S.StepAt(s.conns, i, e), head := if e.PostData? then s.head + 1 else s.head)
      case Write(i) => StepWrite(s, i)
      case Advance(i) => StepAdvance(s, i)
  }

  // ---- owners ------------------------------------------------------------------------

  // What a return counts on: the slots from the tail on hold what it wrote.
  function Staged(s: State, i: nat): seq<nat>
    requires WellFormed(s) && i < |s.conns|
  {
    InSlots(s.slots, s.tail, s.tail + s.wrote[i])
  }

  // A connection with the buffers its return wrote taken from where they were
  // written.
  function Standing(s: State, i: nat): View
    requires WellFormed(s) && i < |s.conns|
  {
    var v := s.conns[i];
    v.(giving := Staged(s, i) + if s.wrote[i] <= |v.giving| then v.giving[s.wrote[i]..] else [])
  }

  function AllStanding(s: State): (vs: seq<View>)
    requires WellFormed(s)
    ensures |vs| == |s.conns|
  {
    seq(|s.conns|, i requires 0 <= i < |s.conns| => Standing(s, i))
  }

  ghost function Owners(s: State): multiset<nat>
    requires WellFormed(s)
  {
    multiset(Ring(s)) + S.AllHeld(AllStanding(s))
  }

  // Each buffer is in the ring, with one connection, or in a slot its return wrote.
  ghost predicate Sole(s: State)
    requires WellFormed(s)
  {
    forall bid: nat | bid < |s.slots| :: Owners(s)[bid] == 1
  }

  // No two returns are between their first write and their advance.
  predicate Apart(s: State)
    requires WellFormed(s)
  {
    forall i, j | 0 <= i < |s.wrote| && 0 <= j < |s.wrote| && s.wrote[i] > 0 && s.wrote[j] > 0 :: i == j
  }

  // ---- returns that do not overlap -------------------------------------------------------

  ghost predicate Settled(s: State, i: nat)
    requires WellFormed(s) && i < |s.conns|
  {
    && s.conns[i].n == |s.slots| && s.conns[i].ring == Ring(s)
    && s.wrote[i] <= |s.conns[i].giving| && Staged(s, i) == s.conns[i].giving[..s.wrote[i]]
  }

  ghost predicate Good(s: State) {
    && WellFormed(s) && S.Together(s.conns) && (forall i | 0 <= i < |s.conns| :: Settled(s, i))
    && (s.conns == [] ==> multiset(Ring(s)) == multiset(Upto(|s.slots|)))
  }

  lemma StandingIs(s: State, i: nat)
    requires WellFormed(s) && i < |s.conns| && Settled(s, i)
    ensures Standing(s, i) == s.conns[i]
  {
    hide InSlots;
    var g := s.conns[i].giving;
    assert g[..s.wrote[i]] + g[s.wrote[i]..] == g;
  }

  lemma GoodIsSole(s: State)
    requires Good(s)
    ensures Sole(s)
  {
    hide S.Together, S.AllHeld, InSlots, Settled, Standing;
    forall i | 0 <= i < |s.conns| ensures AllStanding(s)[i] == s.conns[i] {
      StandingIs(s, i);
    }
    assert AllStanding(s) == s.conns;
    forall bid: nat | bid < |s.slots| ensures Owners(s)[bid] == 1 {
      UptoIsDistinct(|s.slots|, bid);
      if s.conns == [] {
        assert S.AllHeld([]) == multiset{} by { NoneHeld(); }
      } else {
        RingAndHeld(s.conns);
        assert Settled(s, 0);
        assert s.conns[0].ring == Ring(s) && s.conns[0].n == |s.slots| by { OfRing(s, 0); }
      }
    }
  }

  lemma NoneHeld()
    ensures S.AllHeld([]) == multiset{}
  {
  }

  lemma OfRing(s: State, i: nat)
    requires WellFormed(s) && i < |s.conns| && Settled(s, i)
    ensures s.conns[i].ring == Ring(s) && s.conns[i].n == |s.slots|
    ensures s.wrote[i] <= |s.conns[i].giving| && Staged(s, i) == s.conns[i].giving[..s.wrote[i]]
  {
  }

  lemma RingAndHeld(vs: seq<View>)
    requires vs != [] && S.Together(vs)
    ensures multiset(vs[0].ring) + S.AllHeld(vs) == multiset(Upto(vs[0].n))
  {
    hide Inv, S.Held, S.AllHeld, S.SameGroup;
    S.Balance(vs[0]);
    assert vs[0].others + S.Held(vs[0]) == S.AllHeld(vs);
  }

  // The ring has room for everything a connection is giving back.
  lemma RoomToGive(v: View)
    requires Inv(v)
    ensures |v.ring| + |v.giving| <= v.n
    ensures forall b | b in v.giving :: b < v.n
  {
    hide Fitting, Intact, Flagged, Partition;
    PartitionFacts(v.n, v.ring, Bids(v.posted), Bids(v.queue), Away(v), Bids(v.hand), v.others);
    forall b | b in v.giving ensures b < v.n {
      assert b in Away(v);
    }
  }

  lemma TogetherAt(vs: seq<View>, i: nat)
    requires S.Together(vs) && i < |vs|
    ensures Inv(vs[i])
  {
    hide Inv, S.Held, S.AllHeld, S.SameGroup;
  }

  // A return under way is left alone by everything but its own writes.
  lemma GivingStays(v: View, e: Event)
    requires Takes(v, e) && e != Moves(Publish) && v.giving != []
    ensures Step(v, e).giving == v.giving
  {
    hide Bids, Terminal, HandleStatus, MarkStatus, Flags, Filled, BytesOf;
    match e
    case PostData(_, _) =>
    case PostEnd(_) =>
    case Handle =>
    case Take =>
    case Drain =>
    case Marks(_) =>
    case Moves(m) => MoveKeepsGiving(v, m);
  }

  lemma MoveKeepsGiving(v: View, m: Move)
    requires MayMove(v, m) && !m.Publish? && v.giving != []
    ensures StepMove(v, m).giving == v.giving
  {
    hide Bids, Filled, BytesOf;
  }

  lemma OthersKeepGiving(u: View, m: Move)
    requires !S.Own(Moves(m))
    ensures BufferRing.Apply(u, Moves(m)).giving == u.giving
  {
    hide Filled, Bids, BytesOf;
  }

  // Receiving moves the kernel's head, and nothing else a connection does itself
  // touches the ring.
  lemma ActRing(s: State, i: nat, e: Event)
    requires Good(s) && Enabled(s, Act(i, e))
    ensures Step(s.conns[i], e).ring
            == InSlots(s.slots, if e.PostData? then s.head + 1 else s.head, s.tail)
    ensures Step(s.conns[i], e).n == s.conns[i].n
  {
    hide S.Together, S.AllHeld, Inv, Settled, InSlots, Step, Filled;
    var v := s.conns[i];
    S.RingStep(v, e);
    StepSize(v, e);
    OfRing(s, i);
    if s.head < s.tail {
      SlotTakeIf(s);
    }
    SeenIs(v, e);
  }

  lemma SlotTakeIf(s: State)
    requires WellFormed(s) && s.head < s.tail
    ensures InSlots(s.slots, s.head, s.tail)[1..] == InSlots(s.slots, s.head + 1, s.tail)
  {
    hide InSlots;
    SlotTake(s.slots, s.head, s.tail);
  }

  lemma SeenIs(v: View, e: Event)
    requires S.Own(e) && Takes(v, e) && e != Moves(Publish)
    ensures S.Seen(v, e) == if e.PostData? then Some(OtherTakes(e.bytes)) else None
  {
  }

  lemma ActGiving(s: State, i: nat, e: Event, j: nat)
    requires Good(s) && Enabled(s, Act(i, e)) && j < |s.conns| && s.conns[j].giving != []
    ensures S.StepAt(s.conns, i, e)[j].giving == s.conns[j].giving
  {
    hide Good, Step, S.Seen;
    if j == i {
      GivingStays(s.conns[i], e);
    } else {
      match S.Seen(s.conns[i], e)
      case None =>
      case Some(m) =>
        assert !S.Own(Moves(m)) by { SeenIs(s.conns[i], e); }
        OthersKeepGiving(s.conns[j], m);
    }
  }

  lemma ActGood(s: State, i: nat, e: Event)
    requires Good(s) && Enabled(s, Act(i, e))
    ensures Good(Apply(s, Act(i, e)))
  {
    hide S.AllHeld, S.Held, Inv, InSlots, Takes, Step, Settled;
    var t := Apply(s, Act(i, e));
    S.TogetherInv(s.conns, i, e);
    ActRing(s, i, e);
    forall j | 0 <= j < |t.conns| ensures Settled(t, j) {
      OfRing(s, j);
      assert S.SameGroup(t.conns[i], t.conns[j]);
      assert t.conns[i] == Step(s.conns[i], e);
      if s.conns[j].giving != [] {
        ActGiving(s, i, e, j);
      }
      Settle(t, j);
    }
  }

  lemma Settle(s: State, i: nat)
    requires WellFormed(s) && i < |s.conns| && s.conns[i].n == |s.slots| && s.conns[i].ring == Ring(s)
    requires s.wrote[i] <= |s.conns[i].giving|
    requires s.wrote[i] == 0 || Staged(s, i) == s.conns[i].giving[..s.wrote[i]]
    ensures Settled(s, i)
  {
    if s.wrote[i] == 0 {
      assert Staged(s, i) == [];
    }
  }

  // A write puts the next buffer behind those already staged and leaves the
  // ring alone.
  lemma WriteGood(s: State, i: nat)
    requires Good(s) && Enabled(s, Write(i)) && Apart(StepWrite(s, i))
    ensures Good(StepWrite(s, i)) && StepWrite(s, i).conns == s.conns
  {
    hide S.AllHeld, S.Together, S.Held, Inv, Settled, InSlots;
    var t := StepWrite(s, i);
    var v, w := s.conns[i], s.wrote[i];
    OfRing(s, i);
    TogetherAt(s.conns, i);
    RoomToGive(v);
    RingKept(s.slots, s.head, s.tail, s.tail + w, v.giving[w]);
    SlotAppend(s.slots, s.tail, s.tail + w, v.giving[w]);
    assert Ring(t) == Ring(s);
    forall j | 0 <= j < |t.conns| ensures t.conns[j] == s.conns[j] {
      OfRing(s, j);
    }
    assert t.conns == s.conns;
    assert v.giving[..w + 1] == v.giving[..w] + [v.giving[w]];
    forall j | 0 <= j < |t.conns| ensures Settled(t, j) {
      OfRing(s, j);
      assert j != i ==> t.wrote[j] == 0 by {
        assert t.wrote[i] > 0;
      }
      Settle(t, j);
    }
  }

  lemma RingKept(slots: seq<nat>, head: nat, tail: nat, at: nat, bid: nat)
    requires head <= tail <= at < head + |slots|
    ensures InSlots(slots[at % |slots| := bid], head, tail) == InSlots(slots, head, tail)
  {
    var next := slots[at % |slots| := bid];
    forall i | 0 <= i < tail - head ensures InSlots(next, head, tail)[i] == InSlots(slots, head, tail)[i] {
      SlotsApart(|slots|, head + i, at);
    }
  }

  // An advance publishes what its return wrote.
  lemma AdvanceGood(s: State, i: nat)
    requires Good(s) && Enabled(s, Advance(i)) && Apart(s)
    ensures Good(StepAdvance(s, i)) && StepAdvance(s, i).conns == S.StepAt(s.conns, i, Moves(Publish))
  {
    hide S.AllHeld, S.Held, Inv, Settled, InSlots, Step;
    var t := StepAdvance(s, i);
    var g := s.conns[i].giving;
    OfRing(s, i);
    assert g[..|g|] == g;
    TwoParts(s.slots, s.head, s.tail, t.tail);
    assert Ring(t) == Ring(s) + g;
    S.TogetherInv(s.conns, i, Moves(Publish));
    AdvanceIsPublish(s, i);
    forall j | 0 <= j < |t.conns| ensures Settled(t, j) {
      OfRing(s, j);
      assert s.wrote[i] > 0;
      assert t.wrote[j] == 0;
      assert t.conns[j].ring == Ring(t);
      Settle(t, j);
    }
  }

  lemma TwoParts(slots: seq<nat>, head: nat, tail: nat, end: nat)
    requires |slots| > 0 && head <= tail <= end
    ensures InSlots(slots, head, end) == InSlots(slots, head, tail) + InSlots(slots, tail, end)
  {
  }

  lemma AdvanceIsPublish(s: State, i: nat)
    requires WellFormed(s) && Good(s) && Enabled(s, Advance(i))
    requires Ring(StepAdvance(s, i)) == Ring(s) + s.conns[i].giving
    ensures StepAdvance(s, i).conns == S.StepAt(s.conns, i, Moves(Publish))
  {
    hide Good, S.Together, S.Held, InSlots, Settled;
    var t, ws := StepAdvance(s, i), S.StepAt(s.conns, i, Moves(Publish));
    forall j | 0 <= j < |ws| ensures ws[j] == t.conns[j] {
      assert s.conns[j].ring == Ring(s) by { GoodAt(s, j); }
      if j == i {
        PublishIs(s.conns[i]);
      } else {
        assert multiset(s.conns[i].giving) <= s.conns[j].others by { GivingElsewhere(s, i, j); }
        PublishSeen(s.conns[i]);
        OtherPublishes(s.conns[j], s.conns[i].giving);
      }
    }
  }

  lemma GoodAt(s: State, i: nat)
    requires Good(s) && i < |s.conns|
    ensures s.conns[i].ring == Ring(s) && Inv(s.conns[i]) && s.conns[i].n == |s.slots|
  {
    hide S.Together, S.AllHeld, Inv, Settled, InSlots;
    OfRing(s, i);
    TogetherAt(s.conns, i);
  }

  lemma GivingElsewhere(s: State, i: nat, j: nat)
    requires Good(s) && i < |s.conns| && j < |s.conns| && i != j
    ensures multiset(s.conns[i].giving) <= s.conns[j].others
  {
    hide S.Together, S.AllHeld, S.Held, Inv, Settled, InSlots;
    S.HeldByOthers(s.conns, i, j);
    GivingHeld(s.conns[i]);
  }

  lemma GivingHeld(v: View)
    ensures multiset(v.giving) <= S.Held(v)
  {
    hide Bids;
  }

  lemma PublishIs(v: View)
    requires v.giving != []
    ensures BufferRing.Apply(v, Moves(Publish)) == v.(ring := v.ring + v.giving, giving := [])
  {
  }

  lemma PublishSeen(v: View)
    requires v.giving != []
    ensures S.Seen(v, Moves(Publish)) == Some(OtherReturns(v.giving))
  {
  }

  lemma OtherPublishes(v: View, bids: seq<nat>)
    requires multiset(bids) <= v.others
    ensures BufferRing.Apply(v, Moves(OtherReturns(bids)))
            == v.(ring := v.ring + bids, others := v.others - multiset(bids))
  {
  }

  lemma StepGood(s: State, a: Action)
    requires WellFormed(s) && Good(s) && Apart(s) && Apart(Apply(s, a))
    ensures Good(Apply(s, a))
  {
    hide Good, StepWrite, StepAdvance, S.StepAt;
    if Enabled(s, a) {
      match a
      case Act(i, e) => ActGood(s, i, e);
      case Write(i) => WriteGood(s, i);
      case Advance(i) => AdvanceGood(s, i);
    }
  }

  // ---- returns that overlap ------------------------------------------------------------------

  // The second return's first write lands on the first return's: one buffer is
  // in no place any more, the other counts for both.
  lemma OverlapIsNotSole(s: State, a: Action)
    requires Good(s) && Apart(s) && !Apart(Apply(s, a))
    ensures !Sole(Apply(s, a))
  {
    hide S.AllHeld, S.Together, S.Held, Inv, Settled, Standing, Owners;
    OnlyWritesOverlap(s, a);
    var i, t := a.conn, Apply(s, a);
    var j :| 0 <= j < |s.wrote| && j != i && s.wrote[j] > 0;
    GoodAt(s, i);
    GoodAt(s, j);
    OfRing(s, i);
    OfRing(s, j);
    RoomToGive(s.conns[i]);
    var bid := s.conns[i].giving[0];
    assert bid in s.conns[i].giving;
    assert s.wrote[i] == 0;
    FirstStaged(t, i);
    FirstStaged(t, j);
    HeldTwice(t, i, j, bid);
  }

  lemma FirstStaged(s: State, i: nat)
    requires WellFormed(s) && i < |s.conns| && s.wrote[i] > 0
    ensures s.slots[s.tail % |s.slots|] in Standing(s, i).giving
  {
    assert Staged(s, i)[0] == s.slots[s.tail % |s.slots|];
    assert Staged(s, i)[0] in Staged(s, i);
  }

  lemma HeldTwice(s: State, i: nat, j: nat, bid: nat)
    requires WellFormed(s) && i < |s.conns| && j < |s.conns| && i != j && bid < |s.slots|
    requires bid in Standing(s, i).giving && bid in Standing(s, j).giving
    ensures !Sole(s)
  {
    hide S.AllHeld, S.Held, Standing, InSlots;
    var vs := AllStanding(s);
    S.TwoHeld(vs, i, j);
    GivingHeld(vs[i]);
    GivingHeld(vs[j]);
    assert S.Held(vs[i])[bid] >= 1 && S.Held(vs[j])[bid] >= 1 by {
      assert multiset(vs[i].giving)[bid] >= 1 && multiset(vs[j].giving)[bid] >= 1;
    }
    assert (S.Held(vs[i]) + S.Held(vs[j]))[bid] <= S.AllHeld(vs)[bid];
    assert Owners(s)[bid] >= 2;
  }

  // Only the first write of a second return makes two of them overlap.
  lemma OnlyWritesOverlap(s: State, a: Action)
    requires WellFormed(s) && Apart(s) && !Apart(Apply(s, a))
    ensures BeginsSecond(s, a)
  {
    hide Apart, BeginsSecond, Apply;
    if !BeginsSecond(s, a) {
      StaysApart(s, a);
    }
  }

  predicate BeginsSecond(s: State, a: Action)
    requires WellFormed(s)
  {
    && a.Write? && Enabled(s, a) && s.wrote[a.conn] == 0
    && exists j :: 0 <= j < |s.wrote| && j != a.conn && s.wrote[j] > 0
  }

  lemma StaysApart(s: State, a: Action)
    requires WellFormed(s) && Apart(s) && !BeginsSecond(s, a)
    ensures Apart(Apply(s, a))
  {
    hide S.StepAt, InSlots, Takes;
    var t := Apply(s, a);
    if Enabled(s, a) {
      match a
      case Act(_, _) => assert t.wrote == s.wrote;
      case Advance(k) => assert t.wrote == s.wrote[k := 0];
      case Write(k) => assert t.wrote == s.wrote[k := s.wrote[k] + 1];
    }
  }

  // ---- every run ---------------------------------------------------------------------------

  function Begin(conns: nat, n: nat, bufSize: nat, memory: seq<Bytes>): (s: State)
    requires n > 0
    ensures WellFormed(s)
  {
    State(Upto(n), 0, n, S.Start(conns, n, bufSize, memory), seq(conns, _ => 0))
  }

  function Exec(s: State, actions: seq<Action>): (t: State)
    requires WellFormed(s)
    ensures WellFormed(t)
    decreases |actions|
  {
    if actions == [] then s else Exec(Apply(s, actions[0]), actions[1..])
  }

  ghost predicate AlwaysSole(s: State, actions: seq<Action>)
    requires WellFormed(s)
    decreases |actions|
  {
    Sole(s) && (actions == [] || AlwaysSole(Apply(s, actions[0]), actions[1..]))
  }

  predicate AlwaysApart(s: State, actions: seq<Action>)
    requires WellFormed(s)
    decreases |actions|
  {
    Apart(s) && (actions == [] || AlwaysApart(Apply(s, actions[0]), actions[1..]))
  }

  lemma {:induction false} ExactlyApart(s: State, actions: seq<Action>)
    requires WellFormed(s) && Good(s) && Apart(s)
    ensures AlwaysSole(s, actions) <==> AlwaysApart(s, actions)
    ensures AlwaysApart(s, actions) ==> Good(Exec(s, actions))
    decreases |actions|
  {
    hide Good, Sole, Apart, Apply;
    GoodIsSole(s);
    if actions != [] {
      var t := Apply(s, actions[0]);
      if Apart(t) {
        StepGood(s, actions[0]);
        ExactlyApart(t, actions[1..]);
      } else {
        OverlapIsNotSole(s, actions[0]);
      }
    }
  }

  lemma BeginGood(conns: nat, n: nat, bufSize: nat, memory: seq<Bytes>)
    requires |memory| == n > 0 && forall b | 0 <= b < n :: |memory[b]| == bufSize
    ensures Good(Begin(conns, n, bufSize, memory)) && Apart(Begin(conns, n, bufSize, memory))
  {
    hide S.Together, Inv;
    S.StartTogether(conns, n, bufSize, memory);
    assert InSlots(Upto(n), 0, n) == Upto(n);
    forall i | 0 <= i < conns ensures Settled(Begin(conns, n, bufSize, memory), i) {
      Settle(Begin(conns, n, bufSize, memory), i);
    }
  }

  // In every run of any number of connections on one group, each buffer is in
  // one place at every moment - the ring, one connection, or the slot its return
  // wrote it to - exactly if no two returns of the group ever overlap.
  lemma OneOwnerExactly(conns: nat, n: nat, bufSize: nat, memory: seq<Bytes>, actions: seq<Action>)
    requires |memory| == n > 0 && forall b | 0 <= b < n :: |memory[b]| == bufSize
    ensures var s := Begin(conns, n, bufSize, memory);
            AlwaysSole(s, actions) <==> AlwaysApart(s, actions)
  {
    BeginGood(conns, n, bufSize, memory);
    ExactlyApart(Begin(conns, n, bufSize, memory), actions);
  }

  // ---- each connection's own run --------------------------------------------------------

  // What an action is to connection i.
  function Look(s: State, a: Action, i: nat): seq<Event>
    requires WellFormed(s)
  {
    if !Enabled(s, a) then []
    else
      match a
      case Act(j, e) => LookAt(s.conns, j, e, i)
      case Write(_) => []
      case Advance(j) => LookAt(s.conns, j, Moves(Publish), i)
  }

  function LookAt(vs: seq<View>, j: nat, e: Event, i: nat): seq<Event>
    requires j < |vs| && S.Own(e)
  {
    if j == i then [e]
    else
      match S.Seen(vs[j], e)
      case None => []
      case Some(m) => [Moves(m)]
  }

  function Trace(s: State, actions: seq<Action>, i: nat): seq<Event>
    requires WellFormed(s)
    decreases |actions|
  {
    if actions == [] then [] else Look(s, actions[0], i) + Trace(Apply(s, actions[0]), actions[1..], i)
  }

  lemma Single(v: View, e: Event)
    requires Inv(v)
    ensures BufferRing.Exec(v, [e]) == BufferRing.Apply(v, e)
  {
    hide Inv, BufferRing.Apply;
    Exec1(v, [e]);
    assert [e][1..] == [];
  }

  lemma LookAtIs(vs: seq<View>, j: nat, e: Event, i: nat)
    requires S.Together(vs) && j < |vs| && i < |vs| && S.Own(e)
    ensures Inv(vs[i]) && BufferRing.Exec(vs[i], LookAt(vs, j, e, i)) == S.StepAt(vs, j, e)[i]
  {
    hide S.Together, Inv, BufferRing.Apply, S.Seen;
    TogetherAt(vs, i);
    if j == i {
      Single(vs[i], e);
    } else {
      match S.Seen(vs[j], e)
      case None =>
      case Some(m) => Single(vs[i], Moves(m));
    }
  }

  lemma LookIs(s: State, a: Action, i: nat)
    requires WellFormed(s) && Good(s) && Apart(s) && Apart(Apply(s, a)) && i < |s.conns| == |Apply(s, a).conns|
    ensures Inv(s.conns[i]) && BufferRing.Exec(s.conns[i], Look(s, a, i)) == Apply(s, a).conns[i]
  {
    GoodAt(s, i);
    assert S.Together(s.conns);
    hide Good, Apart, StepWrite, StepAdvance, S.Together, Inv, LookAt, S.StepAt;
    if Enabled(s, a) {
      match a
      case Act(j, e) => LookAtIs(s.conns, j, e, i);
      case Write(j) => WriteGood(s, j);
      case Advance(j) =>
        AdvanceGood(s, j);
        LookAtIs(s.conns, j, Moves(Publish), i);
    }
  }

  lemma {:induction false} TraceIs(s: State, actions: seq<Action>, i: nat)
    requires WellFormed(s) && Good(s) && AlwaysApart(s, actions) && i < |s.conns|
    ensures Inv(s.conns[i]) && i < |Exec(s, actions).conns|
    ensures BufferRing.Exec(s.conns[i], Trace(s, actions, i)) == Exec(s, actions).conns[i]
    decreases |actions|
  {
    hide Good, Apart, Apply, Look, Inv;
    GoodAt(s, i);
    if actions != [] {
      var t := Apply(s, actions[0]);
      ConnsStay(s, [actions[0]]);
      assert Exec(s, [actions[0]]) == Exec(t, [actions[0]][1..]) == t;
      StepGood(s, actions[0]);
      LookIs(s, actions[0], i);
      TraceIs(t, actions[1..], i);
      ExecAppend(s.conns[i], Look(s, actions[0], i), Trace(t, actions[1..], i));
    }
  }

  // While returns do not overlap, each connection goes through a run of its own,
  // in which the others are its surroundings.
  lemma ConnectionRuns(conns: nat, n: nat, bufSize: nat, memory: seq<Bytes>, actions: seq<Action>, i: nat)
    requires |memory| == n > 0 && (forall b | 0 <= b < n :: |memory[b]| == bufSize) && i < conns
    requires AlwaysApart(Begin(conns, n, bufSize, memory), actions)
    ensures Begins(n, bufSize, Upto(n), memory, multiset{})
    ensures var start := Begin(conns, n, bufSize, memory);
            && i < |Exec(start, actions).conns|
            && Exec(start, actions).conns[i]
               == Run(n, bufSize, Upto(n), memory, multiset{}, Trace(start, actions, i))
  {
    hide Good, AlwaysApart, Exec, Begin, Inv, Run, Trace;
    var start := Begin(conns, n, bufSize, memory);
    BeginGood(conns, n, bufSize, memory);
    BeginConns(conns, n, bufSize, memory, i);
    TraceIs(start, actions, i);
    RunIs(n, bufSize, Upto(n), memory, multiset{}, Trace(start, actions, i));
  }

  // While returns do not overlap, no connection disturbs another: each consumes
  // the bytes it received, in order, and after its cleanup holds nothing but what
  // is on its way back.
  lemma NobodyInterferes(conns: nat, n: nat, bufSize: nat, memory: seq<Bytes>, actions: seq<Action>, i: nat)
    requires |memory| == n > 0 && (forall b | 0 <= b < n :: |memory[b]| == bufSize) && i < conns
    requires AlwaysApart(Begin(conns, n, bufSize, memory), actions)
    ensures var s := Exec(Begin(conns, n, bufSize, memory), actions);
            && i < |s.conns|
            && var v := s.conns[i];
               && Inv(v) && v.ring == Ring(s)
               && (v.st.phase.Using? ==> v.consumed + v.reasm <= v.received)
               && (v.st.phase.Using? && v.hand == v.queue == v.posted == [] ==> v.consumed + v.reasm == v.received)
               && (v.st.abandoned ==>
                     S.Held(v) == multiset(Bids(v.posted)) + multiset(v.giving) + multiset(v.lost))
  {
    hide Good, AlwaysApart, Exec, Begin, InSlots, Inv;
    var start := Begin(conns, n, bufSize, memory);
    BeginGood(conns, n, bufSize, memory);
    ExactlyApart(start, actions);
    var s := Exec(start, actions);
    ConnsStay(start, actions);
    BeginConns(conns, n, bufSize, memory, i);
    GoodAt(s, i);
    InOrder(s.conns[i]);
  }

  lemma BeginConns(conns: nat, n: nat, bufSize: nat, memory: seq<Bytes>, i: nat)
    requires n > 0 && i < conns
    ensures |Begin(conns, n, bufSize, memory).conns| == conns
    ensures Begin(conns, n, bufSize, memory).conns[i] == Init(n, bufSize, Upto(n), memory, multiset{})
  {
  }

  lemma {:induction false} ConnsStay(s: State, actions: seq<Action>)
    requires WellFormed(s)
    ensures |Exec(s, actions).conns| == |s.conns|
    decreases |actions|
  {
    hide InSlots;
    if actions != [] {
      ConnsStay(Apply(s, actions[0]), actions[1..]);
    }
  }

  lemma InOrder(v: View)
    requires Inv(v)
    ensures v.st.phase.Using? ==> v.consumed + v.reasm <= v.received
    ensures v.st.phase.Using? && v.hand == v.queue == v.posted == [] ==> v.consumed + v.reasm == v.received
    ensures v.st.abandoned ==> S.Held(v) == multiset(Bids(v.posted)) + multiset(v.giving) + multiset(v.lost)
  {
    hide Owned, Fitting, EndsOnce, Disposal, Unstarted;
    FrontOf(v.consumed + v.reasm, Payload(v.memory, v.hand), Payload(v.memory, v.queue), Payload(v.memory, v.posted));
    BidsNone();
  }
}
