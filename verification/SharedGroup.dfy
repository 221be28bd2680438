// Any number of connections on one buffer group.  They share the ring and the
// buffers' memory; a step of one is a step of the others' surroundings, as long as
// each return publishes what it took.  RingSlots shows when it does.
module SharedGroup {
  import opened Prelude
  import opened BufferRing

  // The buffers a connection holds, with those it is giving back and those it
  // lost.
  ghost function Held(v: View): multiset<nat> {
    multiset(Bids(v.posted)) + multiset(Bids(v.queue)) + Away(v) + multiset(Bids(v.hand))
  }

  ghost function AllHeld(vs: seq<View>): multiset<nat> {
    if vs == [] then multiset{} else Held(vs[0]) + AllHeld(vs[1..])
  }

  lemma AddBoth(h: multiset<nat>, a: multiset<nat>, b: multiset<nat>, c: multiset<nat>, d: multiset<nat>)
    requires a + b == c + d
    ensures (h + a) + b == (h + c) + d
  {
    assert (h + a) + b == h + (a + b) && (h + c) + d == h + (c + d);
  }

  lemma {:induction false} AllHeldStep(vs: seq<View>, ws: seq<View>, i: nat)
    requires i < |vs| == |ws| && forall j | 0 <= j < |vs| && j != i :: Held(ws[j]) == Held(vs[j])
    ensures AllHeld(ws) + Held(vs[i]) == AllHeld(vs) + Held(ws[i])
  {
    hide Held;
    if i == 0 {
      AllHeldSame(vs[1..], ws[1..]);
    } else {
      assert Held(ws[0]) == Held(vs[0]);
      AllHeldStep(vs[1..], ws[1..], i - 1);
      AddBoth(Held(vs[0]), AllHeld(ws[1..]), Held(vs[i]), AllHeld(vs[1..]), Held(ws[i]));
    }
  }

  lemma {:induction false} AllHeldSame(vs: seq<View>, ws: seq<View>)
    requires |vs| == |ws| && forall j | 0 <= j < |vs| :: Held(ws[j]) == Held(vs[j])
    ensures AllHeld(ws) == AllHeld(vs)
  {
    hide Held;
    if vs != [] {
      AllHeldSame(vs[1..], ws[1..]);
    }
  }

  lemma {:induction false} TwoHeld(vs: seq<View>, i: nat, j: nat)
    requires i < |vs| && j < |vs| && i != j
    ensures Held(vs[i]) + Held(vs[j]) <= AllHeld(vs)
  {
    hide Held;
    if i == 0 {
      OneHeld(vs[1..], j - 1);
    } else if j == 0 {
      OneHeld(vs[1..], i - 1);
    } else {
      TwoHeld(vs[1..], i - 1, j - 1);
    }
  }

  lemma {:induction false} OneHeld(vs: seq<View>, i: nat)
    requires i < |vs|
    ensures Held(vs[i]) <= AllHeld(vs)
  {
    hide Held;
    if i > 0 {
      OneHeld(vs[1..], i - 1);
    }
  }

  // ---- the group as a whole ------------------------------------------------------

  // What a connection does itself.
  predicate Own(e: Event) {
    match e
    case Moves(OtherTakes(_)) => false
    case Moves(OtherReturns(_)) => false
    case _ => true
  }

  // How its step looks to another connection.
  function Seen(v: View, e: Event): Option<Move>
    requires Own(e)
  {
    if !Takes(v, e) then None
    else
      match e
      case PostData(bytes, _) => Some(OtherTakes(bytes))
      case Moves(Publish) => Some(OtherReturns(v.giving))
      case _ => None
  }

  function After(v: View, seen: Option<Move>): View {
    match seen
    case None => v
    case Some(m) => Apply(v, Moves(m))
  }

  function StepAt(vs: seq<View>, i: nat, e: Event): (ws: seq<View>)
    requires i < |vs| && Own(e)
    ensures |ws| == |vs|
  {
    seq(|vs|, j requires 0 <= j < |vs| => if j == i then Apply(vs[i], e) else After(vs[j], Seen(vs[i], e)))
  }

  ghost predicate SameGroup(v: View, w: View) {
    v.n == w.n && v.bufSize == w.bufSize && v.ring == w.ring && v.memory == w.memory
  }

  ghost predicate Together(vs: seq<View>) {
    && (forall i | 0 <= i < |vs| :: Inv(vs[i]) && vs[i].others + Held(vs[i]) == AllHeld(vs))
    && (forall i, j | 0 <= i < |vs| && 0 <= j < |vs| :: SameGroup(vs[i], vs[j]))
  }

  // What a step does to the ring, and so to what its connection holds.
  ghost predicate Exchanged(v: View, w: View, seen: Option<Move>) {
    match seen
    case None => w.ring == v.ring && w.memory == v.memory && Held(w) == Held(v)
    case Some(OtherTakes(bytes)) =>
      && CanReceive(v, bytes) && w.ring == v.ring[1..] && Held(w) == Held(v) + multiset{v.ring[0]}
      && w.memory == v.memory[v.ring[0] := Filled(v.memory[v.ring[0]], bytes)]
    case Some(OtherReturns(bids)) =>
      w.ring == v.ring + bids && w.memory == v.memory && Held(v) == Held(w) + multiset(bids)
    case _ => false
  }

  lemma Balance(v: View)
    requires Inv(v)
    ensures multiset(v.ring) + Held(v) + v.others == multiset(Upto(v.n))
  {
    hide Fitting, Intact, Flagged, Bids, Away;
  }

  // The ring's side of it.
  ghost predicate RingMoved(v: View, w: View, seen: Option<Move>) {
    && w.others == v.others && w.bufSize == v.bufSize
    && match seen
       case None => w.ring == v.ring && w.memory == v.memory
       case Some(OtherTakes(bytes)) =>
         && CanReceive(v, bytes) && w.ring == v.ring[1..]
         && w.memory == v.memory[v.ring[0] := Filled(v.memory[v.ring[0]], bytes)]
       case Some(OtherReturns(bids)) => w.ring == v.ring + bids && w.memory == v.memory
       case _ => false
  }

  lemma RingPostData(v: View, bytes: Bytes, more: bool)
    requires CanReceive(v, bytes)
    ensures RingMoved(v, StepPostData(v, bytes, more), Some(OtherTakes(bytes)))
  {
    hide Filled, Flags;
  }

  lemma RingPublish(v: View)
    ensures RingMoved(v, StepMove(v, Publish), Some(OtherReturns(v.giving)))
    requires v.giving != []
  {
  }

  lemma RingMove(v: View, m: Move)
    requires MayMove(v, m) && Own(Moves(m)) && !m.Publish?
    ensures RingMoved(v, StepMove(v, m), None)
  {
    hide Bids, BytesOf, Payload, RingMoved;
    match m
    case Append => RingSame(v, StepMove(v, m));
    case Consume(_) => RingSame(v, StepMove(v, m));
    case GivePending => RingSame(v, StepMove(v, m));
    case GiveHand => RingSame(v, StepMove(v, m));
  }

  lemma RingHandle(v: View)
    requires v.posted != []
    ensures RingMoved(v, StepHandle(v), None)
  {
    hide Bids, Terminal, HandleStatus;
  }

  lemma RingStep(v: View, e: Event)
    requires Takes(v, e) && Own(e)
    ensures RingMoved(v, Step(v, e), Seen(v, e))
  {
    hide RingMoved, Bids, MarkStatus, StepPostData, StepHandle, StepMove;
    match e
    case PostData(bytes, more) => RingPostData(v, bytes, more);
    case PostEnd(_) => RingSame(v, Step(v, e));
    case Handle => RingHandle(v);
    case Take => RingSame(v, Step(v, e));
    case Drain => RingSame(v, Step(v, e));
    case Marks(_) => RingSame(v, Step(v, e));
    case Moves(m) =>
      if m.Publish? {
        RingPublish(v);
      } else {
        RingMove(v, m);
      }
  }

  lemma RingSame(v: View, w: View)
    requires w.ring == v.ring && w.memory == v.memory && w.others == v.others && w.bufSize == v.bufSize
    ensures RingMoved(v, w, None)
  {
  }

  // A ring that lost its first buffer, or gained some, changed hands with the
  // connection that moved.
  lemma OwnStep(v: View, e: Event)
    requires Inv(v) && Takes(v, e) && Own(e)
    ensures Exchanged(v, Step(v, e), Seen(v, e))
  {
    hide Inv, Step, Takes, Held, Filled, Seen;
    StepInv(v, e);
    RingStep(v, e);
    StepIsApply(v, e);
    Balance(v);
    Balance(Step(v, e));
    Exchange(v, Step(v, e), Seen(v, e));
  }

  lemma StepIsApply(v: View, e: Event)
    requires Takes(v, e)
    ensures Apply(v, e) == Step(v, e)
  {
    hide Step;
  }

  lemma Exchange(v: View, w: View, seen: Option<Move>)
    requires RingMoved(v, w, seen) && w.n == v.n
    requires multiset(v.ring) + Held(v) + v.others == multiset(Upto(v.n))
    requires multiset(w.ring) + Held(w) + w.others == multiset(Upto(w.n))
    ensures Exchanged(v, w, seen)
  {
    hide Held, Filled, Upto;
    match seen
    case None => Cancel(multiset(v.ring), Held(v), Held(w), v.others);
    case Some(OtherTakes(bytes)) =>
      assert v.ring == [v.ring[0]] + v.ring[1..];
      Cancel(multiset(w.ring), Held(v) + multiset{v.ring[0]}, Held(w), v.others);
    case Some(OtherReturns(bids)) =>
      assert multiset(w.ring) == multiset(v.ring) + multiset(bids);
      Cancel(multiset(v.ring), Held(v), Held(w) + multiset(bids), v.others);
    case _ =>
  }

  lemma Cancel(r: multiset<nat>, a: multiset<nat>, b: multiset<nat>, o: multiset<nat>)
    ensures r + a + o == r + b + o ==> a == b
  {
    if r + a + o == r + b + o {
      forall x ensures a[x] == b[x] {
        assert (r + a + o)[x] == (r + b + o)[x];
      }
    }
  }

  // ---- a step of one is a step of the others' surroundings ------------------------------

  // The others can take the event they see, and follow the ring.
  lemma OtherStep(v: View, w: View, u: View, seen: Option<Move>)
    requires Exchanged(v, w, seen) && Inv(u) && SameGroup(v, u)
    requires w.n == v.n && w.bufSize == v.bufSize && Held(v) <= u.others
    ensures var u' := After(u, seen);
            Inv(u') && SameGroup(w, u') && Held(u') == Held(u) && u'.others + Held(v) == u.others + Held(w)
  {
    hide Inv, Held, Filled, Upto;
    match seen
    case None =>
    case Some(m) =>
      StepInv(u, Moves(m));
      OtherRing(u, m);
      OtherHeld(u, m);
      assert m.OtherReturns? ==> multiset(m.bids) <= Held(v);
  }

  lemma OtherRing(u: View, m: Move)
    requires MayMove(u, m) && !Own(Moves(m))
    ensures var u' := Apply(u, Moves(m));
            && u'.bufSize == u.bufSize
            && (m.OtherTakes? ==>
                  && u'.ring == u.ring[1..] && u'.others == u.others + multiset{u.ring[0]}
                  && u'.memory == u.memory[u.ring[0] := Filled(u.memory[u.ring[0]], m.bytes)])
            && (m.OtherReturns? ==>
                  u'.ring == u.ring + m.bids && u'.memory == u.memory && u'.others == u.others - multiset(m.bids))
  {
    hide Filled, StepAppend, StepConsume, Bids, Payload;
  }

  lemma OtherHeld(u: View, m: Move)
    requires !Own(Moves(m))
    ensures Held(Apply(u, Moves(m))) == Held(u)
  {
    hide Bids, Filled;
  }

  // A connection's buffers are with the others of every other connection.
  lemma HeldByOthers(vs: seq<View>, i: nat, j: nat)
    requires Together(vs) && i < |vs| && j < |vs| && i != j
    ensures Held(vs[i]) <= vs[j].others
  {
    hide Inv, Held, SameGroup;
    TwoHeld(vs, i, j);
    assert vs[j].others + Held(vs[j]) == AllHeld(vs);
    forall x ensures Held(vs[i])[x] <= vs[j].others[x] {
      assert (Held(vs[i]) + Held(vs[j]))[x] <= AllHeld(vs)[x];
    }
  }

  lemma TogetherInv(vs: seq<View>, i: nat, e: Event)
    requires Together(vs) && i < |vs| && Own(e)
    ensures Together(StepAt(vs, i, e))
    ensures forall j | 0 <= j < |vs| :: StepAt(vs, i, e)[j].n == vs[j].n
  {
    hide Inv, Held, Exchanged, Filled, Apply, After, Seen;
    var v, w, seen, ws := vs[i], Apply(vs[i], e), Seen(vs[i], e), StepAt(vs, i, e);
    OwnOrIdle(v, e);
    forall j | 0 <= j < |vs| && j != i
      ensures Inv(ws[j]) && SameGroup(w, ws[j]) && Held(ws[j]) == Held(vs[j])
      ensures ws[j].others + Held(v) == vs[j].others + Held(w)
    {
      HeldByOthers(vs, i, j);
      OtherStep(v, w, vs[j], seen);
    }
    AllHeldStep(vs, ws, i);
    forall j | 0 <= j < |vs| ensures ws[j].others + Held(ws[j]) == AllHeld(ws) {
      assert vs[j].others + Held(vs[j]) == AllHeld(vs);
      if j == i {
        Settle(v.others, Held(v), Held(w), AllHeld(vs), AllHeld(ws));
      } else {
        Settle2(vs[j].others, ws[j].others, Held(vs[j]), Held(v), Held(w), AllHeld(vs), AllHeld(ws));
      }
    }
  }

  lemma OwnOrIdle(v: View, e: Event)
    requires Inv(v) && Own(e)
    ensures var w := Apply(v, e);
            Inv(w) && Exchanged(v, w, Seen(v, e)) && w.n == v.n && w.bufSize == v.bufSize && w.others == v.others
  {
    hide Inv, Held, Step, Seen, Filled;
    StepInv(v, e);
    if Takes(v, e) {
      OwnStep(v, e);
      RingStep(v, e);
      StepIsApply(v, e);
    } else {
      NotSeen(v, e);
    }
  }

  lemma NotSeen(v: View, e: Event)
    requires Own(e) && !Takes(v, e)
    ensures Seen(v, e) == None && Apply(v, e) == v
  {
  }

  lemma Settle(o: multiset<nat>, h: multiset<nat>, k: multiset<nat>, a: multiset<nat>, b: multiset<nat>)
    requires o + h == a && b + h == a + k
    ensures o + k == b
  {
    forall x ensures (o + k)[x] == b[x] {
      assert (o + h)[x] == a[x] && (b + h)[x] == (a + k)[x];
    }
  }

  lemma Settle2(o: multiset<nat>, p: multiset<nat>, g: multiset<nat>, h: multiset<nat>, k: multiset<nat>,
                a: multiset<nat>, b: multiset<nat>)
    requires o + g == a && b + h == a + k && p + h == o + k
    ensures p + g == b
  {
    forall x ensures (p + g)[x] == b[x] {
      assert (o + g)[x] == a[x] && (b + h)[x] == (a + k)[x] && (p + h)[x] == (o + k)[x];
    }
  }

  // ---- the beginning --------------------------------------------------------------------

  function Start(conns: nat, n: nat, bufSize: nat, memory: seq<Bytes>): seq<View> {
    seq(conns, _ => Init(n, bufSize, Upto(n), memory, multiset{}))
  }

  lemma {:induction false} NothingHeld(vs: seq<View>)
    requires forall i | 0 <= i < |vs| :: Held(vs[i]) == multiset{}
    ensures AllHeld(vs) == multiset{}
  {
    hide Held;
    if vs != [] {
      NothingHeld(vs[1..]);
    }
  }

  lemma StartTogether(conns: nat, n: nat, bufSize: nat, memory: seq<Bytes>)
    requires |memory| == n && forall b | 0 <= b < n :: |memory[b]| == bufSize
    ensures Together(Start(conns, n, bufSize, memory))
  {
    hide Inv;
    InitInv(n, bufSize, Upto(n), memory, multiset{});
    BidsNone();
    NothingHeld(Start(conns, n, bufSize, memory));
  }
}
