module StealSlots {
  // The slots behind the work-stealing deque.  A winner reads its slot only after
  // the exchange that claims its item, over a buffer it loaded before,
  // while the owner goes on to write slots and to move items to a larger buffer.
  // This adds the slots to the claims of StealClaims, one access at a time.

  import opened Prelude
  import Bits
  import C = StealClaims

  // What the owner is doing beside its phase in the deque.
  datatype Owner =
    | Free
    | Loaded(t: int)          // push loaded bottom and top
    | Growing(t: int, i: int) // resize has moved the indices t .. i - 1
    | Roomy                   // push is about to put its item
    | Claimed(i: int, item: nat)  // pop won index i and is about to read it

  datatype Thief =
    | Out
    | Found                   // saw an item, about to load m_buffer
    | Ready(k: nat)           // loaded buffer k, about to exchange top
    | Holding(x: int, k: nat, item: nat)  // won index x, about to read it from buffer k

  datatype State = State(
    d: C.Deque,
    caps: seq<nat>,           // the capacities of the buffers made so far
    slots: map<(nat, int), nat>,  // what stands in a slot of a buffer; absent, moved out or never put
    cur: nat,                 // m_buffer
    owner: Owner,
    thieves: seq<Thief>,
    got: seq<(nat, Option<nat>)>) // history: items claimed, and what their winners read

  datatype Event =
    | Load
    | Check
    | Move
    | Adopt
    | Put
    | Publish
    | Decrement
    | LoadTop
    | Exchange
    | Restore
    | Read
    | StealTop(t: nat)
    | StealBottom(t: nat)
    | LoadBuffer(t: nat)
    | Steal(t: nat)
    | ReadSlot(t: nat)

  function Init(capacity: nat, thieves: nat): State {
    State(C.Init(thieves), [capacity], map[], 0, Free, seq(thieves, _ => Out), [])
  }

  // The slot of index i in buffer k, and what stands there.
  function Cell(caps: seq<nat>, k: nat, i: int): (nat, int) {
    (k, if k < |caps| && caps[k] > 0 then i % caps[k] else 0)
  }

  function At(s: State, k: nat, i: int): Option<nat> {
    var c := Cell(s.caps, k, i);
    if c in s.slots then Some(s.slots[c]) else None
  }

  predicate Takes(s: State, e: Event) {
    match e
    case Load => s.d.owner.Idle? && s.owner.Free?
    case Check => s.owner.Loaded? && s.cur < |s.caps|
    case Move => s.owner.Growing? && s.owner.i < s.d.bottom
    case Adopt => s.owner.Growing? && s.owner.i >= s.d.bottom && s.caps != []
    case Put => s.owner.Roomy?
    case Publish => s.d.owner.Stored?
    case Decrement => s.d.owner.Idle? && s.owner.Free?
    case LoadTop => s.d.owner.PopStored?
    case Exchange => s.d.owner.PopLast?
    case Restore => s.d.owner.Restoring?
    case Read => s.owner.Claimed? && s.d.owner.Idle?
    case _ =>
      e.t < |s.thieves| && e.t < |s.d.thieves|
      && var p := s.thieves[e.t];
         match e
         case StealTop(_) => p.Out? && s.d.thieves[e.t].Away?
         case StealBottom(_) => p.Out? && s.d.thieves[e.t].HasTop?
         case LoadBuffer(_) => p.Found?
         case Steal(_) => p.Ready? && s.d.thieves[e.t].HasBottom?
         case _ => p.Holding?
  }

  // One round of resize's loop: what stands at i in the old buffer is moved out
  // and put into the new one.
  function MoveStep(s: State): State
    requires s.owner.Growing?
  {
    var i := s.owner.i;
    var a, b := Cell(s.caps, s.cur, i), Cell(s.caps, s.cur + 1, i);
    s.(owner := Growing(s.owner.t, i + 1),
       slots := if a in s.slots then (s.slots - {a})[b := s.slots[a]] else s.slots - {b})
  }

  function StealStep(s: State, t: nat): State
    requires Takes(s, Steal(t))
  {
    var x := s.d.thieves[t].x;
    s.(d := C.Apply(s.d, C.StealExchange(t)),
       thieves := s.thieves[t := if s.d.top == x then Holding(x, s.thieves[t].k, C.Item(s.d, x)) else Out])
  }

  function Step(s: State, e: Event): State
    requires Takes(s, e)
  {
    var b := s.d.bottom;
    match e
    case Load => s.(d := C.Apply(s.d, C.PushLoad), owner := Loaded(s.d.top))
    case Check =>
      var cap: nat := s.caps[s.cur];
      if b - s.owner.t >= cap - 1 then s.(owner := Growing(s.owner.t, s.owner.t), caps := s.caps + [2 * cap])
      else s.(owner := Roomy)
    case Move => MoveStep(s)
    case Adopt => s.(owner := Roomy, cur := |s.caps| - 1)
    case Put =>
      s.(d := C.Apply(s.d, C.PushPut), slots := s.slots[Cell(s.caps, s.cur, b) := s.d.pushed], owner := Free)
    case Publish => s.(d := C.Apply(s.d, C.PushPublish))
    case Decrement => s.(d := C.Apply(s.d, C.PopDecrement))
    case LoadTop =>
      s.(d := C.Apply(s.d, C.PopLoadTop), owner := if s.d.top < b then Claimed(b, C.Item(s.d, b)) else s.owner)
    case Exchange =>
      s.(d := C.Apply(s.d, C.PopExchange), owner := if s.d.top == b then Claimed(b, C.Item(s.d, b)) else s.owner)
    case Restore => s.(d := C.Apply(s.d, C.PopRestore))
    case Read =>
      s.(got := s.got + [(s.owner.item, At(s, s.cur, s.owner.i))],
         slots := s.slots - {Cell(s.caps, s.cur, s.owner.i)}, owner := Free)
    case StealTop(t) => s.(d := C.Apply(s.d, C.StealLoadTop(t)))
    case StealBottom(t) =>
      var seen := s.d.thieves[t].x < b;
      s.(d := C.Apply(s.d, C.StealLoadBottom(t)), thieves := s.thieves[t := if seen then Found else Out])
    case LoadBuffer(t) => s.(thieves := s.thieves[t := Ready(s.cur)])
    case Steal(t) => StealStep(s, t)
    case ReadSlot(t) =>
      var p := s.thieves[t];
      s.(got := s.got + [(p.item, At(s, p.k, p.x))],
         slots := s.slots - {Cell(s.caps, p.k, p.x)}, thieves := s.thieves[t := Out])
  }

  function Apply(s: State, e: Event): State {
    if Takes(s, e) then Step(s, e) else s
  }

  // The event of the deque that a step is, if it is one.
  function Claim(e: Event): Option<C.Event> {
    match e
    case Load => Some(C.PushLoad)
    case Put => Some(C.PushPut)
    case Publish => Some(C.PushPublish)
    case Decrement => Some(C.PopDecrement)
    case LoadTop => Some(C.PopLoadTop)
    case Exchange => Some(C.PopExchange)
    case Restore => Some(C.PopRestore)
    case StealTop(t) => Some(C.StealLoadTop(t))
    case StealBottom(t) => Some(C.StealLoadBottom(t))
    case Steal(t) => Some(C.StealExchange(t))
    case _ => None
  }

  // ---- what always holds -------------------------------------------------------------

  ghost predicate PhasesOk(s: State) {
    && (s.owner.Loaded? || s.owner.Growing? || s.owner.Roomy? <==> s.d.owner.Pushing?)
    && (s.owner.Claimed? ==> s.d.owner.Idle? || s.d.owner.Restoring?)
    && |s.thieves| == |s.d.thieves|
    && forall t | 0 <= t < |s.thieves| :: ThiefPhase(s.thieves[t], s.d.thieves[t], s.cur)
  }

  ghost predicate ThiefPhase(p: Thief, q: C.Thief, cur: nat) {
    match p
    case Out => !q.HasBottom?
    case Found => q.HasBottom?
    case Ready(k) => q.HasBottom? && k <= cur
    case Holding(_, k, _) => q.Away? && k <= cur
  }

  // The indices in use, from the top an owner may have loaded long ago, fit the
  // buffer.
  ghost predicate SizesOk(s: State) {
    && s.cur < |s.caps| && (forall k | 0 <= k < |s.caps| :: s.caps[k] >= 2)
    && (if s.owner.Growing? then |s.caps| == s.cur + 2 && s.caps[s.cur + 1] == 2 * s.caps[s.cur]
        else |s.caps| == s.cur + 1)
    && var cap, b, top := s.caps[s.cur], s.d.bottom, s.d.top;
       && C.LogicalBottom(s.d) - top <= cap - 1
       && (s.owner.Loaded? || s.owner.Growing? ==> 0 <= s.owner.t <= top && b - s.owner.t <= cap - 1)
       && (s.owner.Growing? ==> s.owner.t <= s.owner.i <= b)
       && (s.owner.Roomy? || s.d.owner.Stored? ==> b + 1 - top <= cap - 1)
  }

  // Every item stands in one slot at most.
  ghost predicate Once(s: State) {
    && (forall c | c in s.slots :: c.0 < |s.caps| && s.slots[c] < s.d.pushed + (if s.d.owner.Stored? then 1 else 0))
    && forall c, c' | c in s.slots && c' in s.slots && c != c' :: s.slots[c] != s.slots[c']
  }

  // Each winner that has not read yet holds an item claimed, and no other does.
  ghost predicate HoldersOk(s: State) {
    && (forall t | 0 <= t < |s.thieves| && s.thieves[t].Holding? :: s.thieves[t].item in s.d.claimed)
    && (s.owner.Claimed? ==> s.owner.item in s.d.claimed)
    && (forall t, u | 0 <= t < u < |s.thieves| && s.thieves[t].Holding? && s.thieves[u].Holding? ::
          s.thieves[t].item != s.thieves[u].item)
    && (forall t | 0 <= t < |s.thieves| && s.thieves[t].Holding? && s.owner.Claimed? ::
          s.thieves[t].item != s.owner.item)
  }

  ghost predicate Inv(s: State) {
    C.Inv(s.d) && PhasesOk(s) && SizesOk(s) && Once(s) && HoldersOk(s)
  }

  lemma InitInv(capacity: nat, thieves: nat)
    requires capacity >= 2
    ensures Inv(Init(capacity, thieves))
  {
    C.InitInv(thieves);
  }

  // The claims go their way: a step is the deque's own step, or leaves it alone.
  lemma StepClaims(s: State, e: Event)
    requires Takes(s, e)
    ensures Step(s, e).d == if Claim(e).Some? then C.Apply(s.d, Claim(e).value) else s.d
  {
    hide C.Apply;
  }

  lemma StepPhases(s: State, e: Event)
    requires PhasesOk(s) && SizesOk(s) && Takes(s, e)
    ensures PhasesOk(Step(s, e))
  {
    var s' := Step(s, e);
    forall t | 0 <= t < |s'.thieves| ensures ThiefPhase(s'.thieves[t], s'.d.thieves[t], s'.cur) {
      assert ThiefPhase(s.thieves[t], s.d.thieves[t], s.cur);
    }
  }

  lemma StepSizes(s: State, e: Event)
    requires C.Inv(s.d) && PhasesOk(s) && SizesOk(s) && Takes(s, e)
    ensures SizesOk(Step(s, e))
  {
    if e.Steal? {
      StealSizes(s, e.t);
    } else if e.Check? || e.Adopt? || e.Move? {
      BufferSizes(s, e);
    } else {
      assert 0 <= s.d.top <= C.LogicalBottom(s.d);
      EndsMove(s, e);
      hide C.Inv, ThiefPhase, Step;
    }
  }

  lemma EndsMove(s: State, e: Event)
    requires PhasesOk(s) && Takes(s, e) && !e.Steal? && !e.Check? && !e.Adopt? && !e.Move?
    ensures var s' := Step(s, e);
            && s'.caps == s.caps && s'.cur == s.cur && s'.d.top >= s.d.top
            && (s'.owner == s.owner || s'.owner.Free? || s'.owner.Claimed? || (e.Load? && s'.owner == Loaded(s.d.top)))
            && (s'.d.owner.Stored? ==> s.owner.Roomy? || s.d.owner.Stored?)
            && (s'.owner.Roomy? || s'.owner.Loaded? || s'.owner.Growing? || s'.d.owner.Stored? ==>
                  s'.d.bottom == s.d.bottom)
            && (s.owner.Growing? ==> s'.owner == s.owner)
            && C.LogicalBottom(s'.d) <= C.LogicalBottom(s.d) + (if s.d.owner.Stored? then 1 else 0)
            && (s.d.owner.Stored? ==> C.LogicalBottom(s.d) == s.d.bottom)
  {
    hide ThiefPhase;
  }

  lemma BufferSizes(s: State, e: Event)
    requires PhasesOk(s) && SizesOk(s) && Takes(s, e) && (e.Check? || e.Adopt? || e.Move?)
    ensures SizesOk(Step(s, e))
  {
    hide ThiefPhase;
  }

  lemma StealSizes(s: State, t: nat)
    requires C.Inv(s.d) && PhasesOk(s) && SizesOk(s) && Takes(s, Steal(t))
    ensures SizesOk(Step(s, Steal(t)))
  {
    assert C.ThiefOk(s.d, s.d.thieves[t]);
  }

  // Writing an item that stands nowhere, moving one, and taking one out.
  lemma OnceMoved(s: State)
    requires PhasesOk(s) && SizesOk(s) && Once(s) && Takes(s, Move)
    ensures Once(MoveStep(s))
  {
    hide PhasesOk;
    var s', i := MoveStep(s), s.owner.i;
    var a, b := Cell(s.caps, s.cur, i), Cell(s.caps, s.cur + 1, i);
    forall c, c' | c in s'.slots && c' in s'.slots && c != c' ensures s'.slots[c] != s'.slots[c'] {
      assert c != b ==> c != a && c in s.slots;
      assert c' != b ==> c' != a && c' in s.slots;
    }
  }

  lemma OncePut(s: State)
    requires PhasesOk(s) && SizesOk(s) && Once(s) && Takes(s, Put)
    ensures Once(Step(s, Put))
  {
  }

  lemma SlotsAlone(s: State, e: Event)
    requires Takes(s, e) && e != Move && e != Put
    ensures var s' := Step(s, e); s'.slots.Keys <= s.slots.Keys && forall c | c in s'.slots :: s'.slots[c] == s.slots[c]
    ensures |Step(s, e).caps| >= |s.caps| && s.d.pushed <= Step(s, e).d.pushed
    ensures s.d.owner.Stored? ==> Step(s, e).d.owner.Stored? || Step(s, e).d.pushed == s.d.pushed + 1
  {
    hide Cell;
  }

  lemma StepOnce(s: State, e: Event)
    requires PhasesOk(s) && SizesOk(s) && Once(s) && Takes(s, e)
    ensures Once(Step(s, e))
  {
    hide PhasesOk, SizesOk, Step;
    if e == Move {
      OnceMoved(s);
      assert Step(s, e) == MoveStep(s) by { MoveIs(s); }
    } else if e == Put {
      OncePut(s);
    } else {
      SlotsAlone(s, e);
    }
  }

  lemma MoveIs(s: State)
    requires Takes(s, Move)
    ensures Step(s, Move) == MoveStep(s)
  {
  }

  lemma StepHolders(s: State, e: Event)
    requires C.Inv(s.d) && PhasesOk(s) && HoldersOk(s) && Takes(s, e)
    ensures HoldersOk(Step(s, e))
  {
    if Claiming(s, e) {
      ClaimIsNew(s, e);
    } else {
      hide C.Inv, PhasesOk;
      ClaimsStay(s, e);
    }
  }

  // The event claims an item.
  predicate Claiming(s: State, e: Event) {
    Takes(s, e) && Claim(e).Some? && C.Wins(s.d, Claim(e).value)
  }

  // The index claimed.
  function Index(s: State, e: Event): int {
    if e.Steal? then s.d.top else s.d.bottom
  }

  lemma ClaimsStay(s: State, e: Event)
    requires Takes(s, e) && !Claiming(s, e)
    ensures var s' := Step(s, e);
            && s'.d.claimed == s.d.claimed && |s'.thieves| == |s.thieves|
            && (s'.owner.Claimed? ==> s'.owner == s.owner)
            && forall t | 0 <= t < |s.thieves| && s'.thieves[t].Holding? :: s'.thieves[t] == s.thieves[t]
  {
  }

  // An item in the window has not been claimed; one claimed has been pushed.
  lemma Unclaimed(d: C.Deque, i: int)
    requires C.Inv(d)
    ensures d.top <= i < C.LogicalBottom(d) ==> i in d.put && d.put[i] !in d.claimed && d.put[i] < d.pushed
    ensures forall n | n in d.claimed :: n < d.pushed
  {
    forall n: nat
      ensures multiset(d.claimed)[n] + multiset(C.Window(d))[n] == if n < d.pushed then 1 else 0
    {
      C.NumbersOnce(d.pushed, n);
      assert (multiset(d.claimed) + multiset(C.Window(d)))[n] == multiset(C.Numbers(d.pushed))[n];
    }
    hide C.Inv;
    assert forall n | n in d.claimed :: n in multiset(d.claimed);
    if d.top <= i < C.LogicalBottom(d) {
      assert C.Window(d)[i - d.top] == d.put[i];
      assert d.put[i] in multiset(C.Window(d));
    }
  }

  lemma ClaimIsNew(s: State, e: Event)
    requires C.Inv(s.d) && PhasesOk(s) && Claiming(s, e)
    ensures var i, s' := Index(s, e), Step(s, e);
            && s.d.top <= i < C.LogicalBottom(s.d) && i in s.d.put
            && s.d.put[i] !in s.d.claimed && s'.d.claimed == s.d.claimed + [s.d.put[i]]
            && (forall n | n in s.d.claimed :: n < s.d.pushed)
            && (if e.Steal? then
                  && s'.thieves == s.thieves[e.t := Holding(i, s.thieves[e.t].k, s.d.put[i])] && s'.owner == s.owner
                  && s.thieves[e.t].Ready?
                else s'.owner == Claimed(i, s.d.put[i]) && s'.thieves == s.thieves && !s.owner.Claimed?)
  {
    var i := Index(s, e);
    assert e.Steal? ==> C.ThiefOk(s.d, s.d.thieves[e.t]);
    assert s.d.top <= i < C.LogicalBottom(s.d);
    Unclaimed(s.d, i);
  }

  lemma StepInv(s: State, e: Event)
    requires Inv(s)
    ensures Inv(Apply(s, e))
  {
    hide C.Inv, PhasesOk, SizesOk, Once, HoldersOk, Step;
    if Takes(s, e) {
      StepClaims(s, e);
      if Claim(e).Some? {
        C.StepInv(s.d, Claim(e).value);
      }
      StepPhases(s, e);
      StepSizes(s, e);
      StepOnce(s, e);
      StepHolders(s, e);
    }
  }

  // ---- every winner can read what it won ------------------------------------------------

  // The buffer that has index i, while it is unclaimed.
  function Home(s: State, i: int): nat {
    if s.owner.Growing? && s.owner.t <= i < s.owner.i then s.cur + 1 else s.cur
  }

  // Every unclaimed item stands in its slot, and every winner's item where the
  // winner will look for it.
  ghost predicate Sound(s: State) {
    && (forall i | s.d.top <= i < C.LogicalBottom(s.d) :: i in s.d.put && At(s, Home(s, i), i) == Some(s.d.put[i]))
    && (s.d.owner.Stored? ==> At(s, s.cur, s.d.bottom) == Some(s.d.pushed))
    && (s.owner.Claimed? ==> At(s, s.cur, s.owner.i) == Some(s.owner.item))
    && forall t | 0 <= t < |s.thieves| :: CanRead(s, s.thieves[t])
  }

  ghost predicate CanRead(s: State, p: Thief) {
    p.Holding? ==> At(s, p.k, p.x) == Some(p.item)
  }

  // The owner writes or empties slot i of its buffer while a thief that has won
  // its item is still to read it, or a thief wins an index over a buffer that no
  // longer has it.
  predicate Hazard(s: State, e: Event) {
    && Takes(s, e)
    && match e
       case Put => Awaited(s, s.d.bottom)
       case Move => Awaited(s, s.owner.i)
       case Steal(t) => s.d.top == s.d.thieves[t].x && s.thieves[t].k != Home(s, s.d.top)
       case _ => false
  }

  predicate Awaited(s: State, i: int) {
    exists t :: 0 <= t < |s.thieves| && s.thieves[t].Holding?
                && Cell(s.caps, s.thieves[t].k, s.thieves[t].x) == Cell(s.caps, s.cur, i)
  }

  lemma Apart(cap: nat, i: int, j: int)
    requires 0 <= i && 0 <= j && i != j && i < j + cap && j < i + cap
    ensures i % cap != j % cap
  {
    if i < j {
      Bits.SlotsApart(cap, i, j);
    } else {
      Bits.SlotsApart(cap, j, i);
    }
  }

  // ---- without a hazard -----------------------------------------------------------------

  lemma PutKeeps(s: State)
    requires Inv(s) && Sound(s) && Takes(s, Put) && !Hazard(s, Put)
    ensures Sound(Step(s, Put))
  {
    hide Once, HoldersOk;
    var s', b := Step(s, Put), s.d.bottom;
    forall i | s.d.top <= i < b ensures At(s', s.cur, i) == At(s, s.cur, i) {
      Apart(s.caps[s.cur], i, b);
    }
    forall t | 0 <= t < |s.thieves| ensures CanRead(s', s.thieves[t]) {
      assert CanRead(s, s.thieves[t]);
    }
  }

  // What a round of resize leaves where it is, and what it moves.
  lemma MovedIndex(s: State, i: int)
    requires PhasesOk(s) && SizesOk(s) && Takes(s, Move) && s.owner.t <= i < s.d.bottom
    ensures At(MoveStep(s), Home(MoveStep(s), i), i) == At(s, Home(s, i), i)
  {
    hide ThiefPhase, C.LogicalBottom;
    var m, cap := s.owner.i, s.caps[s.cur];
    if i != m {
      Apart(cap, i, m);
      Apart(2 * cap, i, m);
    }
  }

  lemma MoveAway(s: State, k: nat, x: int)
    requires s.owner.Growing? && k <= s.cur && Cell(s.caps, k, x) != Cell(s.caps, s.cur, s.owner.i)
    ensures At(MoveStep(s), k, x) == At(s, k, x)
  {
  }

  lemma MoveKeeps(s: State)
    requires Inv(s) && Sound(s) && Takes(s, Move) && !Hazard(s, Move)
    ensures Sound(MoveStep(s))
  {
    hide C.Inv, Once, HoldersOk;
    var s' := MoveStep(s);
    forall i | s.d.top <= i < s.d.bottom ensures At(s', Home(s', i), i) == At(s, Home(s, i), i) {
      MovedIndex(s, i);
    }
    forall t | 0 <= t < |s.thieves| ensures CanRead(s', s.thieves[t]) {
      var p := s.thieves[t];
      assert CanRead(s, p) && ThiefPhase(p, s.d.thieves[t], s.cur);
      if p.Holding? {
        MoveAway(s, p.k, p.x);
      }
    }
    hide At, Home, ThiefPhase;
  }

  // Emptying the slot of one item leaves every other item where it is.
  lemma OnlyOne(s: State, s': State, c: (nat, int), k: nat, i: int, item: nat, n: nat)
    requires c in s.slots && s.slots[c] == item && s'.slots == s.slots - {c} && s'.caps == s.caps
    requires At(s, k, i) == Some(n) && n != item
    ensures At(s', k, i) == Some(n)
  {
  }

  lemma WindowKept(s: State, s': State, c: (nat, int), item: nat)
    requires C.Inv(s.d) && PhasesOk(s) && Sound(s) && item in s.d.claimed
    requires c in s.slots && s.slots[c] == item && s'.slots == s.slots - {c} && s'.caps == s.caps
    requires s'.d == s.d && s'.cur == s.cur && (s'.owner == s.owner || (s.owner.Claimed? && s'.owner.Free?))
    ensures forall i | s.d.top <= i < C.LogicalBottom(s.d) ::
              i in s.d.put && At(s', Home(s', i), i) == Some(s.d.put[i])
    ensures s.d.owner.Stored? ==> At(s', s.cur, s.d.bottom) == Some(s.d.pushed)
  {
    hide C.Inv, PhasesOk;
    forall i | s.d.top <= i < C.LogicalBottom(s.d)
      ensures i in s.d.put && At(s', Home(s', i), i) == Some(s.d.put[i])
    {
      Unclaimed(s.d, i);
      OnlyOne(s, s', c, Home(s, i), i, item, s.d.put[i]);
    }
    Unclaimed(s.d, s.d.top);
    if s.d.owner.Stored? {
      OnlyOne(s, s', c, s.cur, s.d.bottom, item, s.d.pushed);
    }
  }

  lemma ThiefReads(s: State, t: nat)
    requires Inv(s) && Sound(s) && Takes(s, ReadSlot(t))
    ensures Sound(Step(s, ReadSlot(t)))
    ensures Step(s, ReadSlot(t)).got == s.got + [(s.thieves[t].item, Some(s.thieves[t].item))]
  {
    hide C.Inv, PhasesOk, SizesOk, Once;
    var p, s' := s.thieves[t], Step(s, ReadSlot(t));
    var c := Cell(s.caps, p.k, p.x);
    assert CanRead(s, p);
    WindowKept(s, s', c, p.item);
    hide Home;
    forall u | 0 <= u < |s.thieves| ensures CanRead(s', s'.thieves[u]) {
      assert CanRead(s, s.thieves[u]);
      if u != t && s.thieves[u].Holding? {
        OnlyOne(s, s', c, s.thieves[u].k, s.thieves[u].x, p.item, s.thieves[u].item);
      }
    }
    if s.owner.Claimed? {
      OnlyOne(s, s', c, s.cur, s.owner.i, p.item, s.owner.item);
    }
  }

  lemma OwnerReads(s: State)
    requires Inv(s) && Sound(s) && Takes(s, Read)
    ensures Sound(Step(s, Read))
    ensures Step(s, Read).got == s.got + [(s.owner.item, Some(s.owner.item))]
  {
    hide C.Inv, PhasesOk, SizesOk, Once;
    var item, s' := s.owner.item, Step(s, Read);
    var c := Cell(s.caps, s.cur, s.owner.i);
    WindowKept(s, s', c, item);
    hide Home;
    forall u | 0 <= u < |s.thieves| ensures CanRead(s', s'.thieves[u]) {
      assert CanRead(s, s.thieves[u]);
      if s.thieves[u].Holding? {
        OnlyOne(s, s', c, s.thieves[u].k, s.thieves[u].x, item, s.thieves[u].item);
      }
    }
  }

  lemma ClaimKeeps(s: State, e: Event)
    requires Inv(s) && Sound(s) && Claiming(s, e) && !Hazard(s, e)
    ensures Sound(Step(s, e))
  {
    hide C.Inv, Once, HoldersOk, SizesOk;
    ClaimIsNew(s, e);
  }

  lemma AdoptKeeps(s: State)
    requires Inv(s) && Sound(s) && Takes(s, Adopt)
    ensures Sound(Step(s, Adopt))
  {
    hide Once, HoldersOk;
    var s' := Step(s, Adopt);
    forall t | 0 <= t < |s.thieves| ensures CanRead(s', s.thieves[t]) {
      assert CanRead(s, s.thieves[t]);
    }
  }

  lemma CheckKeeps(s: State)
    requires Inv(s) && Sound(s) && Takes(s, Check)
    ensures Sound(Step(s, Check))
  {
    hide Once, HoldersOk;
    var s' := Step(s, Check);
    forall k: nat, i: int | k <= s.cur ensures At(s', k, i) == At(s, k, i) {
    }
    forall t | 0 <= t < |s.thieves| ensures CanRead(s', s.thieves[t]) {
      assert CanRead(s, s.thieves[t]);
    }
  }

  lemma PublishKeeps(s: State)
    requires Inv(s) && Sound(s) && Takes(s, Publish)
    ensures Sound(Step(s, Publish))
  {
    hide Once, HoldersOk, SizesOk;
    var s' := Step(s, Publish);
    forall t | 0 <= t < |s.thieves| ensures CanRead(s', s.thieves[t]) {
      assert CanRead(s, s.thieves[t]);
    }
  }

  // Neither slots nor unclaimed items are touched, and nothing is won.
  ghost predicate Leaves(s: State, s': State) {
    && s'.slots == s.slots && s'.caps == s.caps && s'.cur == s.cur && s'.d.put == s.d.put
    && s'.d.top == s.d.top && C.LogicalBottom(s'.d) == C.LogicalBottom(s.d) && s'.d.pushed == s.d.pushed
    && (s'.d.owner.Stored? ==> s.d.owner.Stored? && s'.d.bottom == s.d.bottom)
    && (s'.owner == s.owner || (s'.owner.Loaded? && !s.owner.Growing?)) && |s'.thieves| == |s.thieves|
    && forall t | 0 <= t < |s.thieves| && s'.thieves[t].Holding? :: s'.thieves[t] == s.thieves[t]
  }

  predicate Quiet(e: Event) {
    || e.Load? || e.Decrement? || e.LoadTop? || e.Exchange? || e.Restore? || e.StealTop? || e.StealBottom?
    || e.LoadBuffer? || e.Steal?
  }

  lemma RestLeaves(s: State, e: Event)
    requires PhasesOk(s) && Takes(s, e) && !Claiming(s, e) && Quiet(e)
    ensures Leaves(s, Step(s, e))
  {
  }

  lemma LeftSound(s: State, s': State)
    requires Sound(s) && Leaves(s, s')
    ensures Sound(s')
  {
    hide C.LogicalBottom;
    forall t | 0 <= t < |s'.thieves| ensures CanRead(s', s'.thieves[t]) {
      assert CanRead(s, s.thieves[t]);
    }
  }

  lemma InvPhases(s: State)
    requires Inv(s)
    ensures PhasesOk(s)
  {
    hide PhasesOk;
  }

  lemma SafeKeeps(s: State, e: Event)
    requires Inv(s) && Sound(s) && !Hazard(s, e)
    ensures Sound(Apply(s, e))
  {
    hide Inv, Sound, Hazard, Claiming, Step;
    if Takes(s, e) {
      hide Takes, Leaves;
      assert PhasesOk(s) by { InvPhases(s); }
      match e
      case Put => PutKeeps(s);
      case Move => MoveKeeps(s); MoveIs(s);
      case Read => OwnerReads(s);
      case ReadSlot(t) => ThiefReads(s, t);
      case Adopt => AdoptKeeps(s);
      case Check => CheckKeeps(s);
      case Publish => PublishKeeps(s);
      case _ =>
        assert Quiet(e);
        if Claiming(s, e) {
          ClaimKeeps(s, e);
        } else {
          RestLeaves(s, e);
          LeftSound(s, Step(s, e));
        }
    }
  }

  // ---- with one ---------------------------------------------------------------------------

  // Thief t has won an item that is not where it will look.
  ghost predicate Misled(s: State, t: nat) {
    t < |s.thieves| && s.thieves[t].Holding? && !CanRead(s, s.thieves[t])
  }

  lemma PutMisleads(s: State) returns (t: nat)
    requires Inv(s) && Sound(s) && Hazard(s, Put)
    ensures Misled(Step(s, Put), t)
  {
    t :| 0 <= t < |s.thieves| && s.thieves[t].Holding?
         && Cell(s.caps, s.thieves[t].k, s.thieves[t].x) == Cell(s.caps, s.cur, s.d.bottom);
    Unclaimed(s.d, s.d.top);
    hide C.Inv, PhasesOk, SizesOk, Once, C.LogicalBottom;
  }

  lemma MoveMisleads(s: State) returns (t: nat)
    requires Inv(s) && Sound(s) && Hazard(s, Move)
    ensures Misled(MoveStep(s), t)
  {
    hide C.Inv, PhasesOk, Once, HoldersOk;
    t :| 0 <= t < |s.thieves| && s.thieves[t].Holding?
         && Cell(s.caps, s.thieves[t].k, s.thieves[t].x) == Cell(s.caps, s.cur, s.owner.i);
  }

  lemma StaleMisleads(s: State, t: nat)
    requires Inv(s) && Sound(s) && Hazard(s, Steal(t))
    ensures Misled(Step(s, Steal(t)), t)
  {
    var s', x := Step(s, Steal(t)), s.d.top;
    ClaimIsNew(s, Steal(t));
    hide C.Inv, HoldersOk;
    assert Cell(s.caps, s.thieves[t].k, x) != Cell(s.caps, Home(s, x), x);
  }

  lemma HazardMisleads(s: State, e: Event) returns (t: nat)
    requires Inv(s) && Sound(s) && Hazard(s, e)
    ensures Misled(Apply(s, e), t) && Apply(s, e).got == s.got
  {
    hide Inv, Sound, Misled, C.Apply, Home;
    match e
    case Put => t := PutMisleads(s);
    case Move => t := MoveMisleads(s);
    case Steal(u) => StaleMisleads(s, u); t := u;
  }

  lemma HazardBreaks(s: State, e: Event)
    requires Inv(s) && Sound(s) && Hazard(s, e)
    ensures !Sound(Apply(s, e))
  {
    hide Inv, Hazard, Apply;
    var t := HazardMisleads(s, e);
  }

  // What its victim reads next is not what it won.
  lemma HazardMisreads(s: State, e: Event) returns (t: nat)
    requires Inv(s) && Sound(s) && Hazard(s, e)
    ensures var q := Apply(Apply(s, e), ReadSlot(t));
            && |q.got| == |s.got| + 1
            && var (item, read) := q.got[|s.got|]; item in Apply(s, e).d.claimed && read != Some(item)
  {
    StepInv(s, e);
    t := HazardMisleads(s, e);
    hide Inv, Sound, Hazard;
    var s' := Apply(s, e);
    Holder(s', t);
    hide Apply;
    ReadsWhatStands(s', t);
  }

  lemma Holder(s: State, t: nat)
    requires Inv(s) && t < |s.thieves| && s.thieves[t].Holding?
    ensures s.thieves[t].item in s.d.claimed && Takes(s, ReadSlot(t))
  {
  }

  lemma ReadsWhatStands(s: State, t: nat)
    requires Takes(s, ReadSlot(t))
    ensures var p := s.thieves[t]; Apply(s, ReadSlot(t)).got == s.got + [(p.item, At(s, p.k, p.x))]
  {
  }

  // ---- in every run ------------------------------------------------------------------------

  ghost function Exec(s: State, es: seq<Event>): (s': State)
    requires Inv(s)
    ensures Inv(s')
    decreases |es|
  {
    if es == [] then s
    else
      StepInv(s, es[0]);
      Exec(Apply(s, es[0]), es[1..])
  }

  ghost predicate Throughout(s: State, es: seq<Event>)
    decreases |es|
  {
    Sound(s) && (es == [] || Throughout(Apply(s, es[0]), es[1..]))
  }

  ghost predicate Clear(s: State, es: seq<Event>)
    decreases |es|
  {
    es == [] || (!Hazard(s, es[0]) && Clear(Apply(s, es[0]), es[1..]))
  }

  lemma {:induction false} ThroughoutExactly(s: State, es: seq<Event>)
    requires Inv(s) && Sound(s)
    ensures Throughout(s, es) <==> Clear(s, es)
    decreases |es|
  {
    hide Inv, Sound, Hazard, Apply;
    if es != [] {
      StepInv(s, es[0]);
      if Hazard(s, es[0]) {
        HazardBreaks(s, es[0]);
      } else {
        SafeKeeps(s, es[0]);
        ThroughoutExactly(Apply(s, es[0]), es[1..]);
      }
    }
  }

  // In every run each unclaimed item and each item won and not yet read is where
  // its winner looks for it, throughout, exactly when there is never a hazard.
  lemma ReadableExactly(capacity: nat, thieves: nat, es: seq<Event>)
    requires capacity >= 2
    ensures Throughout(Init(capacity, thieves), es) <==> Clear(Init(capacity, thieves), es)
  {
    InitInv(capacity, thieves);
    hide Inv;
    ThroughoutExactly(Init(capacity, thieves), es);
  }

  ghost predicate AllRight(got: seq<(nat, Option<nat>)>) {
    forall k | 0 <= k < |got| :: got[k].1 == Some(got[k].0)
  }

  lemma StepReads(s: State, e: Event)
    requires Inv(s) && Sound(s) && AllRight(s.got)
    ensures AllRight(Apply(s, e).got)
  {
    hide Inv, Sound;
    if e.Read? && Takes(s, e) {
      OwnerReads(s);
    } else if e.ReadSlot? && Takes(s, e) {
      ThiefReads(s, e.t);
    }
  }

  // And then every winner reads what it won.
  lemma {:induction false} WinnersRead(s: State, es: seq<Event>)
    requires Inv(s) && Sound(s) && AllRight(s.got) && Clear(s, es)
    ensures AllRight(Exec(s, es).got)
    decreases |es|
  {
    hide Inv, Sound, Hazard, Apply, AllRight;
    if es != [] {
      StepInv(s, es[0]);
      SafeKeeps(s, es[0]);
      StepReads(s, es[0]);
      WinnersRead(Apply(s, es[0]), es[1..]);
    }
  }

  // ---- every push, pop and steal ends -------------------------------------------------------

  predicate Owners(e: Event) {
    e.Check? || e.Move? || e.Adopt? || e.Put? || e.Publish? || e.LoadTop? || e.Exchange? || e.Restore? || e.Read?
  }

  function Gap(lo: int, hi: int): nat {
    if lo < hi then hi - lo else 0
  }

  // The accesses the owner's operation has ahead of it, at most, the loop of
  // resize included.
  function Left(s: State): nat {
    match s.owner
    case Loaded(t) => 5 + Gap(t, s.d.bottom)
    case Growing(_, i) => 4 + Gap(i, s.d.bottom)
    case Roomy => 3
    case Claimed(_, _) => if s.d.owner.Restoring? then 2 else 1
    case Free =>
      match s.d.owner
      case Idle => 0
      case PopStored => 4
      case PopLast => 3
      case _ => 1
  }

  lemma OwnerLowers(s: State, e: Event)
    requires PhasesOk(s) && e != Load && e != Decrement
    ensures Left(Apply(s, e)) + (if Takes(s, e) && Owners(e) then 1 else 0) <= Left(s)
  {
    hide ThiefPhase, Cell;
  }

  // Unless it is at rest the owner has a next access.
  lemma OwnerGoesOn(s: State) returns (e: Event)
    requires PhasesOk(s) && SizesOk(s) && Left(s) > 0
    ensures Owners(e) && Takes(s, e)
  {
    hide ThiefPhase;
    match s.owner {
    case Loaded(_) => e := Check;
    case Growing(_, i) => e := if i < s.d.bottom then Move else Adopt;
    case Roomy => e := Put;
    case Claimed(_, _) => e := if s.d.owner.Restoring? then Restore else Read;
    case Free =>
      match s.d.owner {
      case Stored => e := Publish;
      case PopStored => e := LoadTop;
      case PopLast => e := Exchange;
      case _ => e := Restore;
      }
    }
  }

  // A thief that saw an item is through after three accesses more.
  lemma ThiefGoesOn(s: State, t: nat)
    requires PhasesOk(s) && t < |s.thieves|
    ensures match s.thieves[t]
            case Out => true
            case Found => var e := LoadBuffer(t); Takes(s, e) && Step(s, e).thieves[t].Ready?
            case Ready(_) =>
              var e := Steal(t);
              Takes(s, e) && (Step(s, e).thieves[t].Holding? || Step(s, e).thieves[t].Out?)
            case Holding(_, _, _) => var e := ReadSlot(t); Takes(s, e) && Step(s, e).thieves[t].Out?
  {
    assert ThiefPhase(s.thieves[t], s.d.thieves[t], s.cur);
  }

  ghost function OwnerSteps(s: State, es: seq<Event>): nat
    decreases |es|
  {
    if es == [] then 0
    else (if Takes(s, es[0]) && Owners(es[0]) then 1 else 0) + OwnerSteps(Apply(s, es[0]), es[1..])
  }

  // Whatever the thieves do, a push that grows the buffer included, the owner's
  // operation goes on until it is over, and that is after a bounded number of its
  // own accesses.
  lemma {:induction false} OwnerWaitFree(s: State, es: seq<Event>) returns (e: Event)
    requires Inv(s) && Load !in es && Decrement !in es
    ensures Left(Exec(s, es)) + OwnerSteps(s, es) <= Left(s)
    ensures Left(Exec(s, es)) > 0 ==> Owners(e) && Takes(Exec(s, es), e)
    decreases |es|
  {
    hide Takes, Apply, Owners, Left;
    e := Load;
    if es != [] {
      StepInv(s, es[0]);
      OwnerLowers(s, es[0]);
      e := OwnerWaitFree(Apply(s, es[0]), es[1..]);
      assert es == [es[0]] + es[1..];
    } else if Left(s) > 0 {
      e := OwnerGoesOn(s);
    }
  }

  // ---- a run that loses an item ------------------------------------------------------------

  lemma {:induction false} ExecAppend(s: State, a: seq<Event>, b: seq<Event>)
    requires Inv(s)
    ensures Exec(s, a + b) == Exec(Exec(s, a), b)
    decreases |a|
  {
    hide Inv, Apply;
    if a == [] {
      assert a + b == b;
    } else {
      StepInv(s, a[0]);
      assert (a + b)[1..] == a[1..] + b;
      ExecAppend(Apply(s, a[0]), a[1..], b);
    }
  }

  lemma Then(s: State, e: Event, es: seq<Event>)
    requires Inv(s)
    ensures Inv(Apply(s, e)) && Exec(s, [e] + es) == Exec(Apply(s, e), es)
  {
    hide Apply;
    StepInv(s, e);
    assert ([e] + es)[1..] == es;
  }

  // A thief has seen the first item, loaded the first buffer, and sleeps.
  ghost predicate Asleep(s: State) {
    && Inv(s) && s.thieves == [Ready(0)] && s.d.thieves == [C.HasBottom(0)] && s.d.top == 0
    && 0 in s.d.put && s.d.put[0] == 0 && s.cur == 0 && |s.caps| > 0 && s.caps[0] == 8 && s.got == []
    && s.d.bottom >= 1
  }

  ghost predicate OwnerIdle(s: State) {
    s.d.owner.Idle? && s.owner.Free?
  }

  // The deque after its first push.
  ghost predicate OnePushed(s: State) {
    && Inv(s) && OwnerIdle(s) && s.thieves == [Out] && s.d.thieves == [C.Away] && s.d.top == 0 && s.d.bottom == 1
    && 0 in s.d.put && s.d.put[0] == 0 && s.cur == 0 && |s.caps| > 0 && s.caps[0] == 8 && s.got == []
  }

  lemma NewDeque()
    ensures var s := Init(8, 1);
            && Inv(s) && OwnerIdle(s) && s.thieves == [Out] && s.d.thieves == [C.Away] && s.d.top == s.d.bottom == 0
            && s.cur == s.d.pushed == 0 && s.caps == [8] && s.got == []
  {
    InitInv(8, 1);
  }

  // A push with room, without the slots.
  lemma RoomyPush(s: State)
    requires OwnerIdle(s) && s.cur < |s.caps| && s.d.bottom - s.d.top + 1 < s.caps[s.cur]
    ensures var q := Apply(Apply(Apply(Apply(s, Load), Check), Put), Publish);
            && OwnerIdle(q) && q.cur == s.cur && q.caps == s.caps && q.thieves == s.thieves && q.got == s.got
            && q.d.thieves == s.d.thieves && q.d.top == s.d.top && q.d.bottom == s.d.bottom + 1
            && q.d.put == s.d.put[s.d.bottom := s.d.pushed]
  {
  }

  lemma Push(s: State) returns (es: seq<Event>)
    requires Inv(s)
    ensures Exec(s, es) == Apply(Apply(Apply(Apply(s, Load), Check), Put), Publish)
  {
    hide Inv, Apply;
    es := [Load] + ([Check] + ([Put] + ([Publish] + [])));
    Then(s, Load, es[1..]);
    var s1 := Apply(s, Load);
    Then(s1, Check, es[2..]);
    var s2 := Apply(s1, Check);
    Then(s2, Put, es[3..]);
    Then(Apply(s2, Put), Publish, []);
  }

  lemma FirstPush() returns (es: seq<Event>)
    ensures Inv(Init(8, 1)) && OnePushed(Exec(Init(8, 1), es))
  {
    hide Inv, Apply, Init;
    NewDeque();
    es := Push(Init(8, 1));
    RoomyPush(Init(8, 1));
  }

  // The thief's loads.
  lemma ThiefLoads(s: State)
    requires s.thieves == [Out] && s.d.thieves == [C.Away] && s.d.top < s.d.bottom
    ensures var q := Apply(Apply(Apply(s, StealTop(0)), StealBottom(0)), LoadBuffer(0));
            q == s.(d := s.d.(thieves := [C.HasBottom(s.d.top)]), thieves := [Ready(s.cur)])
  {
    var s1 := Apply(s, StealTop(0));
    assert s1 == s.(d := s.d.(thieves := [C.HasTop(s.d.top)]));
    var s2 := Apply(s1, StealBottom(0));
    assert s2 == s.(d := s.d.(thieves := [C.HasBottom(s.d.top)]), thieves := [Found]);
  }

  lemma FallsAsleep(s: State) returns (es: seq<Event>)
    requires OnePushed(s)
    ensures var q := Exec(s, es); Asleep(q) && OwnerIdle(q) && q.d.bottom == 1
  {
    hide Inv, Apply;
    es := [StealTop(0)] + ([StealBottom(0)] + ([LoadBuffer(0)] + []));
    Then(s, StealTop(0), es[1..]);
    var s1 := Apply(s, StealTop(0));
    Then(s1, StealBottom(0), es[2..]);
    Then(Apply(s1, StealBottom(0)), LoadBuffer(0), []);
    ThiefLoads(s);
  }

  // One push more, without growing.
  lemma OnePush(s: State) returns (es: seq<Event>)
    requires Asleep(s) && OwnerIdle(s) && s.d.bottom < 7
    ensures var q := Exec(s, es); Asleep(q) && OwnerIdle(q) && q.d.bottom == s.d.bottom + 1
  {
    hide Inv, Apply;
    es := Push(s);
    RoomyPush(s);
  }

  lemma {:induction false} Pushes(s: State) returns (es: seq<Event>)
    requires Asleep(s) && OwnerIdle(s) && s.d.bottom <= 7
    ensures var q := Exec(s, es); Asleep(q) && OwnerIdle(q) && q.d.bottom == 7
    decreases 7 - s.d.bottom
  {
    if s.d.bottom == 7 {
      es := [];
    } else {
      var one := OnePush(s);
      var more := Pushes(Exec(s, one));
      es := one + more;
      ExecAppend(s, one, more);
    }
  }

  // The loop of resize, from its second round on.
  lemma {:induction false} Moves(s: State) returns (es: seq<Event>)
    requires Asleep(s) && s.owner.Growing? && s.owner.i <= s.d.bottom && (0, 0) !in s.slots
    ensures var q := Exec(s, es);
            Asleep(q) && q.owner.Growing? && q.owner.i == q.d.bottom && (0, 0) !in q.slots
    decreases s.d.bottom - s.owner.i
  {
    hide Inv;
    if s.owner.i == s.d.bottom {
      es := [];
    } else {
      Then(s, Move, []);
      var more := Moves(Apply(s, Move));
      Then(s, Move, more);
      es := [Move] + more;
    }
  }

  // The eighth push grows the buffer.
  lemma Grows(s: State) returns (es: seq<Event>)
    requires Asleep(s) && OwnerIdle(s) && s.d.bottom == 7
    ensures var q := Exec(s, es); Asleep(q) && q.owner.Growing? && q.owner.i == q.d.bottom && (0, 0) !in q.slots
  {
    hide Inv;
    Then(s, Load, []);
    var s1 := Apply(s, Load);
    Then(s1, Check, []);
    var s2 := Apply(s1, Check);
    Then(s2, Move, []);
    var s3 := Apply(s2, Move);
    var more := Moves(s3);
    Then(s2, Move, more);
    Then(s1, Check, [Move] + more);
    Then(s, Load, [Check] + ([Move] + more));
    es := [Load] + ([Check] + ([Move] + more));
  }

  // The thief wakes, wins the first item, and reads the slot it was moved out of.
  lemma Wakes(s: State) returns (es: seq<Event>)
    requires Asleep(s) && s.owner.Growing? && s.owner.i == s.d.bottom && (0, 0) !in s.slots
    ensures Exec(s, es).got == [(0, None)]
  {
    hide Inv;
    es := [Adopt] + ([Steal(0)] + ([ReadSlot(0)] + []));
    Then(s, Adopt, es[1..]);
    var s1 := Apply(s, Adopt);
    Then(s1, Steal(0), es[2..]);
    var s2 := Apply(s1, Steal(0));
    Then(s2, ReadSlot(0), []);
  }

  // A thief loads the buffer, the owner's eighth push moves everything to a larger
  // one, and the thief wins the oldest item without getting it.
  lemma GrowthLoses() returns (es: seq<Event>)
    ensures Inv(Init(8, 1)) && Exec(Init(8, 1), es).got == [(0, None)]
  {
    var push := FirstPush();
    var s0 := Exec(Init(8, 1), push);
    var first := FallsAsleep(s0);
    var s1 := Exec(s0, first);
    var second := Pushes(s1);
    var s2 := Exec(s1, second);
    var third := Grows(s2);
    var s3 := Exec(s2, third);
    var last := Wakes(s3);
    hide Inv, Asleep, OnePushed;
    ExecAppend(s2, third, last);
    ExecAppend(s1, second, third + last);
    ExecAppend(s0, first, second + (third + last));
    ExecAppend(Init(8, 1), push, first + (second + (third + last)));
    es := push + (first + (second + (third + last)));
  }
}
