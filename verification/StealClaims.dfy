module StealClaims {
  // The work-stealing deque at the grain of its atomic operations: one owner
  // inside push or pop, any number of thieves inside steal.  The model follows
  // which item each winner claims; an item is the number of the push that
  // stored it, so index reuse after pops cannot confuse two items.

  datatype Owner =
    | Idle
    | Pushing    // loaded bottom and top
    | Stored     // put the item at index bottom
    | PopStored  // stored the decremented bottom
    | PopLast    // saw top == bottom, about to compare-exchange top
    | Restoring  // about to store bottom + 1

  datatype Thief =
    | Away
    | HasTop(x: int)     // loaded top
    | HasBottom(x: int)  // and then saw it below bottom

  datatype Deque = Deque(
    top: int,
    bottom: int,
    owner: Owner,
    thieves: seq<Thief>,
    put: map<int, nat>,   // the item last stored at each index
    pushed: nat,          // pushes completed: items 0 .. pushed - 1
    claimed: seq<nat>)    // history: items won by a pop or a steal

  datatype Event =
    | PushLoad
    | PushPut
    | PushPublish
    | PopDecrement
    | PopLoadTop
    | PopExchange
    | PopRestore
    | StealLoadTop(t: nat)
    | StealLoadBottom(t: nat)
    | StealExchange(t: nat)

  function Init(thieves: nat): Deque {
    Deque(0, 0, Idle, seq(thieves, _ => Away), map[], 0, [])
  }

  function SetThief(d: Deque, t: nat, p: Thief): Deque
    requires t < |d.thieves|
  {
    d.(thieves := d.thieves[t := p])
  }

  // What the slot of index i holds; a slot never written holds a blank.
  function Item(d: Deque, i: int): nat {
    if i in d.put then d.put[i] else 0
  }

  // The item at index i becomes the winner's.
  function Won(d: Deque, i: int): Deque {
    d.(claimed := d.claimed + [Item(d, i)])
  }

  function OwnerStep(d: Deque, e: Event): Deque {
    match e
    case PushLoad => if d.owner.Idle? then d.(owner := Pushing) else d
    case PushPut => if d.owner.Pushing? then d.(owner := Stored, put := d.put[d.bottom := d.pushed]) else d
    case PushPublish =>
      if d.owner.Stored? then d.(owner := Idle, bottom := d.bottom + 1, pushed := d.pushed + 1) else d
    case PopDecrement => if d.owner.Idle? then d.(owner := PopStored, bottom := d.bottom - 1) else d
    case PopLoadTop =>
      if !d.owner.PopStored? then d
      else if d.top < d.bottom then Won(d, d.bottom).(owner := Idle)
      else if d.top == d.bottom then d.(owner := PopLast)
      else d.(owner := Restoring)
    case PopExchange =>
      if !d.owner.PopLast? then d
      else if d.top == d.bottom then Won(d, d.bottom).(owner := Restoring, top := d.top + 1)
      else d.(owner := Restoring)
    case PopRestore => if d.owner.Restoring? then d.(owner := Idle, bottom := d.bottom + 1) else d
    case _ => d
  }

  function ThiefStep(d: Deque, e: Event): Deque
    requires e.StealLoadTop? || e.StealLoadBottom? || e.StealExchange?
    requires e.t < |d.thieves|
  {
    match (e, d.thieves[e.t])
    case (StealLoadTop(t), Away) => SetThief(d, t, HasTop(d.top))
    case (StealLoadBottom(t), HasTop(x)) => SetThief(d, t, if x < d.bottom then HasBottom(x) else Away)
    case (StealExchange(t), HasBottom(x)) =>
      if d.top == x then SetThief(Won(d, x), t, Away).(top := x + 1) else SetThief(d, t, Away)
    case _ => d
  }

  function Apply(d: Deque, e: Event): Deque {
    if e.StealLoadTop? || e.StealLoadBottom? || e.StealExchange? then
      if e.t < |d.thieves| then ThiefStep(d, e) else d
    else OwnerStep(d, e)
  }

  // ---- the invariant -----------------------------------------------------

  // One past the last unclaimed index; a pop in progress has lowered
  // m_bottom below it.
  function LogicalBottom(d: Deque): int {
    if d.owner.PopStored? || d.owner.PopLast? || d.owner.Restoring? then d.bottom + 1 else d.bottom
  }

  ghost predicate Stocked(d: Deque) {
    0 <= d.top <= LogicalBottom(d) && forall i | d.top <= i < LogicalBottom(d) :: i in d.put
  }

  // The unclaimed items, from top to the logical bottom.
  ghost function Window(d: Deque): (w: seq<nat>)
    requires Stocked(d)
    ensures |w| == LogicalBottom(d) - d.top
    ensures forall i: nat | i < |w| :: w[i] == d.put[d.top + i]
  {
    seq(LogicalBottom(d) - d.top, (i: nat) requires d.top + i in d.put => d.put[d.top + i])
  }

  ghost predicate OwnerOk(d: Deque) {
    && (d.owner.Stored? ==> d.bottom in d.put && d.put[d.bottom] == d.pushed)
    && (d.owner.PopLast? ==> d.bottom <= d.top)
    && (d.owner.Restoring? ==> d.top == d.bottom + 1)
  }

  ghost predicate ThiefOk(d: Deque, p: Thief) {
    match p
    case Away => true
    case HasTop(x) => x <= d.top
    case HasBottom(x) => x <= d.top && (x == d.top ==> d.top < LogicalBottom(d))
  }

  function Numbers(n: nat): (s: seq<nat>)
    ensures |s| == n
    ensures forall i: nat | i < n :: s[i] == i
  {
    seq(n, (i: nat) => i)
  }

  ghost predicate Inv(d: Deque) {
    && Stocked(d)
    && OwnerOk(d)
    && (forall t | 0 <= t < |d.thieves| :: ThiefOk(d, d.thieves[t]))
    && multiset(d.claimed) + multiset(Window(d)) == multiset(Numbers(d.pushed))
  }

  lemma InitInv(thieves: nat)
    ensures Inv(Init(thieves))
  {
  }

  lemma SameWindow(d: Deque, d': Deque)
    requires Inv(d) && Stocked(d')
    requires LogicalBottom(d') == LogicalBottom(d) && d'.top == d.top
    requires forall i | d.top <= i < LogicalBottom(d) :: d'.put[i] == d.put[i]
    ensures Window(d') == Window(d)
  {
  }

  // The three ways to win an item, and what each does to the window.

  lemma UncontestedPop(d: Deque)
    requires Inv(d) && d.owner.PopStored? && d.top < d.bottom
    ensures var d', n := Apply(d, PopLoadTop), |Window(d)| - 1;
            && Stocked(d') && n >= 0
            && Window(d') == Window(d)[..n] && d'.claimed == d.claimed + [Window(d)[n]]
            && multiset(Window(d)) == multiset(Window(d')) + multiset{Window(d)[n]}
  {
    var w, d' := Window(d), Apply(d, PopLoadTop);
    var n := |w| - 1;
    assert w == w[..n] + [w[n]];
    assert Window(d') == w[..n];
  }

  lemma ContestedPop(d: Deque)
    requires Inv(d) && d.owner.PopLast? && d.top == d.bottom
    ensures var d', w := Apply(d, PopExchange), Window(d);
            && Stocked(d') && |w| == 1 && Window(d') == [] && d'.claimed == d.claimed + w
            && multiset(w) == multiset(Window(d')) + multiset{w[0]}
  {
    assert Window(d) == [Window(d)[0]];
  }

  lemma WonSteal(d: Deque, t: nat)
    requires Inv(d) && t < |d.thieves| && d.thieves[t].HasBottom? && d.top == d.thieves[t].x
    ensures var d', w := Apply(d, StealExchange(t)), Window(d);
            && Stocked(d') && w != [] && Window(d') == w[1..] && d'.claimed == d.claimed + [w[0]]
            && multiset(w) == multiset(Window(d')) + multiset{w[0]}
  {
    StealStocked(d, t);
    hide Inv, Apply, Stocked;
    var w, d' := Window(d), Apply(d, StealExchange(t));
    assert w == [w[0]] + w[1..];
    assert Window(d') == w[1..];
  }

  lemma StealStocked(d: Deque, t: nat)
    requires Inv(d) && t < |d.thieves| && d.thieves[t].HasBottom? && d.top == d.thieves[t].x
    ensures var d' := Apply(d, StealExchange(t));
            && Stocked(d) && Stocked(d') && d.top in d.put && d.top < LogicalBottom(d)
            && d'.put == d.put && d'.top == d.top + 1 && LogicalBottom(d') == LogicalBottom(d)
            && d'.claimed == d.claimed + [d.put[d.top]]
  {
    assert ThiefOk(d, d.thieves[t]);
  }

  // Whether an event wins an item.
  predicate Wins(d: Deque, e: Event) {
    || (e.PopLoadTop? && d.owner.PopStored? && d.top < d.bottom)
    || (e.PopExchange? && d.owner.PopLast? && d.top == d.bottom)
    || (e.StealExchange? && e.t < |d.thieves| && d.thieves[e.t].HasBottom? && d.top == d.thieves[e.t].x)
  }

  lemma Published(d: Deque)
    requires Inv(d) && d.owner.Stored?
    ensures var d' := Apply(d, PushPublish);
            Stocked(d') && multiset(d'.claimed) + multiset(Window(d')) == multiset(Numbers(d'.pushed))
  {
    hide ThiefOk;
    var d' := Apply(d, PushPublish);
    assert Window(d') == Window(d) + [d.pushed];
    assert Numbers(d'.pushed) == Numbers(d.pushed) + [d.pushed];
  }

  lemma StepPush(d: Deque, e: Event)
    requires Inv(d) && (e.PushLoad? || e.PushPut? || e.PushPublish?)
    ensures Inv(Apply(d, e))
  {
    var d' := Apply(d, e);
    if e.PushPublish? && d.owner.Stored? {
      Published(d);
    } else {
      SameWindow(d, d');
    }
    forall t | 0 <= t < |d'.thieves| ensures ThiefOk(d', d'.thieves[t]) {
      assert ThiefOk(d, d.thieves[t]);
    }
  }

  // Moving one item from the window to the claimed ones conserves both.
  lemma MoveConserves(claimed: seq<nat>, w: seq<nat>, w': seq<nat>, x: nat)
    requires multiset(w) == multiset(w') + multiset{x}
    ensures multiset(claimed + [x]) + multiset(w') == multiset(claimed) + multiset(w)
  {
  }

  lemma WinConserves(d: Deque, e: Event)
    requires Inv(d) && Wins(d, e)
    ensures var d' := Apply(d, e);
            && Stocked(d') && d'.pushed == d.pushed
            && multiset(d'.claimed) + multiset(Window(d')) == multiset(d.claimed) + multiset(Window(d))
  {
    hide ThiefOk, OwnerOk, Numbers, Window, Stocked;
    var w := Window(d);
    match e
    case PopLoadTop =>
      UncontestedPop(d);
      MoveConserves(d.claimed, w, Window(Apply(d, e)), w[|w| - 1]);
    case PopExchange =>
      ContestedPop(d);
      assert w == [w[0]];
      MoveConserves(d.claimed, w, Window(Apply(d, e)), w[0]);
    case StealExchange(t) =>
      WonSteal(d, t);
      MoveConserves(d.claimed, w, Window(Apply(d, e)), w[0]);
  }

  lemma ThievesKept(d: Deque, e: Event)
    requires Inv(d) && !e.PushLoad? && !e.PushPut? && !e.PushPublish?
    ensures var d' := Apply(d, e); forall t | 0 <= t < |d'.thieves| :: ThiefOk(d', d'.thieves[t])
  {
    var d' := Apply(d, e);
    if (e.StealLoadTop? || e.StealLoadBottom? || e.StealExchange?) && e.t < |d.thieves| {
      assert ThiefOk(d, d.thieves[e.t]);
    }
    forall t | 0 <= t < |d'.thieves| ensures ThiefOk(d', d'.thieves[t]) {
      assert ThiefOk(d, d.thieves[t]);
    }
  }

  // Without a win neither the items nor the ends of the window move.
  lemma NoWinKeeps(d: Deque, e: Event)
    requires Inv(d) && !e.PushLoad? && !e.PushPut? && !e.PushPublish? && !Wins(d, e)
    ensures var d' := Apply(d, e);
            && OwnerOk(d') && d'.put == d.put && d'.top == d.top && LogicalBottom(d') == LogicalBottom(d)
            && d'.pushed == d.pushed && d'.claimed == d.claimed
  {
    hide Window, Numbers, ThiefOk;
    if e.StealLoadTop? || e.StealLoadBottom? || e.StealExchange? {
    } else {
    }
  }

  lemma NoWinConserves(d: Deque, e: Event)
    requires Inv(d) && !e.PushLoad? && !e.PushPut? && !e.PushPublish? && !Wins(d, e)
    ensures var d' := Apply(d, e);
            && Stocked(d') && OwnerOk(d') && d'.pushed == d.pushed
            && d'.claimed == d.claimed && Window(d') == Window(d)
  {
    hide Apply, OwnerOk, ThiefOk, Numbers;
    NoWinKeeps(d, e);
    SameWindow(d, Apply(d, e));
  }

  lemma StepInv(d: Deque, e: Event)
    requires Inv(d)
    ensures Inv(Apply(d, e))
  {
    if e.PushLoad? || e.PushPut? || e.PushPublish? {
      StepPush(d, e);
    } else {
      ThievesKept(d, e);
      if Wins(d, e) {
        WinConserves(d, e);
      } else {
        NoWinConserves(d, e);
      }
    }
  }

  ghost function Exec(d: Deque, es: seq<Event>): (d': Deque)
    requires Inv(d)
    ensures Inv(d')
    decreases |es|
  {
    if es == [] then d
    else
      StepInv(d, es[0]);
      Exec(Apply(d, es[0]), es[1..])
  }

  // ---- what the deque promises ------------------------------------------------

  // In every interleaving each pushed item is claimed at most once, and the
  // unclaimed ones are exactly the window.
  lemma ClaimedOnce(thieves: nat, es: seq<Event>, item: nat)
    ensures Inv(Init(thieves))
    ensures var d := Exec(Init(thieves), es);
            && multiset(d.claimed)[item] <= 1
            && (item in d.claimed ==> item < d.pushed)
            && (item in Window(d) <==> item < d.pushed && item !in d.claimed)
  {
    InitInv(thieves);
    var d := Exec(Init(thieves), es);
    NumbersOnce(d.pushed, item);
    assert multiset(d.claimed)[item] + multiset(Window(d))[item] == multiset(Numbers(d.pushed))[item];
    assert item in d.claimed <==> item in multiset(d.claimed);
    assert item in Window(d) <==> item in multiset(Window(d));
  }

  lemma {:induction false} NumbersOnce(n: nat, item: nat)
    ensures multiset(Numbers(n))[item] == if item < n then 1 else 0
  {
    if n > 0 {
      NumbersOnce(n - 1, item);
      assert Numbers(n) == Numbers(n - 1) + [n - 1];
    }
  }

  lemma ClaimsKept(d: Deque, e: Event)
    requires !Wins(d, e)
    ensures Apply(d, e).claimed == d.claimed
  {
  }

  // A won steal takes the oldest unclaimed item; an uncontested pop takes the
  // newest; a pop that wins the exchange takes the only one; nothing else
  // changes what is claimed.
  lemma WinnerTakes(d: Deque, e: Event)
    requires Inv(d)
    ensures Inv(Apply(d, e))
    ensures !Wins(d, e) ==> Apply(d, e).claimed == d.claimed
    ensures Wins(d, e) ==>
              var d', w := Apply(d, e), Window(d);
              && w != []
              && (e.StealExchange? ==> d'.claimed == d.claimed + [w[0]] && Window(d') == w[1..])
              && (e.PopExchange? ==> d'.claimed == d.claimed + w && |w| == 1 && Window(d') == [])
              && (e.PopLoadTop? ==> d'.claimed == d.claimed + [w[|w| - 1]] && Window(d') == w[..|w| - 1])
  {
    hide OwnerOk, ThiefOk, Numbers, Apply;
    StepInv(d, e);
    if !Wins(d, e) {
      ClaimsKept(d, e);
    } else {
      match e
      case PopLoadTop => UncontestedPop(d);
      case PopExchange => ContestedPop(d);
      case StealExchange(t) => WonSteal(d, t);
    }
  }

  // A pop that finds nothing, by its loads or by a lost exchange, leaves an
  // empty window behind.
  lemma PopFailsWhenEmpty(d: Deque)
    requires Inv(d) && d.owner.Restoring?
    ensures Window(d) == []
  {
  }

  // ---- each operation with nobody in between ---------------------------------------

  function PushAll(d: Deque): Deque {
    Apply(Apply(Apply(d, PushLoad), PushPut), PushPublish)
  }

  function PopAll(d: Deque): Deque {
    Apply(Apply(Apply(Apply(d, PopDecrement), PopLoadTop), PopExchange), PopRestore)
  }

  function StealAll(d: Deque, t: nat): Deque {
    Apply(Apply(Apply(d, StealLoadTop(t)), StealLoadBottom(t)), StealExchange(t))
  }

  // A push adds the next item as the newest one.
  lemma PushAlone(d: Deque)
    requires Inv(d) && d.owner.Idle?
    ensures var d' := PushAll(d);
            && Inv(d') && d'.owner.Idle? && d'.claimed == d.claimed && d'.pushed == d.pushed + 1
            && Window(d') == Window(d) + [d.pushed]
  {
    hide Apply, OwnerOk, ThiefOk, Numbers, Window;
    var d1 := d.(owner := Pushing);
    var d2 := d1.(owner := Stored, put := d.put[d.bottom := d.pushed]);
    PushSteps(d);
    StepInv(d, PushLoad);
    PushSteps(d1);
    StepInv(d1, PushPut);
    SameWindow(d, d2);
    PushSteps(d2);
    StepInv(d2, PushPublish);
    Publishes(d2);
  }

  lemma PushSteps(d: Deque)
    ensures d.owner.Idle? ==> Apply(d, PushLoad) == d.(owner := Pushing)
    ensures d.owner.Pushing? ==> Apply(d, PushPut) == d.(owner := Stored, put := d.put[d.bottom := d.pushed])
    ensures d.owner.Stored? ==>
              Apply(d, PushPublish) == d.(owner := Idle, bottom := d.bottom + 1, pushed := d.pushed + 1)
  {
  }

  lemma Publishes(d: Deque)
    requires Inv(d) && d.owner.Stored? && Stocked(d.(owner := Idle, bottom := d.bottom + 1, pushed := d.pushed + 1))
    ensures Window(d.(owner := Idle, bottom := d.bottom + 1, pushed := d.pushed + 1)) == Window(d) + [d.pushed]
  {
    hide ThiefOk;
  }

  lemma PopSteps(d: Deque)
    ensures d.owner.Idle? ==> Apply(d, PopDecrement) == d.(owner := PopStored, bottom := d.bottom - 1)
    ensures d.owner.PopStored? ==>
              Apply(d, PopLoadTop) == if d.top < d.bottom then Won(d, d.bottom).(owner := Idle)
                                      else if d.top == d.bottom then d.(owner := PopLast) else d.(owner := Restoring)
    ensures d.owner.PopLast? && d.top == d.bottom ==>
              Apply(d, PopExchange) == Won(d, d.bottom).(owner := Restoring, top := d.top + 1)
    ensures !d.owner.PopLast? ==> Apply(d, PopExchange) == d
    ensures d.owner.Restoring? ==> Apply(d, PopRestore) == d.(owner := Idle, bottom := d.bottom + 1)
    ensures !d.owner.Restoring? ==> Apply(d, PopRestore) == d
  {
  }

  // A pop claims the newest item, and fails exactly when there is none.
  lemma PopAlone(d: Deque)
    requires Inv(d) && d.owner.Idle?
    ensures var d', w := PopAll(d), Window(d);
            && Inv(d') && d'.owner.Idle? && d'.pushed == d.pushed
            && (if w == [] then d'.claimed == d.claimed && Window(d') == w
                else d'.claimed == d.claimed + [w[|w| - 1]] && Window(d') == w[..|w| - 1])
  {
    hide Apply, OwnerOk, ThiefOk, Numbers, Window;
    PopSteps(d);
    var d1 := d.(owner := PopStored, bottom := d.bottom - 1);
    StepInv(d, PopDecrement);
    SameWindow(d, d1);
    if d1.top < d1.bottom {
      PopManyAlone(d1);
    } else {
      PopLastAlone(d1);
    }
  }

  lemma PopManyAlone(d: Deque)
    requires Inv(d) && d.owner.PopStored? && d.top < d.bottom
    ensures var d', w := Apply(Apply(Apply(d, PopLoadTop), PopExchange), PopRestore), Window(d);
            && Inv(d') && d'.owner.Idle? && d'.pushed == d.pushed && w != []
            && d'.claimed == d.claimed + [w[|w| - 1]] && Window(d') == w[..|w| - 1]
  {
    hide Apply, OwnerOk, ThiefOk, Numbers, Window;
    PopSteps(d);
    UncontestedPop(d);
    StepInv(d, PopLoadTop);
    PopSteps(Apply(d, PopLoadTop));
  }

  lemma PopLastAlone(d: Deque)
    requires Inv(d) && d.owner.PopStored? && d.top >= d.bottom
    ensures var d', w := Apply(Apply(Apply(d, PopLoadTop), PopExchange), PopRestore), Window(d);
            && Inv(d') && d'.owner.Idle? && d'.pushed == d.pushed && Window(d') == []
            && d'.claimed == d.claimed + w && |w| <= 1
  {
    hide Apply, OwnerOk, ThiefOk, Numbers, Window;
    PopSteps(d);
    StepInv(d, PopLoadTop);
    var d1 := if d.top == d.bottom then d.(owner := PopLast) else d.(owner := Restoring);
    SameWindow(d, d1);
    PopSteps(d1);
    StepInv(d1, PopExchange);
    if d.top == d.bottom {
      ContestedPop(d1);
    }
    var d2 := Apply(d1, PopExchange);
    PopSteps(d2);
    StepInv(d2, PopRestore);
    PopFailsWhenEmpty(d2);
    SameWindow(d2, Apply(d2, PopRestore));
    assert d.claimed + [] == d.claimed;
  }

  lemma StealSteps(d: Deque, t: nat)
    requires t < |d.thieves|
    ensures d.thieves[t].Away? ==> Apply(d, StealLoadTop(t)) == SetThief(d, t, HasTop(d.top))
    ensures d.thieves[t].HasTop? ==>
              Apply(d, StealLoadBottom(t))
              == SetThief(d, t, if d.thieves[t].x < d.bottom then HasBottom(d.thieves[t].x) else Away)
    ensures d.thieves[t].HasBottom? && d.top == d.thieves[t].x ==>
              var d' := Apply(d, StealExchange(t));
              d'.thieves == d.thieves[t := Away] && d'.pushed == d.pushed && d'.owner == d.owner
    ensures d.thieves[t].Away? ==> Apply(d, StealExchange(t)) == d
  {
  }

  // A steal claims the oldest item, and fails exactly when there is none, but
  // for the one an owner inside pop has lowered bottom to.
  lemma StealAlone(d: Deque, t: nat)
    requires Inv(d) && t < |d.thieves| && d.thieves[t].Away?
    ensures var d', w := StealAll(d, t), Window(d);
            && Inv(d') && d'.thieves == d.thieves && d'.pushed == d.pushed && d'.owner == d.owner
            && (if d.top < d.bottom then w != [] && d'.claimed == d.claimed + [w[0]] && Window(d') == w[1..]
                else d'.claimed == d.claimed && Window(d') == w)
            && (d.owner.Idle? ==> (d.top < d.bottom <==> w != []))
  {
    hide Apply, OwnerOk, ThiefOk, Numbers, Window;
    var d1 := SetThief(d, t, HasTop(d.top));
    StealSteps(d, t);
    StepInv(d, StealLoadTop(t));
    SameWindow(d, d1);
    StealSteps(d1, t);
    StepInv(d1, StealLoadBottom(t));
    var d2 := Apply(d1, StealLoadBottom(t));
    SameWindow(d1, d2);
    StealSteps(d2, t);
    StepInv(d2, StealExchange(t));
    assert d.thieves[t := HasTop(d.top)][t := Away] == d.thieves;
    if d.top < d.bottom {
      WonSteal(d2, t);
      assert d1.thieves[t := HasBottom(d.top)][t := Away] == d.thieves;
    }
  }

  // ---- every operation ends -----------------------------------------------------------

  // The blocks an owner's or a thief's operation has ahead of it, at most.
  function OwnerLeft(p: Owner): nat {
    match p
    case Idle => 0
    case Pushing => 2
    case PopStored => 3
    case PopLast => 2
    case _ => 1
  }

  function ThiefLeft(p: Thief): nat {
    match p
    case Away => 0
    case HasTop(_) => 2
    case HasBottom(_) => 1
  }

  // The owner's next block, ...
  predicate OwnerGoesOn(d: Deque, e: Event) {
    match d.owner
    case Idle => false
    case Pushing => e == PushPut
    case Stored => e == PushPublish
    case PopStored => e == PopLoadTop
    case PopLast => e == PopExchange
    case Restoring => e == PopRestore
  }

  // ... and thief t's.
  predicate ThiefGoesOn(d: Deque, t: nat, e: Event)
    requires t < |d.thieves|
  {
    match d.thieves[t]
    case Away => false
    case HasTop(_) => e == StealLoadBottom(t)
    case HasBottom(_) => e == StealExchange(t)
  }

  // How many blocks of the owner, and of thief t, a run holds.
  ghost function OwnerBlocks(d: Deque, es: seq<Event>): nat
    decreases |es|
  {
    if es == [] then 0 else (if OwnerGoesOn(d, es[0]) then 1 else 0) + OwnerBlocks(Apply(d, es[0]), es[1..])
  }

  ghost function ThiefBlocks(d: Deque, t: nat, es: seq<Event>): nat
    requires t < |d.thieves|
    decreases |es|
  {
    if es == [] then 0
    else
      SameThieves(d, es[0]);
      (if ThiefGoesOn(d, t, es[0]) then 1 else 0) + ThiefBlocks(Apply(d, es[0]), t, es[1..])
  }

  lemma SameThieves(d: Deque, e: Event)
    ensures |Apply(d, e).thieves| == |d.thieves|
  {
  }

  lemma BlockLowers(d: Deque, e: Event, t: nat)
    requires t < |d.thieves|
    ensures t < |Apply(d, e).thieves|
    ensures e != PushLoad && e != PopDecrement ==>
              OwnerLeft(Apply(d, e).owner) + (if OwnerGoesOn(d, e) then 1 else 0) <= OwnerLeft(d.owner)
    ensures e != StealLoadTop(t) ==>
              ThiefLeft(Apply(d, e).thieves[t]) + (if ThiefGoesOn(d, t, e) then 1 else 0) <= ThiefLeft(d.thieves[t])
  {
  }

  // Push, pop and steal are wait-free: whatever the others do, an operation is
  // over once it has run two blocks more for a push or a steal, three for a pop.
  lemma {:induction false} WaitFree(d: Deque, es: seq<Event>, t: nat)
    requires Inv(d) && t < |d.thieves|
    ensures t < |Exec(d, es).thieves|
    ensures PushLoad !in es && PopDecrement !in es ==>
              OwnerLeft(Exec(d, es).owner) + OwnerBlocks(d, es) <= OwnerLeft(d.owner)
    ensures StealLoadTop(t) !in es ==>
              ThiefLeft(Exec(d, es).thieves[t]) + ThiefBlocks(d, t, es) <= ThiefLeft(d.thieves[t])
    decreases |es|
  {
    hide Inv, Apply, OwnerLeft, ThiefLeft, OwnerGoesOn, ThiefGoesOn;
    if es != [] {
      StepInv(d, es[0]);
      SameThieves(d, es[0]);
      BlockLowers(d, es[0], t);
      WaitFree(Apply(d, es[0]), es[1..], t);
      assert es == [es[0]] + es[1..];
    }
  }
}
