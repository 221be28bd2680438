module ConnectionPool {
  // The connection pool over its idle channel: any number of clients acquiring,
  // blocking at capacity, failing to connect, releasing and invalidating, each
  // step one atomic operation or one channel block.  Every connection made is
  // numbered, so two holders of one socket would show.

  import opened Prelude
  import C = Channel
  import S = ChannelSystem

  const IDLE_CAPACITY := 1024

  datatype Client =
    | Outside
    | Probing                            // acquire, about to try_read the idle channel
    | Counting(warm: bool)               // about to load m_total_connections
    | Loaded(current: nat, warm: bool)   // about to compare-exchange it
    | Connecting
    | AtCapacity                         // about to read the idle channel
    | Reading(op: nat)                   // inside that read
    | Holding(socket: nat)

  datatype Pool = Pool(
    maxConnections: nat,
    total: int,
    shutdown: bool,
    idle: S.Sys<nat>,
    clients: seq<Client>,
    dialed: nat,    // sockets connected so far: 0 .. dialed - 1
    leaked: nat)    // invalid sockets given to release, which it ignores

  datatype Event =
    | Acquire(i: nat)
    | Probe(i: nat, op: nat)
    | PreWarm(i: nat)
    | LoadTotal(i: nat)
    | Exchange(i: nat, spurious: bool)
    | Connected(i: nat)
    | ConnectFailed(i: nat)
    | BeginRead(i: nat, op: nat)
    | SuspendRead(i: nat)
    | ResumeRead(i: nat)
    | Release(i: nat, op: nat, valid: bool)
    | Invalidate(i: nat)
    | Shutdown(i: nat)
    | CloseIdle(i: nat)

  function Init(maxConnections: nat, clients: nat, ops: nat): Pool {
    Pool(maxConnections, 0, false, S.Init(IDLE_CAPACITY, ops), seq(clients, _ => Outside), 0, 0)
  }

  function Go(p: Pool, i: nat, c: Client): Pool
    requires i < |p.clients|
  {
    p.(clients := p.clients[i := c])
  }

  // A channel read by client i; `blocked` is where it stays without a result.
  function AfterChannelRead(p: Pool, i: nat, op: nat, e: S.Event<nat>, empty: Client, blocked: Client): Pool
    requires i < |p.clients| && op < |p.idle.ops|
  {
    if !S.Takes(p.idle, e) then p
    else
      var idle := S.Apply(p.idle, e);
      if op >= |idle.ops| then p
      else if idle.ops[op].Got? then Go(p, i, Holding(idle.ops[op].v)).(idle := idle)
      else if idle.ops[op].Eof? then Go(p, i, empty).(idle := idle)
      else Go(p, i, blocked).(idle := idle)
  }

  predicate Takes(p: Pool, e: Event) {
    && e.i < |p.clients|
    && var c := p.clients[e.i];
       match e
       case Acquire(_) => c.Outside?
       case Probe(_, op) => c.Probing? && op < |p.idle.ops| && p.idle.ops[op].Unstarted?
       case PreWarm(_) => c.Outside?
       case LoadTotal(_) => c.Counting?
       case Exchange(_, _) => c.Loaded?
       case Connected(_) => c.Connecting?
       case ConnectFailed(_) => c.Connecting?
       case BeginRead(_, op) => c.AtCapacity? && op < |p.idle.ops| && p.idle.ops[op].Unstarted?
       case SuspendRead(_) => c.Reading? && c.op < |p.idle.ops| && p.idle.ops[c.op].ReadBlockedOp?
       case ResumeRead(_) => c.Reading? && c.op < |p.idle.ops| && p.idle.ops[c.op].ReadWoken?
       case Release(_, op, _) => c.Holding? && op < |p.idle.ops| && p.idle.ops[op].Unstarted?
       case Invalidate(_) => c.Holding?
       case Shutdown(_) => true
       case CloseIdle(_) => p.shutdown
  }

  function Step(p: Pool, e: Event): Pool
    requires Takes(p, e)
  {
    var i, c := e.i, p.clients[e.i];
    match e
    case Acquire(_) => if p.shutdown then p else Go(p, i, Probing)
    case Probe(_, op) => AfterChannelRead(p, i, op, S.ReadNow(op), Counting(false), Probing)
    case PreWarm(_) => Go(p, i, Counting(true))
    case LoadTotal(_) => Go(p, i, Loaded(Nat(p.total), c.warm))
    case Exchange(_, spurious) =>
      if c.current >= p.maxConnections then Go(p, i, if c.warm then Outside else AtCapacity)
      else if !spurious && p.total == c.current then Go(p, i, Connecting).(total := p.total + 1)
      else Go(p, i, Loaded(Nat(p.total), c.warm))
    case Connected(_) => Go(p, i, Holding(p.dialed)).(dialed := p.dialed + 1)
    case ConnectFailed(_) => Go(p, i, Outside).(total := p.total - 1)
    case BeginRead(_, op) => AfterChannelRead(p, i, op, S.Read(op), Outside, Reading(op))
    case SuspendRead(_) => AfterChannelRead(p, i, c.op, S.SuspendRead(c.op), Outside, c)
    case ResumeRead(_) => AfterChannelRead(p, i, c.op, S.ResumeRead(c.op), Outside, c)
    case Release(_, op, valid) =>
      if !valid then Go(p, i, Outside).(leaked := p.leaked + 1)
      else
        var idle := S.Apply(p.idle, S.WriteNow(op, c.socket));
        if op < |idle.ops| && idle.ops[op].Wrote? then Go(p, i, Outside).(idle := idle)
        else Go(p, i, Outside).(idle := idle, total := p.total - 1)
    case Invalidate(_) => Go(p, i, Outside).(total := p.total - 1)
    case Shutdown(_) => p.(shutdown := true)
    case CloseIdle(_) => p.(idle := S.Apply(p.idle, S.CloseChannel))
  }

  function Nat(x: int): nat {
    if x < 0 then 0 else x
  }

  function Apply(p: Pool, e: Event): Pool {
    if Takes(p, e) then Step(p, e) else p
  }

  // ---- the invariant ---------------------------------------------------------

  function HandedOut(c: Client): nat { if c.Holding? then 1 else 0 }
  function Opening(c: Client): nat { if c.Connecting? then 1 else 0 }

  // How many clients hold socket x.
  function Holders(clients: seq<Client>, x: nat): nat {
    if clients == [] then 0
    else (if clients[0] == Holding(x) then 1 else 0) + Holders(clients[1..], x)
  }

  // How many idle entries are socket x.
  function Idle(items: seq<(nat, nat)>, x: nat): nat {
    if items == [] then 0
    else (if items[0].1 == x then 1 else 0) + Idle(items[1..], x)
  }

  ghost predicate Accounted(p: Pool) {
    && p.total == |p.idle.ch.items| + Sum(p.clients, HandedOut) + Sum(p.clients, Opening) + p.leaked
    && p.total <= p.maxConnections
  }

  ghost predicate Exclusive(p: Pool) {
    forall x: nat :: Idle(p.idle.ch.items, x) + Holders(p.clients, x) <= if x < p.dialed then 1 else 0
  }

  ghost predicate Inv(p: Pool) {
    S.Inv(p.idle) && Accounted(p) && Exclusive(p)
  }

  lemma InitInv(maxConnections: nat, clients: nat, ops: nat)
    ensures Inv(Init(maxConnections, clients, ops))
  {
    var p := Init(maxConnections, clients, ops);
    S.InitInv<nat>(IDLE_CAPACITY, ops);
    SumZero(p.clients, HandedOut);
    SumZero(p.clients, Opening);
    forall x: nat ensures Holders(p.clients, x) == 0 {
      NoHolders(p.clients, x);
    }
  }

  lemma {:induction false} NoHolders(clients: seq<Client>, x: nat)
    requires forall i | 0 <= i < |clients| :: clients[i] != Holding(x)
    ensures Holders(clients, x) == 0
  {
    if clients != [] {
      NoHolders(clients[1..], x);
    }
  }

  lemma {:induction false} HoldersUpdate(clients: seq<Client>, i: nat, c: Client, x: nat)
    requires i < |clients|
    ensures Holders(clients[i := c], x) + (if clients[i] == Holding(x) then 1 else 0)
            == Holders(clients, x) + (if c == Holding(x) then 1 else 0)
  {
    var r := clients[i := c];
    if i == 0 {
      assert r[1..] == clients[1..];
    } else {
      assert r[1..] == clients[1..][i - 1 := c];
      HoldersUpdate(clients[1..], i - 1, c, x);
    }
  }

  lemma {:induction false} IdleAppend(items: seq<(nat, nat)>, y: (nat, nat), x: nat)
    ensures Idle(items + [y], x) == Idle(items, x) + if y.1 == x then 1 else 0
  {
    if items == [] {
      assert items + [y] == [y];
    } else {
      assert (items + [y])[1..] == items[1..] + [y];
      IdleAppend(items[1..], y, x);
    }
  }

  // The counts after client i changes phase.
  lemma Moved(p: Pool, i: nat, c: Client)
    requires i < |p.clients|
    ensures var r, q := p.clients[i := c], p.clients[i];
            && Sum(r, HandedOut) + HandedOut(q) == Sum(p.clients, HandedOut) + HandedOut(c)
            && Sum(r, Opening) + Opening(q) == Sum(p.clients, Opening) + Opening(c)
            && HandedOut(q) <= Sum(p.clients, HandedOut) && Opening(q) <= Sum(p.clients, Opening)
    ensures forall x: nat {:trigger Holders(p.clients[i := c], x)} ::
              Holders(p.clients[i := c], x) + (if p.clients[i] == Holding(x) then 1 else 0)
              == Holders(p.clients, x) + (if c == Holding(x) then 1 else 0)
  {
    SumUpdate(p.clients, i, c, HandedOut);
    SumUpdate(p.clients, i, c, Opening);
    SumAtLeast(p.clients, i, HandedOut);
    SumAtLeast(p.clients, i, Opening);
    forall x: nat
      ensures Holders(p.clients[i := c], x) + (if p.clients[i] == Holding(x) then 1 else 0)
              == Holders(p.clients, x) + (if c == Holding(x) then 1 else 0)
    {
      HoldersUpdate(p.clients, i, c, x);
    }
  }

  // A read by op takes the oldest item exactly when it reports a value.
  lemma ReadEffect(s: S.Sys<nat>, op: nat, e: S.Event<nat>)
    requires S.Tickets(s.ch, s.ops) && op < |s.ops| && S.Takes(s, e)
    requires e == S.ReadNow(op) || e == S.Read(op) || e == S.SuspendRead(op) || e == S.ResumeRead(op)
    ensures var s' := S.Apply(s, e);
            && op < |s'.ops|
            && (if s'.ops[op].Got? then
                  s.ch.items != [] && s'.ops[op].v == s.ch.items[0].1 && s'.ch.items == s.ch.items[1..]
                else s'.ch.items == s.ch.items)
  {
    if s.ch.writers != [] {
      assert s.ops[s.ch.writers[0]].WriteQueued?;
    }
  }

  lemma WriteEffect(s: S.Sys<nat>, op: nat, v: nat)
    requires S.Tickets(s.ch, s.ops) && op < |s.ops| && s.ops[op].Unstarted?
    ensures var s' := S.Apply(s, S.WriteNow(op, v));
            && op < |s'.ops|
            && s'.ch.items == if s'.ops[op].Wrote? then s.ch.items + [(op, v)] else s.ch.items
  {
    if s.ch.readers != [] {
      assert s.ops[s.ch.readers[0]].ReadQueued?;
    }
  }

  // A client that holds nothing may take the oldest idle socket, or nothing.
  lemma ReadKeeps(p: Pool, i: nat, idle: S.Sys<nat>, c: Client)
    requires Accounted(p) && Exclusive(p) && i < |p.clients|
    requires HandedOut(p.clients[i]) + Opening(p.clients[i]) == 0
    requires var items := p.idle.ch.items;
             if c.Holding? then items != [] && c.socket == items[0].1 && idle.ch.items == items[1..]
             else Opening(c) == 0 && idle.ch.items == items
    ensures var p' := Go(p, i, c).(idle := idle); Accounted(p') && Exclusive(p')
  {
    Moved(p, i, c);
    var p' := Go(p, i, c).(idle := idle);
    forall x: nat ensures Idle(p'.idle.ch.items, x) + Holders(p'.clients, x) <= if x < p'.dialed then 1 else 0 {
      assert Idle(p.idle.ch.items, x) + Holders(p.clients, x) <= if x < p.dialed then 1 else 0;
    }
  }

  lemma StepRead(p: Pool, i: nat, op: nat, e: S.Event<nat>, empty: Client, blocked: Client)
    requires Accounted(p) && Exclusive(p) && S.Tickets(p.idle.ch, p.idle.ops)
    requires i < |p.clients| && op < |p.idle.ops|
    requires e == S.ReadNow(op) || e == S.Read(op) || e == S.SuspendRead(op) || e == S.ResumeRead(op)
    requires HandedOut(p.clients[i]) + Opening(p.clients[i]) == 0
    requires HandedOut(empty) + Opening(empty) == 0 && HandedOut(blocked) + Opening(blocked) == 0
    ensures var p' := AfterChannelRead(p, i, op, e, empty, blocked);
            Accounted(p') && Exclusive(p') && (p'.idle == p.idle || p'.idle == S.Apply(p.idle, e))
  {
    hide S.Apply, Sum, Idle, Holders, S.Tickets;
    if S.Takes(p.idle, e) {
      ReadEffect(p.idle, op, e);
      var idle := S.Apply(p.idle, e);
      var q := idle.ops[op];
      ReadKeeps(p, i, idle, if q.Got? then Holding(q.v) else if q.Eof? then empty else blocked);
    }
  }

  lemma StepRelease(p: Pool, e: Event)
    requires Accounted(p) && Exclusive(p) && S.Tickets(p.idle.ch, p.idle.ops) && Takes(p, e) && e.Release?
    ensures var p' := Step(p, e);
            && Accounted(p') && Exclusive(p')
            && (p'.idle == p.idle || p'.idle == S.Apply(p.idle, S.WriteNow(e.op, p.clients[e.i].socket)))
  {
    hide S.Apply, Sum, Idle, Holders, S.Tickets;
    var p', socket := Step(p, e), p.clients[e.i].socket;
    Moved(p, e.i, Outside);
    WriteEffect(p.idle, e.op, socket);
    forall x: nat ensures Idle(p'.idle.ch.items, x) + Holders(p'.clients, x) <= if x < p'.dialed then 1 else 0 {
      assert Idle(p.idle.ch.items, x) + Holders(p.clients, x) <= if x < p.dialed then 1 else 0;
      IdleAppend(p.idle.ch.items, (e.op, socket), x);
    }
  }

  lemma StepClose(p: Pool, e: Event)
    requires Accounted(p) && Exclusive(p) && Takes(p, e) && e.CloseIdle?
    ensures Accounted(Step(p, e)) && Exclusive(Step(p, e))
  {
  }

  lemma OwnMoves(p: Pool, e: Event)
    requires Accounted(p) && Exclusive(p) && Takes(p, e) && !e.Release? && !e.CloseIdle?
    requires !e.Probe? && !e.BeginRead? && !e.SuspendRead? && !e.ResumeRead?
    ensures Step(p, e).idle == p.idle && Accounted(Step(p, e)) && Exclusive(Step(p, e))
  {
    hide Sum, Idle, Holders;
    var p' := Step(p, e);
    Moved(p, e.i, p'.clients[e.i]);
    assert p'.clients == p.clients[e.i := p'.clients[e.i]];
    forall x: nat ensures Idle(p'.idle.ch.items, x) + Holders(p'.clients, x) <= if x < p'.dialed then 1 else 0 {
      assert Idle(p.idle.ch.items, x) + Holders(p.clients, x) <= if x < p.dialed then 1 else 0;
    }
  }

  lemma IdleTickets(idle: S.Sys<nat>)
    requires S.Inv(idle)
    ensures S.Tickets(idle.ch, idle.ops)
  {
    hide S.Tickets;
  }

  lemma StepInv(p: Pool, e: Event)
    requires Inv(p)
    ensures Inv(Apply(p, e))
  {
    hide S.Inv, S.Apply, S.Step, S.Tickets, Accounted, Exclusive;
    IdleTickets(p.idle);
    if Takes(p, e) {
      var c := p.clients[e.i];
      match e
      case Probe(i, op) =>
        S.StepInv(p.idle, S.ReadNow(op));
        StepRead(p, i, op, S.ReadNow(op), Counting(false), Probing);
      case BeginRead(i, op) =>
        S.StepInv(p.idle, S.Read(op));
        StepRead(p, i, op, S.Read(op), Outside, Reading(op));
      case SuspendRead(i) =>
        S.StepInv(p.idle, S.SuspendRead(c.op));
        StepRead(p, i, c.op, S.SuspendRead(c.op), Outside, c);
      case ResumeRead(i) =>
        S.StepInv(p.idle, S.ResumeRead(c.op));
        StepRead(p, i, c.op, S.ResumeRead(c.op), Outside, c);
      case Release(_, op, _) =>
        S.StepInv(p.idle, S.WriteNow(op, c.socket));
        StepRelease(p, e);
      case CloseIdle(_) =>
        S.StepInv(p.idle, S.CloseChannel);
        StepClose(p, e);
      case _ => OwnMoves(p, e);
    }
  }

  // The limit is fixed, and only an invalid release leaks.
  lemma StepLeaks(p: Pool, e: Event)
    ensures var p' := Apply(p, e);
            && p'.maxConnections == p.maxConnections && p.leaked <= p'.leaked
            && (!e.Release? || e.valid ==> p'.leaked == p.leaked)
  {
  }

  ghost function Exec(p: Pool, es: seq<Event>): (p': Pool)
    requires Inv(p)
    ensures Inv(p') && p'.maxConnections == p.maxConnections
    ensures p.leaked <= p'.leaked
    ensures (forall e | e in es && e.Release? :: e.valid) ==> p'.leaked == p.leaked
    decreases |es|
  {
    if es == [] then p
    else
      StepInv(p, es[0]);
      StepLeaks(p, es[0]);
      assert es[0] in es && forall e | e in es[1..] :: e in es;
      Exec(Apply(p, es[0]), es[1..])
  }

  // In every run the counter equals what is idle, handed out or being
  // connected, plus the invalid sockets that release ignored, and never
  // exceeds the limit.  Without such releases the last term is zero.
  lemma CountsConnections(maxConnections: nat, clients: nat, ops: nat, es: seq<Event>)
    ensures Inv(Init(maxConnections, clients, ops))
    ensures var p := Exec(Init(maxConnections, clients, ops), es);
            && p.total == |p.idle.ch.items| + Sum(p.clients, HandedOut) + Sum(p.clients, Opening) + p.leaked
            && 0 <= p.total <= maxConnections
            && ((forall e | e in es && e.Release? :: e.valid) ==>
                  p.total == |p.idle.ch.items| + Sum(p.clients, HandedOut) + Sum(p.clients, Opening))
  {
    InitInv(maxConnections, clients, ops);
  }

  // In every state a run can reach, no connection is in two hands, or in a hand
  // and in the idle channel.
  lemma OneHolder(p: Pool, i: nat, j: nat)
    requires Inv(p) && i < |p.clients| && p.clients[i].Holding? && i < j
    ensures j < |p.clients| ==> p.clients[j] != p.clients[i]
    ensures forall k | 0 <= k < |p.idle.ch.items| :: p.idle.ch.items[k].1 != p.clients[i].socket
  {
    var x := p.clients[i].socket;
    assert Idle(p.idle.ch.items, x) + Holders(p.clients, x) <= 1;
    hide Inv;
    HasHolder(p.clients, i, x);
    if j < |p.clients| && p.clients[j] == Holding(x) {
      TwoHolders(p.clients, i, j, x);
    }
    forall k | 0 <= k < |p.idle.ch.items| ensures p.idle.ch.items[k].1 != x {
      if p.idle.ch.items[k].1 == x {
        HasIdle(p.idle.ch.items, k, x);
      }
    }
  }

  lemma {:induction false} HasIdle(items: seq<(nat, nat)>, k: nat, x: nat)
    requires k < |items| && items[k].1 == x
    ensures Idle(items, x) >= 1
  {
    if k > 0 {
      HasIdle(items[1..], k - 1, x);
    }
  }

  lemma {:induction false} TwoHolders(clients: seq<Client>, i: nat, j: nat, x: nat)
    requires i < j < |clients| && clients[i] == clients[j] == Holding(x)
    ensures Holders(clients, x) >= 2
  {
    if i > 0 {
      TwoHolders(clients[1..], i - 1, j - 1, x);
    } else {
      HasHolder(clients[1..], j - 1, x);
    }
  }

  lemma {:induction false} HasHolder(clients: seq<Client>, j: nat, x: nat)
    requires j < |clients| && clients[j] == Holding(x)
    ensures Holders(clients, x) >= 1
  {
    if j > 0 {
      HasHolder(clients[1..], j - 1, x);
    }
  }

  // ---- what one call does --------------------------------------------------------

  function Run(p: Pool, es: seq<Event>): Pool
    decreases |es|
  {
    if es == [] then p else Run(Apply(p, es[0]), es[1..])
  }

  lemma RunOne(p: Pool, e: Event, es: seq<Event>)
    ensures Run(p, [e] + es) == Run(Apply(p, e), es)
  {
    hide Apply;
    assert ([e] + es)[1..] == es;
  }

  lemma Run3(p: Pool, a: Event, b: Event, c: Event)
    ensures Run(p, [a, b, c]) == Apply(Apply(Apply(p, a), b), c)
  {
    hide Apply;
    assert [a, b, c] == [a] + ([b] + ([c] + []));
    RunOne(p, a, [b] + ([c] + []));
    RunOne(Apply(p, a), b, [c] + []);
    RunOne(Apply(Apply(p, a), b), c, []);
  }

  lemma ProbeFinds(p: Pool, i: nat, op: nat)
    requires Inv(p) && i < |p.clients| && p.clients[i].Probing? && op < |p.idle.ops| && p.idle.ops[op].Unstarted?
    ensures var q, c := Apply(p, Probe(i, op)), p.idle.ch;
            && q.total == p.total && q.shutdown == p.shutdown && q.maxConnections == p.maxConnections
            && |q.clients| == |p.clients|
            && q.clients[i] == if |c.items| > c.readReserved then Holding(c.items[0].1) else Counting(false)
  {
    hide S.Values, S.Room, Exclusive, Accounted, Sum;
    S.OtherReadEnds(p.idle, S.ReadNow(op));
    hide S.Inv;
  }

  // An acquire with no other client in between takes the oldest idle connection
  // that is not promised to a waiter; if there is none it dials exactly below
  // max_connections, and otherwise goes on to wait for one.
  lemma AcquireAlone(p: Pool, i: nat, op: nat)
    requires Inv(p) && !p.shutdown && i < |p.clients| && p.clients[i].Outside?
    requires op < |p.idle.ops| && p.idle.ops[op].Unstarted?
    ensures var q := Run(p, [Acquire(i), Probe(i, op), LoadTotal(i), Exchange(i, false)]);
            var c := p.idle.ch;
            && i < |q.clients|
            && (if |c.items| > c.readReserved then q.clients[i] == Holding(c.items[0].1) && q.total == p.total
                else if p.total < p.maxConnections then q.clients[i] == Connecting && q.total == p.total + 1
                else q.clients[i] == AtCapacity && q.total == p.total)
  {
    var p1 := Apply(p, Acquire(i));
    assert [Acquire(i), Probe(i, op), LoadTotal(i), Exchange(i, false)]
           == [Acquire(i)] + [Probe(i, op), LoadTotal(i), Exchange(i, false)];
    RunOne(p, Acquire(i), [Probe(i, op), LoadTotal(i), Exchange(i, false)]);
    Run3(p1, Probe(i, op), LoadTotal(i), Exchange(i, false));
    StepInv(p, Acquire(i));
    ProbeFinds(p1, i, op);
    Dials(Apply(p1, Probe(i, op)), i);
    hide S.Inv, Exclusive, S.Takes, S.Apply, AfterChannelRead;
  }

  // The count is loaded and exchanged with nobody in between.
  lemma Dials(p: Pool, i: nat)
    requires i < |p.clients| && p.total >= 0
    ensures var q := Apply(Apply(p, LoadTotal(i)), Exchange(i, false));
            && |q.clients| == |p.clients| && q.idle == p.idle
            && (match p.clients[i]
                case Counting(warm) =>
                  if p.total < p.maxConnections then q.clients[i] == Connecting && q.total == p.total + 1
                  else q.clients[i] == (if warm then Outside else AtCapacity) && q.total == p.total
                case Holding(_) => q == p
                case _ => true)
  {
    hide S.Takes, S.Apply, AfterChannelRead;
  }

  // A dial that connects hands out a connection nobody has had; one that fails
  // gives its place back.
  lemma DialEnds(p: Pool, i: nat)
    requires Inv(p) && i < |p.clients| && p.clients[i].Connecting?
    ensures var q := Apply(p, Connected(i));
            && |q.clients| == |p.clients| && q.clients[i].Holding? && q.total == p.total && q.idle == p.idle
            && (forall j | 0 <= j < |p.clients| && j != i :: q.clients[j] != q.clients[i])
            && forall k | 0 <= k < |q.idle.ch.items| :: q.idle.ch.items[k].1 != q.clients[i].socket
    ensures var q := Apply(p, ConnectFailed(i));
            q.clients == p.clients[i := Outside] && q.idle == p.idle && q.total == p.total - 1
  {
    hide Inv;
    var q := Apply(p, Connected(i));
    StepInv(p, Connected(i));
    OneHolder(q, i, i + 1);
    forall j | 0 <= j < |p.clients| && j != i ensures q.clients[j] != q.clients[i] {
      if q.clients[j].Holding? {
        OneHolder(q, if i < j then i else j, if i < j then j else i);
      }
    }
  }

  // So does a pre-warming call, except that it neither takes nor waits.
  lemma PreWarmAlone(p: Pool, i: nat)
    requires Inv(p) && i < |p.clients| && p.clients[i].Outside?
    ensures var q := Run(p, [PreWarm(i), LoadTotal(i), Exchange(i, false)]);
            && i < |q.clients| && q.idle == p.idle
            && (if p.total < p.maxConnections then q.clients[i] == Connecting && q.total == p.total + 1
                else q.clients[i] == Outside && q.total == p.total)
  {
    hide S.Inv, Exclusive, S.Takes, S.Apply;
    Run3(p, PreWarm(i), LoadTotal(i), Exchange(i, false));
    Dials(Apply(p, PreWarm(i)), i);
  }

  // A valid connection given back is the newest idle one, where the idle channel
  // is open and has room beyond its reservations; otherwise it is closed and the
  // count goes down, as it does for one invalidated.
  lemma ReleaseKeeps(p: Pool, i: nat, op: nat)
    requires Inv(p) && i < |p.clients| && p.clients[i].Holding? && op < |p.idle.ops| && p.idle.ops[op].Unstarted?
    ensures var q, c := Apply(p, Release(i, op, true)), p.idle.ch;
            && |q.clients| == |p.clients| && q.clients[i] == Outside && q.leaked == p.leaked
            && (if !c.closed && S.HasRoom(c) then
                  q.idle.ch.items == c.items + [(op, p.clients[i].socket)] && q.total == p.total
                else q.idle.ch.items == c.items && q.total == p.total - 1)
    ensures var q := Apply(p, Invalidate(i));
            q.clients == p.clients[i := Outside] && q.idle == p.idle && q.total == p.total - 1
  {
    hide S.Values, Exclusive, Accounted, Sum;
    var e := S.WriteNow(op, p.clients[i].socket);
    S.OtherWriteEnds(p.idle, e);
    WriteEffect(p.idle, op, p.clients[i].socket);
    hide S.Inv;
  }

  lemma Run2(p: Pool, a: Event, b: Event)
    ensures Run(p, [a, b]) == Apply(Apply(p, a), b)
  {
    hide Apply;
    assert [a, b] == [a] + ([b] + []);
    RunOne(p, a, [b] + []);
    RunOne(Apply(p, a), b, []);
  }

  // ---- waiting at capacity -------------------------------------------------------------

  // One block of a client's read of the idle channel.
  lemma ReadBlock(p: Pool, i: nat, op: nat, e: Event)
    requires Inv(p) && i < |p.clients| && op < |p.idle.ops|
    requires if e == BeginRead(i, op) then p.clients[i].AtCapacity? && p.idle.ops[op].Unstarted?
             else e == SuspendRead(i) && p.clients[i] == Reading(op) && p.idle.ops[op].ReadBlockedOp?
    ensures var q, c := Apply(p, e), p.idle.ch;
            && q.clients == p.clients[i := q.clients[i]] && |q.idle.ops| == |p.idle.ops|
            && q.total == p.total && q.maxConnections == p.maxConnections
            && (if |c.items| > c.readReserved then q.clients[i] == Holding(c.items[0].1)
                else if c.closed then q.clients[i] == Outside
                else
                  && q.clients[i] == Reading(op)
                  && q.idle.ops[op] == (if e.BeginRead? then S.ReadBlockedOp else S.ReadQueued)
                  && q.idle.ch == c.(readers := if e.BeginRead? then c.readers else c.readers + [op]))
  {
    hide S.Values, S.Room, Exclusive, Accounted, Sum;
    S.ReadEnds(p.idle, if e.BeginRead? then S.Read(op) else S.SuspendRead(op));
    hide S.Inv;
  }

  // A client at capacity, with no other in between, takes an idle connection that
  // is not promised; it gives up if the idle channel is closed, and otherwise
  // waits behind those already waiting.
  lemma WaitsInLine(p: Pool, i: nat, op: nat)
    requires Inv(p) && i < |p.clients| && p.clients[i].AtCapacity?
    requires op < |p.idle.ops| && p.idle.ops[op].Unstarted?
    ensures var q, c := Run(p, [BeginRead(i, op), SuspendRead(i)]), p.idle.ch;
            && i < |q.clients| && q.total == p.total
            && (if |c.items| > c.readReserved then q.clients[i] == Holding(c.items[0].1)
                else if c.closed then q.clients[i] == Outside
                else q.clients[i] == Reading(op) && q.idle.ch.readers == c.readers + [op])
  {
    Run2(p, BeginRead(i, op), SuspendRead(i));
    ReadBlock(p, i, op, BeginRead(i, op));
    StepInv(p, BeginRead(i, op));
    var q := Apply(p, BeginRead(i, op));
    if q.clients[i] == Reading(op) {
      ReadBlock(q, i, op, SuspendRead(i));
    }
    hide S.Inv, Exclusive, S.Takes, S.Apply, AfterChannelRead;
  }

  // A connection given back goes to the client that has waited longest.
  lemma ReleaseHandsOver(p: Pool, i: nat, j: nat, op: nat)
    requires Inv(p) && i < |p.clients| && j < |p.clients| && p.clients[j].Holding?
    requires op < |p.idle.ops| && p.idle.ops[op].Unstarted?
    requires var c := p.idle.ch;
             && !c.closed && c.items == [] && S.HasRoom(c)
             && c.readers != [] && p.clients[i] == Reading(c.readers[0])
    ensures var q := Run(p, [Release(j, op, true), ResumeRead(i)]);
            && q.clients == p.clients[j := Outside][i := Holding(p.clients[j].socket)]
            && q.total == p.total && q.idle.ch.items == []
  {
    Run2(p, Release(j, op, true), ResumeRead(i));
    StepInv(p, Release(j, op, true));
    GivenBack(p, j, op);
    WokenEnds(Apply(p, Release(j, op, true)), i, p.idle.ch.readers[0]);
    hide S.Inv, Exclusive, S.Takes, S.Apply, AfterChannelRead;
  }

  lemma GivenBack(p: Pool, j: nat, op: nat)
    requires Inv(p) && j < |p.clients| && p.clients[j].Holding?
    requires op < |p.idle.ops| && p.idle.ops[op].Unstarted?
    requires !p.idle.ch.closed && p.idle.ch.items == [] && S.HasRoom(p.idle.ch) && p.idle.ch.readers != []
    ensures var q, r := Apply(p, Release(j, op, true)), p.idle.ch.readers[0];
            && q.clients == p.clients[j := Outside] && q.total == p.total
            && q.idle.ch.items == [(op, p.clients[j].socket)]
            && r < |q.idle.ops| && q.idle.ops[r].ReadWoken?
  {
    hide S.Values, Exclusive, Accounted, Sum;
    var e := S.WriteNow(op, p.clients[j].socket);
    S.OtherWriteEnds(p.idle, e);
    WriteEffect(p.idle, op, p.clients[j].socket);
    hide S.Inv;
  }

  // A woken client gets the oldest idle connection; there is none only once the
  // idle channel is closed, and then it gives up.
  lemma WokenEnds(p: Pool, i: nat, op: nat)
    requires Inv(p) && i < |p.clients| && p.clients[i] == Reading(op) && op < |p.idle.ops| && p.idle.ops[op].ReadWoken?
    ensures var q, items := Apply(p, ResumeRead(i)), p.idle.ch.items;
            && q.clients == p.clients[i := if items != [] then Holding(items[0].1) else Outside]
            && (items == [] ==> p.idle.ch.closed) && q.total == p.total
            && q.idle.ch.items == (if items != [] then items[1..] else [])
  {
    S.OperationsMove(p.idle, op, 0);
    S.WokenHasTicket(p.idle, op);
    hide S.Values, S.Room, Exclusive, Accounted, Sum;
    S.OtherReadEnds(p.idle, S.ResumeRead(op));
    ReadEffect(p.idle, op, S.ResumeRead(op));
    hide S.Inv;
  }

  // ---- waiting for nothing -----------------------------------------------------------------

  // Nobody is between two steps: each client is outside or waits in the queue.
  ghost predicate Resting(p: Pool) {
    && (forall i | 0 <= i < |p.clients| :: p.clients[i].Outside? || p.clients[i].Reading?)
    && forall op | 0 <= op < |p.idle.ops| :: !p.idle.ops[op].ReadBlockedOp? && !p.idle.ops[op].ReadWoken?
  }

  // A client who comes to acquire or pre-warm, or the end of the pool.
  predicate FromOutside(e: Event) {
    e.Acquire? || e.PreWarm? || e.CloseIdle?
  }

  // A pool at rest has no connection out of those it counts, whenever anybody
  // waits; an invalidated connection wakes nobody.
  lemma RestingWaiters(p: Pool)
    requires Inv(p) && Resting(p) && !p.idle.ch.closed && p.idle.ch.readers != []
    ensures p.idle.ch.items == [] && p.total == p.leaked
  {
    SumZero(p.idle.ops, S.ReadTicket);
    SumZero(p.clients, HandedOut);
    SumZero(p.clients, Opening);
  }

  lemma RestingStep(p: Pool, e: Event)
    requires Resting(p) && !FromOutside(e)
    ensures var q := Apply(p, e); q.clients == p.clients && q.idle == p.idle && q.total == p.total
  {
    hide S.Apply, AfterChannelRead;
  }

  // So its waiters stay where they are until another client comes, or the pool
  // ends, however far the count is below max_connections.
  lemma {:induction false} RestingStays(p: Pool, es: seq<Event>)
    requires Inv(p) && Resting(p) && forall e | e in es :: !FromOutside(e)
    ensures var q := Exec(p, es);
            Resting(q) && q.clients == p.clients && q.idle == p.idle && q.total == p.total
    decreases |es|
  {
    hide Inv, Apply;
    if es != [] {
      StepInv(p, es[0]);
      RestingStep(p, es[0]);
      RestingStays(Apply(p, es[0]), es[1..]);
    }
  }

  // A pool of one connection with none idle.
  function Busy(ops: seq<S.Op<nat>>, readers: seq<nat>, clients: seq<Client>, total: nat, dialed: nat): Pool {
    Pool(1, total, false, S.Sys(C.Chan(IDLE_CAPACITY, [], 0, 0, false, readers, []), ops, [], []), clients, dialed, 0)
  }

  lemma FirstProbes(ops: seq<S.Op<nat>>, b: Client)
    requires |ops| == 3 && ops[0] == S.Unstarted
    ensures var p := Busy(ops, [], [Probing, b], 0, 0);
            && Apply(Busy(ops, [], [Outside, b], 0, 0), Acquire(0)) == p
            && Apply(p, Probe(0, 0)) == Busy(ops[0 := S.Eof], [], [Counting(false), b], 0, 0)
  {
  }

  lemma FirstDials(ops: seq<S.Op<nat>>, b: Client)
    ensures var p, q := Busy(ops, [], [Loaded(0, false), b], 0, 0), Busy(ops, [], [Connecting, b], 1, 0);
            && Apply(Busy(ops, [], [Counting(false), b], 0, 0), LoadTotal(0)) == p
            && Apply(p, Exchange(0, false)) == q
            && Apply(q, Connected(0)) == Busy(ops, [], [Holding(0), b], 1, 1)
  {
  }

  lemma SecondFindsNone(ops: seq<S.Op<nat>>, a: Client)
    requires |ops| == 3 && ops[1] == S.Unstarted
    ensures var none := ops[1 := S.Eof];
            var p1, p2 := Busy(ops, [], [a, Probing], 1, 1), Busy(none, [], [a, Counting(false)], 1, 1);
            var p3 := Busy(none, [], [a, Loaded(1, false)], 1, 1);
            && Apply(Busy(ops, [], [a, Outside], 1, 1), Acquire(1)) == p1 && Apply(p1, Probe(1, 1)) == p2
            && Apply(p2, LoadTotal(1)) == p3
            && Apply(p3, Exchange(1, false)) == Busy(none, [], [a, AtCapacity], 1, 1)
  {
  }

  lemma SecondWaits(ops: seq<S.Op<nat>>, a: Client)
    requires |ops| == 3 && ops[2] == S.Unstarted
    ensures Apply(Busy(ops, [], [a, AtCapacity], 1, 1), BeginRead(1, 2))
            == Busy(ops[2 := S.ReadBlockedOp], [], [a, Reading(2)], 1, 1)
  {
  }

  lemma SecondSleeps(ops: seq<S.Op<nat>>)
    requires |ops| == 3 && ops[2] == S.ReadBlockedOp
    ensures var p := Busy(ops[2 := S.ReadQueued], [2], [Holding(0), Reading(2)], 1, 1);
            && Apply(Busy(ops, [], [Holding(0), Reading(2)], 1, 1), SuspendRead(1)) == p
            && Apply(p, Invalidate(0)) == Busy(ops[2 := S.ReadQueued], [2], [Outside, Reading(2)], 0, 1)
  {
  }

  lemma NewPool()
    ensures Init(1, 2, 3) == Busy([S.Unstarted, S.Unstarted, S.Unstarted], [], [Outside, Outside], 0, 0)
  {
  }

  lemma Stranded(p: Pool)
    requires p == Busy([S.Eof, S.Eof, S.ReadQueued], [2], [Outside, Reading(2)], 0, 1)
    ensures Resting(p) && p.clients == [Outside, Reading(2)] && p.total == 0 < p.maxConnections
    ensures !p.shutdown && !p.idle.ch.closed && p.idle.ch.readers == [2]
  {
  }

  lemma {:induction false} Walk(p: Pool, es: seq<Event>, ps: seq<Pool>)
    requires Inv(p) && |ps| == |es| + 1 && ps[0] == p
    requires forall k | 0 <= k < |es| :: Apply(ps[k], es[k]) == ps[k + 1]
    ensures Exec(p, es) == ps[|es|]
    decreases |es|
  {
    hide Inv, Apply;
    if es != [] {
      StepInv(p, es[0]);
      assert forall k | 0 <= k < |es| - 1 :: Apply(ps[1..][k], es[1..][k]) == ps[1..][k + 1] by {
        forall k | 0 <= k < |es| - 1 ensures Apply(ps[1..][k], es[1..][k]) == ps[1..][k + 1] {
          assert Apply(ps[k + 1], es[k + 1]) == ps[k + 2];
        }
      }
      Walk(ps[1], es[1..], ps[1..]);
    }
  }

  lemma {:induction false} ExecAppend(p: Pool, a: seq<Event>, b: seq<Event>)
    requires Inv(p)
    ensures Exec(p, a + b) == Exec(Exec(p, a), b)
    decreases |a|
  {
    hide Inv, Apply;
    if a == [] {
      assert a + b == b;
    } else {
      StepInv(p, a[0]);
      assert (a + b)[1..] == a[1..] + b;
      ExecAppend(Apply(p, a[0]), a[1..], b);
    }
  }

  lemma FirstHolds() returns (es: seq<Event>)
    ensures Inv(Init(1, 2, 3))
    ensures Exec(Init(1, 2, 3), es) == Busy([S.Eof, S.Unstarted, S.Unstarted], [], [Holding(0), Outside], 1, 1)
  {
    hide Inv, Apply, Busy, Init;
    InitInv(1, 2, 3);
    NewPool();
    var none, one := [S.Unstarted, S.Unstarted, S.Unstarted], [S.Eof, S.Unstarted, S.Unstarted];
    assert none[0 := S.Eof] == one;
    FirstProbes(none, Outside);
    FirstDials(one, Outside);
    es := [Acquire(0), Probe(0, 0), LoadTotal(0), Exchange(0, false), Connected(0)];
    Walk(Init(1, 2, 3), es, [
      Busy(none, [], [Outside, Outside], 0, 0), Busy(none, [], [Probing, Outside], 0, 0),
      Busy(one, [], [Counting(false), Outside], 0, 0), Busy(one, [], [Loaded(0, false), Outside], 0, 0),
      Busy(one, [], [Connecting, Outside], 1, 0), Busy(one, [], [Holding(0), Outside], 1, 1)]);
  }

  lemma ThenStrands(p: Pool) returns (es: seq<Event>)
    requires Inv(p) && p == Busy([S.Eof, S.Unstarted, S.Unstarted], [], [Holding(0), Outside], 1, 1)
    ensures Exec(p, es) == Busy([S.Eof, S.Eof, S.ReadQueued], [2], [Outside, Reading(2)], 0, 1)
  {
    hide Inv, Apply, Busy;
    var one, two := [S.Eof, S.Unstarted, S.Unstarted], [S.Eof, S.Eof, S.Unstarted];
    var blocked, queued := [S.Eof, S.Eof, S.ReadBlockedOp], [S.Eof, S.Eof, S.ReadQueued];
    assert one[1 := S.Eof] == two && two[2 := S.ReadBlockedOp] == blocked;
    assert blocked[2 := S.ReadQueued] == queued;
    SecondFindsNone(one, Holding(0));
    SecondWaits(two, Holding(0));
    SecondSleeps(blocked);
    es := [Acquire(1), Probe(1, 1), LoadTotal(1), Exchange(1, false), BeginRead(1, 2), SuspendRead(1), Invalidate(0)];
    Walk(p, es, [
      p, Busy(one, [], [Holding(0), Probing], 1, 1), Busy(two, [], [Holding(0), Counting(false)], 1, 1),
      Busy(two, [], [Holding(0), Loaded(1, false)], 1, 1), Busy(two, [], [Holding(0), AtCapacity], 1, 1),
      Busy(blocked, [], [Holding(0), Reading(2)], 1, 1), Busy(queued, [2], [Holding(0), Reading(2)], 1, 1),
      Busy(queued, [2], [Outside, Reading(2)], 0, 1)]);
  }

  // One client holds the only connection, a second waits for it, and the first
  // finds it broken.
  lemma InvalidateStrands() returns (es: seq<Event>)
    ensures Inv(Init(1, 2, 3))
    ensures var p := Exec(Init(1, 2, 3), es);
            && Resting(p) && p.clients == [Outside, Reading(2)] && p.total == 0 < p.maxConnections
            && !p.shutdown && !p.idle.ch.closed && p.idle.ch.readers == [2]
  {
    hide Inv, Apply, Busy, Resting, Init;
    var first := FirstHolds();
    var second := ThenStrands(Exec(Init(1, 2, 3), first));
    es := first + second;
    ExecAppend(Init(1, 2, 3), first, second);
    Stranded(Exec(Init(1, 2, 3), es));
  }

  // A step after which fewer connections are counted, or the end of the pool.
  predicate Loses(e: Event) {
    e.Invalidate? || e.ConnectFailed? || (e.Release? && !e.valid) || e.CloseIdle?
  }

  // While no connection is lost, a client waits only at capacity.
  ghost predicate Steady(p: Pool) {
    && !p.idle.ch.closed && p.leaked == 0
    && (forall i | 0 <= i < |p.clients| ::
          && (p.clients[i].AtCapacity? ==> p.total >= p.maxConnections)
          && (p.clients[i].Loaded? ==> p.clients[i].current <= p.total))
    && forall op | 0 <= op < |p.idle.ops| ::
         && !S.WriteUnderWay(p.idle.ops[op])
         && (S.ReadUnderWay(p.idle.ops[op]) ==> p.total >= p.maxConnections)
  }

  // What the pool does to its idle channel puts no writer to sleep, and a reader
  // only where a read begins.
  ghost predicate Undisturbed(s: S.Sys<nat>, s': S.Sys<nat>, begins: bool) {
    && |s'.ops| == |s.ops| && s'.ch.closed == s.ch.closed && s'.ch.capacity == s.ch.capacity
    && forall k | 0 <= k < |s.ops| ::
         && (S.WriteUnderWay(s'.ops[k]) ==> S.WriteUnderWay(s.ops[k]))
         && (S.ReadUnderWay(s'.ops[k]) ==> S.ReadUnderWay(s.ops[k]) || begins)
  }

  lemma IdleOps(s: S.Sys<nat>, e: S.Event<nat>)
    requires S.Inv(s) && (e.ReadNow? || e.Read? || e.SuspendRead? || e.ResumeRead? || e.WriteNow?)
    ensures Undisturbed(s, S.Apply(s, e), e.Read?)
  {
    hide S.Inv, Undisturbed;
    if S.Takes(s, e) {
      if e.WriteNow? { WriteOps(s, e); } else { ReadOps(s, e); }
    } else {
      NothingDone(s, e.Read?);
    }
  }

  lemma NothingDone(s: S.Sys<nat>, begins: bool)
    ensures Undisturbed(s, s, begins)
  {
  }

  lemma ReadOps(s: S.Sys<nat>, e: S.Event<nat>)
    requires S.Inv(s) && S.Takes(s, e) && (e.ReadNow? || e.Read? || e.SuspendRead? || e.ResumeRead?)
    ensures Undisturbed(s, S.Apply(s, e), e.Read?)
  {
    hide S.Inv, S.WakeOne;
    forall ops: seq<S.Op<nat>>, h: Option<nat> ensures SameWay(ops, S.WakeOne(ops, h)) {
      WakingKeepsWay(ops, h);
    }
  }

  // The operations under way are the same, and of the same kind.
  ghost predicate SameWay(ops: seq<S.Op<nat>>, ops': seq<S.Op<nat>>) {
    |ops'| == |ops| && forall k | 0 <= k < |ops| ::
      && (S.WriteUnderWay(ops'[k]) <==> S.WriteUnderWay(ops[k]))
      && (S.ReadUnderWay(ops'[k]) <==> S.ReadUnderWay(ops[k]))
  }

  lemma WakingKeepsWay(ops: seq<S.Op<nat>>, h: Option<nat>)
    ensures SameWay(ops, S.WakeOne(ops, h))
  {
  }

  lemma WriteOps(s: S.Sys<nat>, e: S.Event<nat>)
    requires S.Inv(s) && S.Takes(s, e) && e.WriteNow?
    ensures Undisturbed(s, S.Apply(s, e), false)
  {
    hide S.Inv, S.WakeOne;
    forall ops: seq<S.Op<nat>>, h: Option<nat> ensures SameWay(ops, S.WakeOne(ops, h)) {
      WakingKeepsWay(ops, h);
    }
  }

  lemma RoomToRelease(p: Pool, i: nat)
    requires Inv(p) && Steady(p) && p.maxConnections <= IDLE_CAPACITY == p.idle.ch.capacity
    requires i < |p.clients| && p.clients[i].Holding?
    ensures S.HasRoom(p.idle.ch)
  {
    SumZero(p.idle.ops, S.WriteTicket);
    SumAtLeast(p.clients, i, HandedOut);
  }

  lemma SteadyStep(p: Pool, e: Event)
    requires Inv(p) && Steady(p) && p.maxConnections <= IDLE_CAPACITY == p.idle.ch.capacity && !Loses(e)
    ensures Steady(Apply(p, e)) && Apply(p, e).idle.ch.capacity == p.idle.ch.capacity
  {
    hide S.Inv, S.Apply, S.Takes, S.HasRoom, Exclusive, Sum;
    assert p.total >= 0;
    hide Accounted;
    if Takes(p, e) {
      var i, c := e.i, p.clients[e.i];
      match e
      case Probe(_, op) => SteadyRead(p, i, op, S.ReadNow(op), Counting(false), Probing);
      case BeginRead(_, op) => SteadyRead(p, i, op, S.Read(op), Outside, Reading(op));
      case SuspendRead(_) => SteadyRead(p, i, c.op, S.SuspendRead(c.op), Outside, c);
      case ResumeRead(_) => SteadyRead(p, i, c.op, S.ResumeRead(c.op), Outside, c);
      case Release(_, op, _) =>
        RoomToRelease(p, i);
        SteadyRelease(p, i, op);
      case _ =>
    }
  }

  lemma SteadyMove(p: Pool, i: nat, c: Client, idle: S.Sys<nat>, begins: bool)
    requires Steady(p) && i < |p.clients| && !c.AtCapacity? && !c.Loaded?
    requires Undisturbed(p.idle, idle, begins) && (begins ==> p.total >= p.maxConnections)
    ensures Steady(Go(p, i, c).(idle := idle))
  {
  }

  lemma SteadyRead(p: Pool, i: nat, op: nat, e: S.Event<nat>, empty: Client, blocked: Client)
    requires Inv(p) && Steady(p) && i < |p.clients| && op < |p.idle.ops|
    requires e == S.ReadNow(op) || e == S.Read(op) || e == S.SuspendRead(op) || e == S.ResumeRead(op)
    requires e.Read? ==> p.total >= p.maxConnections
    requires !empty.AtCapacity? && !empty.Loaded? && !blocked.AtCapacity? && !blocked.Loaded?
    ensures var q := AfterChannelRead(p, i, op, e, empty, blocked);
            Steady(q) && q.idle.ch.capacity == p.idle.ch.capacity
  {
    hide S.Apply, S.Takes, Accounted, Exclusive, Steady;
    IdleOps(p.idle, e);
    hide S.Inv;
    var idle := S.Apply(p.idle, e);
    assert |idle.ops| == |p.idle.ops| && idle.ch.capacity == p.idle.ch.capacity;
    var x := idle.ops[op];
    SteadyMove(p, i, if x.Got? then Holding(x.v) else if x.Eof? then empty else blocked, idle, e.Read?);
  }

  lemma OpenWhileSteady(p: Pool)
    requires Steady(p)
    ensures !p.idle.ch.closed
  {
  }

  lemma SteadyRelease(p: Pool, i: nat, op: nat)
    requires Inv(p) && Steady(p) && Takes(p, Release(i, op, true)) && S.HasRoom(p.idle.ch)
    ensures var q := Apply(p, Release(i, op, true)); Steady(q) && q.idle.ch.capacity == p.idle.ch.capacity
  {
    var e := S.WriteNow(op, p.clients[i].socket);
    hide S.Inv, S.Apply, S.HasRoom, Accounted, Exclusive, Steady;
    IdleOps(p.idle, e);
    assert !p.idle.ch.closed by { OpenWhileSteady(p); }
    S.OtherWriteEnds(p.idle, e);
    SteadyMove(p, i, Outside, S.Apply(p.idle, e), false);
  }

  // As long as no connection is invalidated, fails to open or is given back
  // invalid, nobody ever waits in a pool at rest.
  lemma {:induction false} NobodyStranded(p: Pool, es: seq<Event>)
    requires Inv(p) && Steady(p) && 0 < p.maxConnections <= IDLE_CAPACITY == p.idle.ch.capacity
    requires forall e | e in es :: !Loses(e)
    ensures Resting(Exec(p, es)) ==> Exec(p, es).idle.ch.readers == []
    decreases |es|
  {
    hide Inv, Steady, Resting, Apply;
    if es == [] {
      AtRest(p);
    } else {
      StepInv(p, es[0]);
      SteadyStep(p, es[0]);
      StepLeaks(p, es[0]);
      NobodyStranded(Apply(p, es[0]), es[1..]);
    }
  }

  lemma AtRest(p: Pool)
    requires Inv(p) && Steady(p) && 0 < p.maxConnections
    ensures Resting(p) ==> p.idle.ch.readers == []
  {
    if Resting(p) && p.idle.ch.readers != [] {
      assert p.idle.ops[p.idle.ch.readers[0]].ReadQueued?;
      RestingWaiters(p);
    }
  }

  lemma NewIsSteady(maxConnections: nat, clients: nat, ops: nat)
    ensures Inv(Init(maxConnections, clients, ops)) && Steady(Init(maxConnections, clients, ops))
    ensures Init(maxConnections, clients, ops).idle.ch.capacity == IDLE_CAPACITY
  {
    InitInv(maxConnections, clients, ops);
  }

  // ---- shutting down ---------------------------------------------------------------------

  // In every run the pool is shut down exactly once somebody has shut it down, its
  // idle channel is closed only then, and it gives nothing out from then on to a
  // client who comes to acquire.
  lemma {:induction false} ShutDownExactly(p: Pool, es: seq<Event>, i: nat)
    requires Inv(p) && (p.idle.ch.closed ==> p.shutdown)
    ensures var q := Exec(p, es);
            && |q.clients| == |p.clients|
            && (q.shutdown <==> p.shutdown || exists e | e in es :: e.Shutdown? && e.i < |p.clients|)
            && (q.idle.ch.closed ==> q.shutdown)
            && (q.shutdown ==> Apply(q, Acquire(i)) == q)
    decreases |es|
  {
    hide Inv, S.Takes, S.Apply, AfterChannelRead;
    if es != [] {
      StepInv(p, es[0]);
      StepShuts(p, es[0]);
      ShutDownExactly(Apply(p, es[0]), es[1..], i);
      assert es == [es[0]] + es[1..];
    }
  }

  lemma StepShuts(p: Pool, e: Event)
    requires Inv(p) && (p.idle.ch.closed ==> p.shutdown)
    ensures var q := Apply(p, e);
            && |q.clients| == |p.clients|
            && (q.shutdown <==> p.shutdown || (e.Shutdown? && e.i < |p.clients|))
            && (q.idle.ch.closed ==> q.shutdown)
  {
    hide S.Inv, S.Takes, S.Apply, Accounted, Exclusive;
    forall x: S.Event<nat> ensures S.Apply(p.idle, x).ch.closed <==> p.idle.ch.closed || x.CloseChannel? {
      S.StepCloses(p.idle, x);
    }
  }

  // The end of the pool wakes whoever waits: each gets an idle connection that is
  // left, or gives up.
  lemma ClosingWakes(p: Pool, i: nat, k: nat)
    requires Inv(p) && p.shutdown && i < |p.clients| && k < |p.clients| && p.clients[k].Reading?
    requires p.clients[k].op < |p.idle.ops| && p.idle.ops[p.clients[k].op].ReadQueued?
    ensures var q, items := Run(p, [CloseIdle(i), ResumeRead(k)]), p.idle.ch.items;
            && q.idle.ch.closed
            && q.clients == p.clients[k := if items != [] then Holding(items[0].1) else Outside]
  {
    hide Inv, S.Inv;
    Run2(p, CloseIdle(i), ResumeRead(k));
    StepInv(p, CloseIdle(i));
    var op := p.clients[k].op;
    WakeAllAt(p.idle.ops, op);
    var q := Apply(p, CloseIdle(i));
    WokenEnds(q, k, op);
    StillClosed(q, ResumeRead(k));
  }

  lemma {:induction false} WakeAllAt(ops: seq<S.Op<nat>>, k: nat)
    requires k < |ops|
    ensures S.WakeAll(ops)[k] == S.Wake(ops[k])
  {
    if k > 0 {
      WakeAllAt(ops[1..], k - 1);
    }
  }

  lemma StillClosed(p: Pool, e: Event)
    requires Inv(p) && p.idle.ch.closed
    ensures Apply(p, e).idle.ch.closed
  {
    hide S.Inv, S.Takes, S.Apply, Accounted, Exclusive;
    forall x: S.Event<nat> ensures S.Apply(p.idle, x).ch.closed {
      S.StepCloses(p.idle, x);
    }
  }

  lemma NewPoolIsOpen(maxConnections: nat, clients: nat, ops: nat)
    ensures Inv(Init(maxConnections, clients, ops))
    ensures var p := Init(maxConnections, clients, ops); !p.shutdown && !p.idle.ch.closed
  {
    InitInv(maxConnections, clients, ops);
  }
}
