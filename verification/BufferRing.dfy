module BufferRing {
  // Receive buffers lent to the kernel: the provided-buffer ring, the multishot
  // completion handler and its awaiter, and the assembler that copies chunks out
  // and gives buffers back.  At every moment each buffer has exactly one owner.

  import opened Prelude
  import opened Bits

  // ---- completions -------------------------------------------------------------

  // res > 0: bytes received; 0: end of stream; < 0: an error.  The buffer id
  // is in the upper half of the flags.
  datatype Chunk = Chunk(res: int, flags: nat)

  function BufferId(c: Chunk): nat {
    c.flags / 0x1_0000
  }

  function Flags(bid: nat, more: bool): nat {
    bid * 0x1_0000 + 1 + (if more then 2 else 0)
  }

  predicate More(flags: nat) {
    flags / 2 % 2 == 1
  }

  // multishot_is_terminal
  predicate Terminal(c: Chunk) {
    c.res <= 0 || !More(c.flags)
  }

  lemma FlagsCarry(bid: nat, more: bool, res: int)
    ensures BufferId(Chunk(res, Flags(bid, more))) == bid
    ensures More(Flags(bid, more)) == more
  {
    var low := if more then 3 else 1;
    DivModUnique(bid * 0x1_0000 + low, 0x1_0000, bid, low);
    DivModUnique(bid * 0x1_0000 + low, 2, bid * 0x8000 + low / 2, 1);
    DivModUnique(bid * 0x8000 + low / 2, 2, bid * 0x4000, low / 2);
  }

  // The buffers a list of completions holds.
  function Bids(chunks: seq<Chunk>): seq<nat> {
    if chunks == [] then []
    else (if chunks[0].res > 0 then [BufferId(chunks[0])] else []) + Bids(chunks[1..])
  }

  lemma {:induction false} BidsAppend(a: seq<Chunk>, b: seq<Chunk>)
    ensures Bids(a + b) == Bids(a) + Bids(b)
  {
    if a == [] {
      assert a + b == b;
    } else {
      assert (a + b)[1..] == a[1..] + b;
      BidsAppend(a[1..], b);
    }
  }

  lemma BidsPop(chunks: seq<Chunk>)
    requires chunks != []
    ensures Bids(chunks) == Bids([chunks[0]]) + Bids(chunks[1..])
  {
    BidsOne(chunks[0]);
  }

  lemma BidsNone()
    ensures Bids([]) == []
  {
  }

  lemma BidsOne(c: Chunk)
    ensures Bids([c]) == if c.res > 0 then [BufferId(c)] else []
  {
    assert [c][1..] == [];
  }

  // The bytes they hold, given what the buffers contain.
  function BytesOf(memory: seq<Bytes>, c: Chunk): Bytes {
    if 0 < c.res && BufferId(c) < |memory| && c.res <= |memory[BufferId(c)]| then memory[BufferId(c)][..c.res] else []
  }

  function Payload(memory: seq<Bytes>, chunks: seq<Chunk>): Bytes {
    if chunks == [] then [] else BytesOf(memory, chunks[0]) + Payload(memory, chunks[1..])
  }

  lemma {:induction false} PayloadAppend(memory: seq<Bytes>, a: seq<Chunk>, c: Chunk)
    ensures Payload(memory, a + [c]) == Payload(memory, a) + BytesOf(memory, c)
  {
    if a == [] {
      assert [c][1..] == [];
      assert [] + [c] == [c];
    } else {
      assert (a + [c])[1..] == a[1..] + [c];
      PayloadAppend(memory, a[1..], c);
    }
  }

  // Rewriting a buffer nobody here holds changes nothing.
  lemma {:induction false} PayloadKept(memory: seq<Bytes>, chunks: seq<Chunk>, bid: nat, data: Bytes)
    requires bid < |memory| && bid !in Bids(chunks)
    ensures Payload(memory[bid := data], chunks) == Payload(memory, chunks)
  {
    if chunks != [] {
      assert Bids(chunks) == (if chunks[0].res > 0 then [BufferId(chunks[0])] else []) + Bids(chunks[1..]);
      PayloadKept(memory, chunks[1..], bid, data);
    }
  }

  // ---- the ring of free buffers --------------------------------------------------

  // The ids in slots [head, tail).
  function InSlots(slots: seq<nat>, head: nat, tail: nat): (r: seq<nat>)
    requires |slots| > 0 && head <= tail
    ensures |r| == tail - head
  {
    seq(tail - head, i requires 0 <= i < tail - head => slots[(head + i) % |slots|])
  }

  // Writing the slot at the tail, before or after publishing it, appends.
  lemma SlotAppend(slots: seq<nat>, head: nat, tail: nat, bid: nat)
    requires head <= tail < head + |slots|
    ensures InSlots(slots[tail % |slots| := bid], head, tail + 1) == InSlots(slots, head, tail) + [bid]
  {
    var next := slots[tail % |slots| := bid];
    forall i | 0 <= i < tail - head ensures InSlots(next, head, tail + 1)[i] == InSlots(slots, head, tail)[i] {
      SlotsApart(|slots|, head + i, tail);
    }
  }

  lemma SlotTake(slots: seq<nat>, head: nat, tail: nat)
    requires |slots| > 0 && head < tail
    ensures InSlots(slots, head, tail) == [slots[head % |slots|]] + InSlots(slots, head + 1, tail)
  {
    var r, t := InSlots(slots, head, tail), InSlots(slots, head + 1, tail);
    forall i | 0 < i < tail - head ensures r[i] == t[i - 1] {
      assert head + i == head + 1 + (i - 1);
    }
  }

  class BufferGroup {
    const bits: nat
    const bufSize: nat
    const slots: array<nat>
    var head: nat          // the kernel's
    var tail: nat
    var memory: seq<Bytes> // buffer contents, by id

    ghost predicate Valid()
      reads this, slots
    {
      && slots.Length == Pow2(bits) == |memory| && head <= tail <= head + slots.Length
      && forall b | 0 <= b < |memory| :: |memory[b]| == bufSize
    }

    ghost function Ring(): seq<nat>
      requires Valid()
      reads this, slots
    {
      InSlots(slots[..], head, tail)
    }

    lemma RingSize()
      requires Valid()
      ensures tail == head + |Ring()| && slots.Length == Pow2(bits)
    {
    }

    // Registers 2^bits buffers, all of them in the ring.
    constructor (bits: nat, blank: Bytes)
      ensures Valid() && fresh(slots) && this.bits == bits && bufSize == |blank|
      ensures Ring() == Upto(Pow2(bits))
    {
      var n := Pow2(bits);
      this.bits, bufSize, head, tail := bits, |blank|, 0, 0;
      slots := new nat[n];
      memory := seq(n, _ => blank);
      new;
      var i := 0;
      while i < n
        invariant i <= n && tail == 0 == head && slots.Length == n
        invariant InSlots(slots[..], 0, i) == Upto(i)
        modifies slots
      {
        MaskIsMod(tail + i, bits);
        SlotAppend(slots[..], 0, i, i);
        ReturnBuffer(i, i);
        i := i + 1;
      }
      AdvanceRing(n);
    }

    method ReturnBuffer(bid: nat, offset: nat)
      requires slots.Length == Pow2(bits)
      modifies slots
      ensures slots[..] == old(slots[..])[(tail + offset) % slots.Length := bid]
    {
      MaskIsMod(tail + offset, bits);
      slots[And(tail + offset, Pow2(bits) - 1)] := bid;
    }

    method AdvanceRing(count: nat)
      modifies `tail
      ensures tail == old(tail) + count
    {
      tail := tail + count;
    }

    // The batch return: slots 0, 1, 2, ... past the tail, then one advance.
    method ReturnAll(bids: seq<nat>)
      requires Valid() && tail + |bids| <= head + slots.Length
      modifies `tail, slots
      ensures Valid() && Ring() == old(Ring()) + bids && tail == old(tail) + |bids|
    {
      for i := 0 to |bids|
        invariant Valid() && tail == old(tail)
        invariant InSlots(slots[..], head, tail + i) == old(Ring()) + bids[..i]
        modifies slots
      {
        SlotAppend(slots[..], head, tail + i, bids[i]);
        ReturnBuffer(bids[i], i);
        assert bids[..i + 1] == bids[..i] + [bids[i]];
      }
      assert bids[..|bids|] == bids;
      if bids != [] {
        AdvanceRing(|bids|);
      }
    }

    // The kernel receives into the buffer at the head of the ring.
    method Receive(bytes: Bytes) returns (bid: nat)
      requires Valid() && Ring() != [] && forall b | b in Ring() :: b < |memory|
      requires |bytes| <= bufSize
      modifies `head, `memory
      ensures Valid() && old(Ring()) == [bid] + Ring() && bid < |memory|
      ensures exists rest :: memory == old(memory)[bid := bytes + rest]
    {
      SlotTake(slots[..], head, tail);
      bid := slots[head % slots.Length];
      assert bid in Ring();
      memory := memory[bid := bytes + memory[bid][|bytes|..]];
      head := head + 1;
    }
  }

  function Upto(n: nat): seq<nat> {
    seq(n, i => i)
  }

  lemma UptoIsDistinct(n: nat, x: nat)
    ensures multiset(Upto(n))[x] == if x < n then 1 else 0
  {
    if n > 0 {
      UptoIsDistinct(n - 1, x);
      assert Upto(n) == Upto(n - 1) + [n - 1];
    }
  }

  // ---- owners ------------------------------------------------------------------------

  // Each of n buffers has exactly one owner: the ring, this connection in one
  // of its places, or another connection of the group.
  ghost predicate Partition(n: nat, ring: seq<nat>, posted: seq<nat>, queued: seq<nat>,
                            away: multiset<nat>, hand: seq<nat>, others: multiset<nat>)
  {
    multiset(ring) + multiset(posted) + multiset(queued) + away + multiset(hand) + others == multiset(Upto(n))
  }

  lemma PartitionFacts(n: nat, ring: seq<nat>, posted: seq<nat>, queued: seq<nat>, away: multiset<nat>, hand: seq<nat>,
                       others: multiset<nat>)
    requires Partition(n, ring, posted, queued, away, hand, others)
    ensures |ring| + |posted| + |queued| + |away| + |hand| + |others| == n
    ensures forall b | b in ring :: b < n && b !in posted && b !in queued && b !in away && b !in hand
    ensures forall b | b in queued || b in hand || b in posted || b in away :: b < n
  {
    var all := multiset(ring) + multiset(posted) + multiset(queued) + away + multiset(hand) + others;
    assert |all| == |multiset(Upto(n))|;
    forall b: nat ensures all[b] == if b < n then 1 else 0 {
      UptoIsDistinct(n, b);
    }
    forall b | b in ring ensures b < n && b !in posted && b !in queued && b !in away && b !in hand {
      assert multiset(ring)[b] >= 1;
      assert all[b] <= 1;
    }
    forall b | b in queued || b in hand || b in posted || b in away ensures b < n {
      assert all[b] >= 1;
    }
  }

  // ---- one connection, as a value -------------------------------------------------------

  // Where the coroutine that reads the connection stands.
  datatype Reader =
    | Running
    | Asking     // await_ready said no, await_suspend ahead
    | Sleeping   // its handle is stored
    | Resuming   // await_resume ahead

  // How far the assembler's cleanup has come.
  datatype Phase =
    | Using
    | Draining   // holds the lock and empties the queue
    | Unlocked   // has marked the state abandoned; the callback is still its own
    | Gone

  datatype Status = Status(
    armed: bool,           // the kernel may still post
    started: bool,
    hasCb: bool,
    hasBg: bool,
    reader: Reader,
    waiter: bool,
    stopped: bool,
    abandoned: bool,
    stateBg: bool,         // the shared state knows the buffer group
    ownerCb: bool,
    phase: Phase,
    disposing: bool,       // the handler is about to set m_dispose
    disposed: nat,         // history: times m_dispose was set
    lateEnd: bool,         // history: a terminal completion was handled after cleanup
    lateUse: bool)         // history: cleanup wrote to a callback with m_dispose set

  const Fresh := Status(false, false, false, false, Running, false, false, false, false, false, Using, false, 0, false,
                        false)

  datatype View = View(
    n: nat,
    bufSize: nat,
    ring: seq<nat>,
    memory: seq<Bytes>,
    posted: seq<Chunk>,    // completions nobody has handled yet
    queue: seq<Chunk>,
    hand: seq<Chunk>,      // taken by the consumer, not yet appended or returned
    pending: seq<nat>,
    giving: seq<nat>,      // being returned: not yet published by advance_ring
    lost: seq<nat>,        // received after a second cleanup: never returned
    reasm: Bytes,
    received: Bytes,       // history: bytes the kernel delivered
    consumed: Bytes,       // history: bytes the consumer is done with
    st: Status,
    others: multiset<nat>) // buffers with the other connections of the group

  // What only changes flags.
  datatype Mark =
    | Start(accepted: bool)
    | Ask                 // await_ready
    | Suspend             // await_suspend
    | Dispose             // the handler's last line
    | Lock                // cleanup enters its locked block
    | Abandon             // and leaves it
    | Detach              // what cleanup does after unlocking
    | Again               // a second cleanup: the destructor's

  // What only moves buffers and bytes about.
  datatype Move =
    | Append
    | Consume(count: nat)
    | GivePending         // the assembler starts to return what it copied
    | GiveHand            // the fast paths return chunks without assembling them
    | Publish             // advance_ring, after all slots are written
    | OtherTakes(bytes: Bytes)        // the kernel receives for another connection of the group
    | OtherReturns(bids: seq<nat>)    // another connection's return is published

  // A connection gives back one batch at a time: the consumer's returns are over
  // before cleanup locks, cleanup's before it unlocks, and only then does the
  // handler return anything.
  datatype Event =
    | PostData(bytes: Bytes, more: bool)
    | PostEnd(res: int)
    | Handle              // the handler's locked block
    | Take                // await_resume
    | Drain               // cleanup takes one chunk out of the queue
    | Marks(mark: Mark)
    | Moves(move: Move)

  function Init(n: nat, bufSize: nat, ring: seq<nat>, memory: seq<Bytes>, others: multiset<nat>): View {
    View(n, bufSize, ring, memory, [], [], [], [], [], [], [], [], [], Fresh, others)
  }

  // What the kernel, the other connections, and a consumer that uses one read
  // mode at a time may do; the lock and a return under way keep others out.
  predicate Takes(v: View, e: Event) {
    match e
    case PostData(bytes, _) => v.st.armed && CanReceive(v, bytes)
    case PostEnd(res) => v.st.armed && res <= 0
    case Handle => v.posted != [] && !v.st.phase.Draining? && (v.st.abandoned ==> v.giving == [] && !v.st.disposing)
    case Take => v.st.phase.Using? && v.st.reader.Resuming?
    case Drain => v.st.phase.Draining? && v.giving == [] && v.queue != []
    case Marks(m) => MayMark(v, m)
    case Moves(m) => MayMove(v, m)
  }

  predicate MayMark(v: View, m: Mark) {
    match m
    case Start(_) => v.st.phase.Using? && !v.st.hasBg
    case Ask => v.st.phase.Using? && v.st.reader.Running?
    case Suspend => v.st.phase.Using? && v.st.reader.Asking?
    case Dispose => v.st.disposing && v.giving == []
    case Lock => v.st.phase.Using? && v.hand == [] && v.pending == [] && v.giving == []
    case Abandon => v.st.phase.Draining? && v.giving == [] && v.queue == []
    case Detach => v.st.phase.Unlocked?
    case Again => v.st.phase.Gone?
  }

  predicate MayMove(v: View, m: Move) {
    match m
    case Append => v.st.phase.Using? && v.hand != []
    case Consume(_) => v.st.phase.Using?
    case GivePending => v.st.phase.Using? && v.giving == []
    case GiveHand => v.st.phase.Using? && v.giving == [] && v.reasm == []
    case Publish => v.giving != []
    case OtherTakes(bytes) => CanReceive(v, bytes)
    case OtherReturns(bids) => multiset(bids) <= v.others
  }

  // The ring has a buffer for the kernel to receive into.
  predicate CanReceive(v: View, bytes: Bytes) {
    v.ring != [] && 0 < |bytes| <= v.bufSize && v.ring[0] < |v.memory|
  }

  // A receive fills the front of the buffer at the head of the ring.
  function Filled(was: Bytes, bytes: Bytes): Bytes {
    if |bytes| <= |was| then bytes + was[|bytes|..] else bytes
  }

  function StepPostData(v: View, bytes: Bytes, more: bool): View
    requires v.ring != [] && v.ring[0] < |v.memory|
  {
    var bid := v.ring[0];
    v.(ring := v.ring[1..], memory := v.memory[bid := Filled(v.memory[bid], bytes)],
       posted := v.posted + [Chunk(|bytes|, Flags(bid, more))],
       st := v.st.(armed := more), received := v.received + bytes)
  }

  function StepPostEnd(v: View, res: int): View {
    v.(posted := v.posted + [Chunk(res, 0)], st := v.st.(armed := false))
  }

  // on_recv_chunk_handler for the oldest completion, up to the return of its
  // buffer: it queues the chunk and wakes the reader.  When nobody owns the state
  // any more the buffer goes straight back, if the state still knows where to.
  function StepHandle(v: View): View
    requires v.posted != []
  {
    var c, rest := v.posted[0], v.posted[1..];
    v.(posted := rest, st := HandleStatus(v.st, Terminal(c)),
       queue := if v.st.abandoned then v.queue else v.queue + [c],
       giving := if v.st.abandoned && v.st.stateBg then v.giving + Bids([c]) else v.giving,
       lost := if v.st.abandoned && !v.st.stateBg then v.lost + Bids([c]) else v.lost)
  }

  function HandleStatus(t: Status, end: bool): Status {
    if t.abandoned then
      t.(disposing := end && t.ownerCb, ownerCb := t.ownerCb && !end, lateEnd := t.lateEnd || end)
    else t.(stopped := t.stopped || end, reader := if t.waiter then Resuming else t.reader, waiter := false)
  }

  function StepTake(v: View): View {
    var n := if |v.queue| == 0 then 0 else 1;
    v.(st := v.st.(reader := Running), hand := v.hand + v.queue[..n], queue := v.queue[n..])
  }

  function StepOtherTakes(v: View, bytes: Bytes): View
    requires v.ring != [] && v.ring[0] < |v.memory|
  {
    var bid := v.ring[0];
    v.(ring := v.ring[1..], memory := v.memory[bid := Filled(v.memory[bid], bytes)], others := v.others + multiset{bid})
  }

  function StepAppend(v: View): View
    requires v.hand != []
  {
    var c := v.hand[0];
    v.(hand := v.hand[1..], reasm := v.reasm + BytesOf(v.memory, c), pending := v.pending + Bids([c]))
  }

  function StepConsume(v: View, count: nat): View {
    var m := Min(count, |v.reasm|);
    v.(reasm := v.reasm[m..], consumed := v.consumed + v.reasm[..m])
  }

  function StepDrain(v: View): View
    requires v.queue != []
  {
    v.(queue := v.queue[1..], giving := v.giving + Bids([v.queue[0]]))
  }

  // The handler's state is left alone.
  predicate SameState(v: View, w: View) {
    && w.n == v.n && w.posted == v.posted && w.queue == v.queue && w.st == v.st && w.lost == v.lost
    && (v.hand == [] && v.pending == [] ==> w.hand == [] && w.pending == [])
  }

  function StepMove(v: View, m: Move): (w: View)
    requires MayMove(v, m)
    ensures SameState(v, w)
  {
    match m
    case Append => StepAppend(v)
    case Consume(count) => StepConsume(v, count)
    case GivePending => v.(giving := v.pending, pending := [])
    case GiveHand => v.(giving := Bids(v.hand), hand := [], consumed := v.consumed + Payload(v.memory, v.hand))
    case Publish => v.(ring := v.ring + v.giving, giving := [])
    case OtherTakes(bytes) => StepOtherTakes(v, bytes)
    case OtherReturns(bids) => v.(ring := v.ring + bids, others := v.others - multiset(bids))
  }

  function StepMark(v: View, m: Mark): View {
    v.(st := MarkStatus(v.st, |v.queue| > 0 || v.st.stopped, m))
  }

  // Cleanup's last lines write to the callback, and to the state's owner_cb,
  // without the lock.
  function MarkStatus(t: Status, ready: bool, m: Mark): Status {
    match m
    case Start(ok) =>
      t.(hasBg := true, stateBg := true, hasCb := ok, ownerCb := t.ownerCb || ok, started := ok, armed := ok)
    case Ask => t.(reader := if ready then Resuming else Asking)
    case Suspend => t.(reader := if ready then Resuming else Sleeping, waiter := t.waiter || !ready)
    case Dispose => t.(disposing := false, disposed := t.disposed + 1)
    case Lock => t.(phase := Draining)
    case Abandon => t.(waiter := false, abandoned := true, stateBg := t.hasBg, phase := Unlocked)
    case Detach =>
      t.(lateUse := t.hasCb && t.disposed > 0, ownerCb := t.ownerCb || t.hasCb,
         hasCb := false, started := false, hasBg := false, phase := Gone)
    case Again => t.(stateBg := t.hasBg)
  }

  function Step(v: View, e: Event): View
    requires Takes(v, e)
  {
    match e
    case PostData(bytes, more) => StepPostData(v, bytes, more)
    case PostEnd(res) => StepPostEnd(v, res)
    case Handle => StepHandle(v)
    case Take => StepTake(v)
    case Drain => StepDrain(v)
    case Marks(m) => StepMark(v, m)
    case Moves(m) => StepMove(v, m)
  }

  function Apply(v: View, e: Event): View {
    if Takes(v, e) then Step(v, e) else v
  }

  // ---- the invariant ----------------------------------------------------------------------

  // No completion claims more bytes than a buffer has.
  ghost predicate Sized(chunks: seq<Chunk>, bufSize: nat) {
    forall i | 0 <= i < |chunks| :: chunks[i].res <= bufSize
  }

  // Buffers on their way back, or lost on it.
  ghost function Away(v: View): multiset<nat> {
    multiset(v.pending) + multiset(v.giving) + multiset(v.lost)
  }

  ghost predicate Owned(v: View) {
    Partition(v.n, v.ring, Bids(v.posted), Bids(v.queue), Away(v), Bids(v.hand), v.others)
  }

  ghost predicate Fitting(v: View) {
    && Sized(v.posted, v.bufSize) && Sized(v.queue, v.bufSize) && Sized(v.hand, v.bufSize)
    && |v.memory| == v.n
    && forall b | 0 <= b < v.n :: |v.memory[b]| == v.bufSize
  }

  // Until cleanup, the bytes received are those consumed, assembled, in hand,
  // queued and posted, in this order.
  ghost predicate Intact(v: View) {
    v.received == v.consumed + v.reasm + Payload(v.memory, v.hand) + Payload(v.memory, v.queue)
                  + Payload(v.memory, v.posted)
  }

  // Only the last completion is terminal; once it is handled nothing is posted.
  ghost predicate EndsOnce(posted: seq<Chunk>, t: Status) {
    && (forall i | 0 <= i < |posted| - 1 :: !Terminal(posted[i]))
    && (posted != [] ==> (Terminal(posted[|posted| - 1]) <==> !t.armed))
    && (t.stopped || t.lateEnd ==> !t.armed && posted == [])
  }

  // `busy`: the kernel may still post, or something posted is not handled.
  ghost predicate Disposal(t: Status, busy: bool) {
    && t.disposed + (if t.disposing then 1 else 0) == (if t.lateEnd then 1 else 0)
    && (t.lateEnd ==> t.abandoned)
    && (busy ==> if t.abandoned then t.ownerCb else t.started)
    && (!t.abandoned && t.hasCb ==> t.ownerCb)
    && (t.started ==> t.hasCb && t.hasBg)
    && (t.phase.Unlocked? && (busy || t.lateEnd) ==> t.hasCb && t.stateBg)
    && (t.lateUse ==> t.phase.Gone?)
  }

  predicate Busy(v: View) {
    v.st.armed || v.posted != []
  }

  // Before start there is nothing at all.
  ghost predicate Unstarted(v: View) {
    !v.st.hasBg && !v.st.abandoned ==>
      && !v.st.started && !v.st.stopped && !v.st.hasCb
      && v.queue == [] && v.hand == [] && v.pending == [] && v.giving == []
  }

  // A stored handle waits for something, and a reader that goes on finds it.
  ghost predicate Wakeful(t: Status, queued: bool, held: bool) {
    && (t.abandoned <==> t.phase.Unlocked? || t.phase.Gone?)
    && (t.phase.Gone? ==> !t.hasBg && !t.hasCb)
    && (t.waiter ==> !queued && !t.stopped)
    && (t.abandoned ==> !queued && !t.waiter)
    && (!t.phase.Using? ==> !held)
    && (t.phase.Using? ==> (t.reader.Sleeping? <==> t.waiter))
    && (t.phase.Using? && t.reader.Resuming? ==> queued || t.stopped)
  }

  ghost predicate Awake(v: View) {
    Wakeful(v.st, v.queue != [], v.pending != [] || v.hand != [])
  }

  ghost predicate Flagged(v: View) {
    EndsOnce(v.posted, v.st) && Disposal(v.st, Busy(v)) && Unstarted(v) && Awake(v)
  }

  ghost predicate Inv(v: View) {
    Owned(v) && Fitting(v) && (v.st.phase.Using? ==> Intact(v)) && Flagged(v)
  }

  // The group's buffers, some of them with connections already there.
  ghost predicate Begins(n: nat, bufSize: nat, ring: seq<nat>, memory: seq<Bytes>, others: multiset<nat>) {
    && |memory| == n && (forall b | 0 <= b < n :: |memory[b]| == bufSize)
    && multiset(ring) + others == multiset(Upto(n))
  }

  lemma InitInv(n: nat, bufSize: nat, ring: seq<nat>, memory: seq<Bytes>, others: multiset<nat>)
    requires Begins(n, bufSize, ring, memory, others)
    ensures Inv(Init(n, bufSize, ring, memory, others))
  {
    BidsNone();
  }

  // ---- ownership is kept -----------------------------------------------------------------

  lemma OwnedPostData(v: View, bytes: Bytes, more: bool)
    requires Owned(v) && Takes(v, PostData(bytes, more))
    ensures Owned(StepPostData(v, bytes, more))
  {
    var c := Chunk(|bytes|, Flags(v.ring[0], more));
    FlagsCarry(v.ring[0], more, |bytes|);
    BidsOne(c);
    BidsAppend(v.posted, [c]);
    PartitionPost(v.n, v.ring, Bids(v.posted), Bids(v.queue), Away(v), Bids(v.hand), v.others);
  }

  lemma PartitionPost(n: nat, ring: seq<nat>, posted: seq<nat>, queued: seq<nat>, away: multiset<nat>, hand: seq<nat>,
                      others: multiset<nat>)
    requires Partition(n, ring, posted, queued, away, hand, others) && ring != []
    ensures Partition(n, ring[1..], posted + [ring[0]], queued, away, hand, others)
    ensures Partition(n, ring[1..], posted, queued, away, hand, others + multiset{ring[0]})
  {
    assert ring == [ring[0]] + ring[1..];
  }

  lemma PartitionHandle(n: nat, ring: seq<nat>, x: seq<nat>, rest: seq<nat>, queued: seq<nat>,
                        away: multiset<nat>, hand: seq<nat>, others: multiset<nat>)
    requires Partition(n, ring, x + rest, queued, away, hand, others)
    ensures Partition(n, ring, rest, queued + x, away, hand, others)
    ensures Partition(n, ring, rest, queued, away + multiset(x), hand, others)
  {
  }

  lemma PartitionTake(n: nat, ring: seq<nat>, posted: seq<nat>, x: seq<nat>, rest: seq<nat>,
                      away: multiset<nat>, hand: seq<nat>, others: multiset<nat>)
    requires Partition(n, ring, posted, x + rest, away, hand, others)
    ensures Partition(n, ring, posted, rest, away, hand + x, others)
    ensures Partition(n, ring, posted, rest, away + multiset(x), hand, others)
  {
  }

  lemma PartitionAway(n: nat, ring: seq<nat>, posted: seq<nat>, queued: seq<nat>, away: multiset<nat>, x: seq<nat>,
                      rest: seq<nat>, others: multiset<nat>)
    requires Partition(n, ring, posted, queued, away, x + rest, others)
    ensures Partition(n, ring, posted, queued, away + multiset(x), rest, others)
  {
  }

  lemma OwnedHandle(v: View)
    requires Owned(v) && v.posted != []
    ensures Owned(StepHandle(v))
  {
    hide Partition, Bids, Terminal, HandleStatus;
    var c := v.posted[0];
    BidsPop(v.posted);
    BidsAppend(v.queue, [c]);
    PartitionHandle(v.n, v.ring, Bids([c]), Bids(v.posted[1..]), Bids(v.queue), Away(v), Bids(v.hand), v.others);
    AwayHandled(v);
  }

  lemma AwayHandled(v: View)
    requires v.posted != []
    ensures Away(StepHandle(v)) == if v.st.abandoned then Away(v) + multiset(Bids([v.posted[0]])) else Away(v)
  {
    hide Bids, Terminal;
  }

  lemma TakeIs(v: View)
    ensures v.queue == [] ==> StepTake(v) == v.(st := v.st.(reader := Running))
    ensures v.queue != [] ==> StepTake(v) == v.(st := v.st.(reader := Running), hand := v.hand + [v.queue[0]],
                                                queue := v.queue[1..])
  {
    assert v.hand + [] == v.hand && v.queue[0..] == v.queue;
    assert v.queue != [] ==> v.queue[..1] == [v.queue[0]];
  }

  lemma OwnedTake(v: View)
    requires Owned(v)
    ensures Owned(StepTake(v))
  {
    hide Partition, Bids, StepTake;
    TakeIs(v);
    if v.queue != [] {
      var c := v.queue[0];
      BidsPop(v.queue);
      BidsAppend(v.hand, [c]);
      PartitionTake(v.n, v.ring, Bids(v.posted), Bids([c]), Bids(v.queue[1..]), Away(v), Bids(v.hand), v.others);
    }
  }

  lemma OwnedDrain(v: View)
    requires Owned(v) && v.queue != []
    ensures Owned(StepDrain(v))
  {
    hide Partition, Bids;
    var c := v.queue[0];
    BidsPop(v.queue);
    PartitionTake(v.n, v.ring, Bids(v.posted), Bids([c]), Bids(v.queue[1..]), Away(v), Bids(v.hand), v.others);
    assert Away(StepDrain(v)) == Away(v) + multiset(Bids([c]));
  }

  lemma OwnedPostEnd(v: View, res: int)
    requires Owned(v) && res <= 0
    ensures Owned(StepPostEnd(v, res))
  {
    hide Partition, Bids;
    BidsOne(Chunk(res, 0));
    BidsAppend(v.posted, [Chunk(res, 0)]);
    assert Bids(v.posted) + [] == Bids(v.posted);
  }

  lemma OwnedAppend(v: View)
    requires Owned(v) && v.hand != []
    ensures Owned(StepAppend(v))
  {
    hide Partition, Bids, BytesOf;
    var c := v.hand[0];
    BidsPop(v.hand);
    PartitionAway(v.n, v.ring, Bids(v.posted), Bids(v.queue), Away(v), Bids([c]), Bids(v.hand[1..]), v.others);
    assert Away(StepAppend(v)) == Away(v) + multiset(Bids([c]));
  }

  lemma OwnedGive(v: View, m: Move)
    requires Owned(v) && MayMove(v, m) && (m.GivePending? || m.GiveHand?)
    ensures Owned(StepMove(v, m))
  {
    hide Partition, Bids, Payload;
    BidsNone();
    var w := StepMove(v, m);
    if m.GivePending? {
      assert Away(w) == Away(v);
    } else {
      assert Bids(v.hand) + [] == Bids(v.hand);
      PartitionAway(v.n, v.ring, Bids(v.posted), Bids(v.queue), Away(v), Bids(v.hand), [], v.others);
      assert Away(w) == Away(v) + multiset(Bids(v.hand));
    }
  }

  lemma PartitionReturn(n: nat, ring: seq<nat>, posted: seq<nat>, queued: seq<nat>, away: multiset<nat>, hand: seq<nat>,
                        others: multiset<nat>, bids: seq<nat>)
    requires Partition(n, ring, posted, queued, away, hand, others)
    ensures multiset(bids) <= others ==> Partition(n, ring + bids, posted, queued, away, hand, others - multiset(bids))
    ensures multiset(bids) <= away ==> Partition(n, ring + bids, posted, queued, away - multiset(bids), hand, others)
  {
    assert multiset(ring + bids) == multiset(ring) + multiset(bids);
  }

  lemma OwnedPublish(v: View)
    requires Owned(v)
    ensures Owned(v.(ring := v.ring + v.giving, giving := []))
  {
    hide Partition, Bids;
    PartitionReturn(v.n, v.ring, Bids(v.posted), Bids(v.queue), Away(v), Bids(v.hand), v.others, v.giving);
    assert Away(v.(ring := v.ring + v.giving, giving := [])) == Away(v) - multiset(v.giving);
  }

  lemma OwnedOtherTakes(v: View, bytes: Bytes)
    requires Owned(v) && CanReceive(v, bytes)
    ensures Owned(StepOtherTakes(v, bytes))
  {
    hide Bids, Filled, Partition;
    PartitionPost(v.n, v.ring, Bids(v.posted), Bids(v.queue), Away(v), Bids(v.hand), v.others);
  }

  lemma OwnedOtherReturns(v: View, bids: seq<nat>)
    requires Owned(v) && multiset(bids) <= v.others
    ensures Owned(v.(ring := v.ring + bids, others := v.others - multiset(bids)))
  {
    hide Bids, Partition;
    PartitionReturn(v.n, v.ring, Bids(v.posted), Bids(v.queue), Away(v), Bids(v.hand), v.others, bids);
  }

  lemma OwnedConsume(v: View, count: nat)
    requires Owned(v)
    ensures Owned(StepConsume(v, count))
  {
    hide Bids, Partition;
  }

  lemma OwnedSame(v: View, m: Mark)
    requires Owned(v)
    ensures Owned(StepMark(v, m))
  {
    hide Bids, Partition, MarkStatus;
  }

  lemma MoveOwned(v: View, m: Move)
    requires Owned(v) && MayMove(v, m)
    ensures Owned(StepMove(v, m))
  {
    hide Owned, Bids, Filled, StepAppend, StepConsume, StepOtherTakes;
    match m
    case Append => OwnedAppend(v);
    case Consume(count) => OwnedConsume(v, count);
    case GivePending => OwnedGive(v, m);
    case GiveHand => OwnedGive(v, m);
    case Publish => OwnedPublish(v);
    case OtherTakes(bytes) => OwnedOtherTakes(v, bytes);
    case OtherReturns(bids) => OwnedOtherReturns(v, bids);
  }

  lemma StepOwned(v: View, e: Event)
    requires Owned(v) && Takes(v, e)
    ensures Owned(Step(v, e))
  {
    hide Owned, Bids, StepMark, StepMove, StepPostData, StepHandle, StepTake, StepDrain;
    match e
    case PostData(bytes, more) => OwnedPostData(v, bytes, more);
    case PostEnd(res) => OwnedPostEnd(v, res);
    case Handle => OwnedHandle(v);
    case Take => OwnedTake(v);
    case Drain => OwnedDrain(v);
    case Marks(m) => OwnedSame(v, m);
    case Moves(m) => MoveOwned(v, m);
  }

  lemma FittingPostData(v: View, bytes: Bytes, more: bool)
    requires Fitting(v) && Takes(v, PostData(bytes, more))
    ensures Fitting(StepPostData(v, bytes, more)) && StepPostData(v, bytes, more).n == v.n
  {
    hide Flags;
  }

  lemma MoveFitting(v: View, m: Move)
    requires Fitting(v) && MayMove(v, m)
    ensures Fitting(StepMove(v, m))
  {
    hide Payload, Bids, BytesOf, Fitting, Filled, StepAppend, StepOtherTakes;
    match m
    case Append => FittingAppend(v);
    case OtherTakes(bytes) => FittingOtherTakes(v, bytes);
    case GiveHand => FittingHand(v);
    case Consume(_) => FittingSame(v, StepMove(v, m));
    case GivePending => FittingSame(v, StepMove(v, m));
    case Publish => FittingSame(v, StepMove(v, m));
    case OtherReturns(_) => FittingSame(v, StepMove(v, m));
  }

  lemma StepFitting(v: View, e: Event)
    requires Fitting(v) && Takes(v, e)
    ensures Fitting(Step(v, e))
  {
    hide Bids, Fitting, MarkStatus, StepMove, StepPostData, StepHandle, StepTake, StepDrain;
    match e
    case PostData(bytes, more) => FittingPostData(v, bytes, more);
    case PostEnd(res) => FittingPostEnd(v, res);
    case Handle => FittingHandle(v);
    case Take => FittingTake(v);
    case Drain => FittingDrain(v);
    case Marks(m) => FittingSame(v, StepMark(v, m));
    case Moves(m) => MoveFitting(v, m);
  }

  lemma FittingSame(v: View, w: View)
    requires Fitting(v) && w.n == v.n && w.bufSize == v.bufSize && w.memory == v.memory
    requires w.posted == v.posted && w.queue == v.queue && w.hand == v.hand
    ensures Fitting(w)
  {
  }

  lemma FittingPostEnd(v: View, res: int)
    requires Fitting(v) && res <= 0
    ensures Fitting(StepPostEnd(v, res))
  {
  }

  lemma FittingDrain(v: View)
    requires Fitting(v) && v.queue != []
    ensures Fitting(StepDrain(v))
  {
    hide Bids;
  }

  lemma FittingHand(v: View)
    requires Fitting(v) && MayMove(v, GiveHand)
    ensures Fitting(StepMove(v, GiveHand))
  {
    hide Bids, Payload;
  }

  lemma FittingOtherTakes(v: View, bytes: Bytes)
    requires Fitting(v) && CanReceive(v, bytes)
    ensures Fitting(StepOtherTakes(v, bytes))
  {
  }

  lemma SizedMove(a: seq<Chunk>, b: seq<Chunk>, bufSize: nat)
    requires Sized(a, bufSize) && Sized(b, bufSize) && a != []
    ensures Sized(a[1..], bufSize) && Sized(b + [a[0]], bufSize)
  {
  }

  lemma FittingHandle(v: View)
    requires Fitting(v) && v.posted != []
    ensures Fitting(StepHandle(v))
  {
    hide Bids, Sized, Terminal;
    SizedMove(v.posted, v.queue, v.bufSize);
  }

  lemma FittingAppend(v: View)
    requires Fitting(v) && v.hand != []
    ensures Fitting(StepAppend(v))
  {
    hide Bids, BytesOf, Sized;
    SizedMove(v.hand, v.hand, v.bufSize);
  }

  lemma FittingTake(v: View)
    requires Fitting(v)
    ensures Fitting(StepTake(v))
  {
    hide Sized, StepTake;
    TakeIs(v);
    if |v.queue| > 0 {
      SizedMove(v.queue, v.hand, v.bufSize);
    }
  }

  // ---- the bytes are kept ------------------------------------------------------------------

  lemma IntactPostData(v: View, bytes: Bytes, more: bool)
    requires Owned(v) && Fitting(v) && Intact(v) && Takes(v, PostData(bytes, more))
    ensures Intact(StepPostData(v, bytes, more))
  {
    var bid := v.ring[0];
    var c := Chunk(|bytes|, Flags(bid, more));
    var data := Filled(v.memory[bid], bytes);
    var memory := v.memory[bid := data];
    PartitionFacts(v.n, v.ring, Bids(v.posted), Bids(v.queue), Away(v), Bids(v.hand), v.others);
    PayloadKept(v.memory, v.hand, bid, data);
    PayloadKept(v.memory, v.queue, bid, data);
    PayloadKept(v.memory, v.posted, bid, data);
    FlagsCarry(bid, more, |bytes|);
    assert BytesOf(memory, c) == bytes;
    PayloadAppend(memory, v.posted, c);
    Assoc(v.consumed + v.reasm + Payload(memory, v.hand) + Payload(memory, v.queue), Payload(memory, v.posted), bytes);
  }

  lemma IntactHandle(v: View)
    requires Intact(v) && Takes(v, Handle) && !v.st.abandoned
    ensures Intact(StepHandle(v))
  {
    var c, m := v.posted[0], v.memory;
    PayloadAppend(m, v.queue, c);
    var front := v.consumed + v.reasm + Payload(m, v.hand);
    Assoc(front, Payload(m, v.queue), BytesOf(m, c));
    Assoc(front + Payload(m, v.queue), BytesOf(m, c), Payload(m, v.posted[1..]));
  }

  lemma IntactTake(v: View)
    requires Intact(v)
    ensures Intact(StepTake(v))
  {
    hide StepTake;
    TakeIs(v);
    if v.queue != [] {
      var c, m := v.queue[0], v.memory;
      PayloadAppend(m, v.hand, c);
      var front := v.consumed + v.reasm;
      Assoc(front, Payload(m, v.hand), BytesOf(m, c));
      Assoc(front + Payload(m, v.hand), BytesOf(m, c), Payload(m, v.queue[1..]));
    }
  }

  lemma IntactAppend(v: View)
    requires Intact(v) && v.hand != []
    ensures Intact(StepAppend(v))
  {
    var c, m := v.hand[0], v.memory;
    Assoc(v.consumed, v.reasm, BytesOf(m, c));
    Assoc(v.consumed + v.reasm, BytesOf(m, c), Payload(m, v.hand[1..]));
  }

  lemma IntactConsume(v: View, count: nat)
    requires Intact(v)
    ensures Intact(StepConsume(v, count))
  {
    var m := Min(count, |v.reasm|);
    assert v.reasm == v.reasm[..m] + v.reasm[m..];
    Assoc(v.consumed, v.reasm[..m], v.reasm[m..]);
  }

  lemma IntactHand(v: View)
    requires Intact(v) && MayMove(v, GiveHand)
    ensures Intact(StepMove(v, GiveHand))
  {
    assert v.consumed + v.reasm == v.consumed;
    var c := v.consumed + Payload(v.memory, v.hand);
    assert c + [] == c && c + [] + [] == c;
  }

  lemma IntactPostEnd(v: View, res: int)
    requires Intact(v) && res <= 0
    ensures Intact(StepPostEnd(v, res))
  {
    PayloadAppend(v.memory, v.posted, Chunk(res, 0));
  }

  lemma IntactElsewhere(v: View, bytes: Bytes)
    requires Owned(v) && Fitting(v) && Intact(v) && CanReceive(v, bytes)
    ensures Intact(StepOtherTakes(v, bytes))
  {
    var bid := v.ring[0];
    var data := Filled(v.memory[bid], bytes);
    PartitionFacts(v.n, v.ring, Bids(v.posted), Bids(v.queue), Away(v), Bids(v.hand), v.others);
    PayloadKept(v.memory, v.hand, bid, data);
    PayloadKept(v.memory, v.queue, bid, data);
    PayloadKept(v.memory, v.posted, bid, data);
  }

  lemma MoveIntact(v: View, m: Move)
    requires Owned(v) && Fitting(v) && Intact(v) && MayMove(v, m)
    ensures Intact(StepMove(v, m))
  {
    hide Intact, Owned, Fitting, Bids, Payload, StepAppend, StepConsume, StepOtherTakes;
    match m
    case Append => IntactAppend(v);
    case Consume(count) => IntactConsume(v, count);
    case GiveHand => IntactHand(v);
    case OtherTakes(bytes) => IntactElsewhere(v, bytes);
    case OtherReturns(_) => IntactSame(v, StepMove(v, m));
    case GivePending => IntactSame(v, StepMove(v, m));
    case Publish => IntactSame(v, StepMove(v, m));
  }

  lemma StepIntact(v: View, e: Event)
    requires Owned(v) && Fitting(v) && Intact(v) && Awake(v) && v.st.phase.Using? && Takes(v, e)
    ensures Intact(Step(v, e))
  {
    hide Intact, Owned, Fitting, MarkStatus, StepMove, StepPostData, StepHandle, StepTake, StepDrain;
    match e
    case PostData(bytes, more) => IntactPostData(v, bytes, more);
    case PostEnd(res) => IntactPostEnd(v, res);
    case Handle => IntactHandle(v);
    case Take => IntactTake(v);
    case Drain => assert false;
    case Marks(m) => IntactSame(v, StepMark(v, m));
    case Moves(m) => MoveIntact(v, m);
  }

  lemma IntactSame(v: View, w: View)
    requires Intact(v) && w.received == v.received && w.consumed == v.consumed && w.reasm == v.reasm
    requires w.memory == v.memory && w.hand == v.hand && w.queue == v.queue && w.posted == v.posted
    ensures Intact(w)
  {
  }

  // ---- the flags ----------------------------------------------------------------------------

  lemma EndsPosted(posted: seq<Chunk>, t: Status, c: Chunk)
    requires EndsOnce(posted, t) && t.armed
    ensures EndsOnce(posted + [c], t.(armed := !Terminal(c)))
  {
    hide Terminal;
    assert forall i | 0 <= i < |posted| :: !Terminal(posted[i]) && (posted + [c])[i] == posted[i];
  }

  lemma EndsHandled(posted: seq<Chunk>, t: Status)
    requires EndsOnce(posted, t) && posted != []
    ensures EndsOnce(posted[1..], HandleStatus(t, Terminal(posted[0])))
  {
    hide Terminal;
    var rest := posted[1..];
    assert forall i | 0 <= i < |rest| :: rest[i] == posted[i + 1];
  }

  lemma EndsMarked(v: View, m: Mark)
    requires Flagged(v) && MayMark(v, m)
    ensures EndsOnce(v.posted, StepMark(v, m).st)
  {
    hide Terminal;
    match m
    case Start(_) => assert v.posted == [] && !v.st.stopped && !v.st.lateEnd;
    case _ =>
  }

  lemma StepEnds(v: View, e: Event)
    requires Flagged(v) && Takes(v, e)
    ensures EndsOnce(Step(v, e).posted, Step(v, e).st)
  {
    hide EndsOnce, Disposal, Unstarted, Awake, Flags, More, Filled, StepMove, HandleStatus, MarkStatus;
    match e
    case PostData(bytes, more) =>
      FlagsCarry(v.ring[0], more, |bytes|);
      EndsPosted(v.posted, v.st, Chunk(|bytes|, Flags(v.ring[0], more)));
    case PostEnd(res) => EndsPosted(v.posted, v.st, Chunk(res, 0));
    case Handle => EndsHandled(v.posted, v.st);
    case Take => EndsOf(v.posted, v.st, Step(v, e).st);
    case Drain =>
    case Marks(m) => EndsMarked(v, m);
    case Moves(m) =>
  }

  lemma EndsOf(posted: seq<Chunk>, t: Status, u: Status)
    requires EndsOnce(posted, t) && u == t.(reader := u.reader)
    ensures EndsOnce(posted, u)
  {
    hide Terminal;
  }

  lemma DisposalHandled(v: View)
    requires Flagged(v) && Takes(v, Handle)
    ensures Disposal(StepHandle(v).st, Busy(StepHandle(v))) && Unstarted(StepHandle(v))
  {
    hide Bids;
    assert |v.posted| > 1 ==> !Terminal(v.posted[0]);
    assert |v.posted| == 1 && !Terminal(v.posted[0]) ==> v.st.armed;
    hide Terminal, EndsOnce;
  }

  lemma StepDisposal(v: View, e: Event)
    requires Flagged(v) && Takes(v, e)
    ensures Disposal(Step(v, e).st, Busy(Step(v, e))) && Unstarted(Step(v, e))
  {
    hide EndsOnce, Awake, Terminal, Bids, Flags, Filled, StepMove, HandleStatus, MarkStatus;
    match e
    case PostData(_, _) =>
    case PostEnd(_) =>
    case Handle => DisposalHandled(v);
    case Take =>
    case Drain =>
    case Marks(m) => DisposalMarked(v, m);
    case Moves(m) =>
      if !v.st.hasBg && !v.st.abandoned {
        NothingGiven(v, m);
      }
  }

  lemma NothingGiven(v: View, m: Move)
    requires v.hand == [] && v.pending == [] && v.giving == [] && MayMove(v, m)
    ensures StepMove(v, m).giving == []
  {
    hide BytesOf, Filled, Payload, Bids;
    BidsNone();
    match m
    case GivePending =>
    case GiveHand =>
    case _ =>
  }

  lemma DisposalMarked(v: View, m: Mark)
    requires Flagged(v) && MayMark(v, m)
    ensures Disposal(StepMark(v, m).st, Busy(StepMark(v, m))) && Unstarted(StepMark(v, m))
  {
    hide EndsOnce;
    match m
    case Start(_) =>
    case Ask =>
    case Suspend =>
    case Dispose =>
    case Lock =>
    case Abandon =>
    case Detach =>
    case Again =>
  }

  lemma WakefulMarked(v: View, m: Mark)
    requires Awake(v) && Unstarted(v) && MayMark(v, m)
    ensures Awake(StepMark(v, m))
  {
    match m
    case Start(_) =>
    case Ask =>
    case Suspend =>
    case Dispose =>
    case Lock =>
    case Abandon =>
    case Detach =>
    case Again =>
  }

  lemma WakefulHandled(v: View)
    requires Awake(v) && Takes(v, Handle)
    ensures Awake(StepHandle(v))
  {
    hide Terminal, Bids;
  }

  lemma StepWakeful(v: View, e: Event)
    requires Awake(v) && Unstarted(v) && Takes(v, e)
    ensures Awake(Step(v, e))
  {
    hide Unstarted, StepMove, MarkStatus, StepHandle, Bids, Flags, Filled;
    match e
    case PostData(_, _) =>
    case PostEnd(_) =>
    case Handle => WakefulHandled(v);
    case Take =>
    case Drain =>
    case Marks(m) => WakefulMarked(v, m);
    case Moves(m) =>
  }

  lemma StepFlags(v: View, e: Event)
    requires Flagged(v) && Takes(v, e)
    ensures Flagged(Step(v, e))
  {
    StepEnds(v, e);
    StepDisposal(v, e);
    StepWakeful(v, e);
  }

  lemma StepInv(v: View, e: Event)
    requires Inv(v)
    ensures Inv(Apply(v, e)) && Apply(v, e).n == v.n
  {
    hide Owned, Fitting, Intact, Flagged, Step, Takes;
    if Takes(v, e) {
      StepOwned(v, e);
      StepFitting(v, e);
      StepFlags(v, e);
      StepSize(v, e);
      if Step(v, e).st.phase.Using? {
        assert Awake(v) by { FlaggedIsAwake(v); }
        StepIntact(v, e);
      }
    }
  }

  lemma FlaggedIsAwake(v: View)
    requires Flagged(v)
    ensures Awake(v)
  {
    hide Awake, EndsOnce, Disposal, Unstarted;
  }

  // The group keeps its size, and cleanup is not undone.
  lemma StepSize(v: View, e: Event)
    requires Takes(v, e)
    ensures Step(v, e).n == v.n && (Step(v, e).st.phase.Using? ==> v.st.phase.Using?)
  {
    hide StepMove, HandleStatus, MarkStatus, Bids, Flags, Filled, Terminal;
    match e
    case PostData(_, _) =>
    case PostEnd(_) =>
    case Handle => HandlePhase(v.st, Terminal(v.posted[0]));
    case Take =>
    case Drain =>
    case Marks(m) => MarkPhase(v.st, |v.queue| > 0 || v.st.stopped, m);
    case Moves(m) =>
  }

  lemma HandlePhase(t: Status, end: bool)
    ensures HandleStatus(t, end).phase == t.phase
  {
  }

  lemma MarkPhase(t: Status, ready: bool, m: Mark)
    ensures MarkStatus(t, ready, m).phase
            == if m.Lock? then Draining else if m.Abandon? then Unlocked else if m.Detach? then Gone else t.phase
  {
  }

  ghost function Exec(v: View, es: seq<Event>): (v': View)
    requires Inv(v)
    ensures Inv(v') && v'.n == v.n
    decreases |es|
  {
    if es == [] then v
    else
      StepInv(v, es[0]);
      Exec(Apply(v, es[0]), es[1..])
  }

  // ---- what holds in every run ---------------------------------------------------------------

  ghost function Run(n: nat, bufSize: nat, ring: seq<nat>, memory: seq<Bytes>, others: multiset<nat>,
                     es: seq<Event>): (v: View)
    requires Begins(n, bufSize, ring, memory, others)
    ensures Inv(v) && v.n == n
  {
    InitInv(n, bufSize, ring, memory, others);
    Exec(Init(n, bufSize, ring, memory, others), es)
  }

  lemma Exec1(v: View, es: seq<Event>)
    requires Inv(v) && es != []
    ensures Inv(Apply(v, es[0])) && Exec(v, es) == Exec(Apply(v, es[0]), es[1..])
  {
    hide Inv, Apply;
    StepInv(v, es[0]);
  }

  lemma {:induction false} ExecAppend(v: View, a: seq<Event>, b: seq<Event>)
    requires Inv(v)
    ensures Exec(v, a + b) == Exec(Exec(v, a), b)
    decreases |a|
  {
    hide Inv, Apply;
    if a == [] {
      assert a + b == b;
    } else {
      StepInv(v, a[0]);
      assert (a + b)[1..] == a[1..] + b;
      ExecAppend(Apply(v, a[0]), a[1..], b);
    }
  }

  // A completion with data is handled after a second cleanup has stored a null
  // buffer group.
  ghost predicate Wasted(v: View, es: seq<Event>, again: bool)
    decreases |es|
  {
    && es != []
    && (|| (again && es[0].Handle? && Takes(v, es[0]) && v.posted[0].res > 0)
        || Wasted(Apply(v, es[0]), es[1..], again || SecondCleanup(v, es[0])))
  }

  predicate SecondCleanup(v: View, e: Event) {
    e == Marks(Again) && v.st.phase.Gone?
  }

  ghost predicate Remembers(v: View, again: bool) {
    && (again ==> v.st.phase.Gone?)
    && (v.st.abandoned && (v.st.armed || v.posted != []) ==> (v.st.stateBg <==> !again))
  }

  lemma StepRemembers(v: View, e: Event, again: bool)
    requires Inv(v) && Remembers(v, again) && Takes(v, e)
    ensures Remembers(Step(v, e), again || SecondCleanup(v, e))
    ensures e.Handle? || Step(v, e).lost == v.lost
  {
    hide Owned, Fitting, Intact, EndsOnce, StepMove, Flags, Filled, Terminal, Bids;
  }

  lemma LostByHandler(v: View, again: bool)
    requires Inv(v) && Remembers(v, again) && Takes(v, Handle)
    ensures StepHandle(v).lost != [] <==> v.lost != [] || (again && v.posted[0].res > 0)
  {
    hide Owned, Fitting, Intact, EndsOnce, Bids, Terminal;
    BidsOne(v.posted[0]);
  }

  lemma {:induction false} LostBy(v: View, es: seq<Event>, again: bool)
    requires Inv(v) && Remembers(v, again)
    ensures Exec(v, es).lost != [] <==> v.lost != [] || Wasted(v, es, again)
    decreases |es|
  {
    hide Inv, Remembers, Step, Takes, StepHandle;
    if es != [] {
      var e := es[0];
      StepInv(v, e);
      if Takes(v, e) {
        StepRemembers(v, e, again);
        if e.Handle? {
          assert Takes(v, Handle);
          LostByHandler(v, again);
          IsHandle(v);
        }
        LostBy(Apply(v, e), es[1..], again || SecondCleanup(v, e));
      } else {
        NoSecond(v, e);
        LostBy(v, es[1..], again);
      }
    }
  }

  lemma NoSecond(v: View, e: Event)
    requires !Takes(v, e)
    ensures !SecondCleanup(v, e)
  {
  }

  lemma IsHandle(v: View)
    requires Takes(v, Handle)
    ensures v.posted != [] && Step(v, Handle) == StepHandle(v)
  {
    hide StepHandle;
  }

  // After cleanup every buffer is in the ring, with another connection, or still
  // on its way through the abandoned handler; and in the end all the connection
  // had is back in the ring exactly when no data was handled after a second
  // cleanup.
  lemma AllReturned(n: nat, bufSize: nat, ring: seq<nat>, memory: seq<Bytes>, others: multiset<nat>, es: seq<Event>)
    requires Begins(n, bufSize, ring, memory, others)
    ensures var v := Run(n, bufSize, ring, memory, others, es);
            v.st.abandoned ==>
              multiset(v.ring) + multiset(Bids(v.posted)) + multiset(v.giving) + multiset(v.lost) + v.others
              == multiset(Upto(n))
    ensures var v := Run(n, bufSize, ring, memory, others, es);
            v.st.abandoned && v.posted == [] && v.giving == [] ==>
              (multiset(v.ring) + v.others == multiset(Upto(n))
               <==> !Wasted(Init(n, bufSize, ring, memory, others), es, false))
  {
    hide Begins, Run, Remembers, Wasted, Inv, Init, Exec, Bids;
    var start, v := Init(n, bufSize, ring, memory, others), Run(n, bufSize, ring, memory, others, es);
    InitInv(n, bufSize, ring, memory, others);
    InitRemembers(n, bufSize, ring, memory, others);
    LostBy(start, es, false);
    RunIs(n, bufSize, ring, memory, others, es);
    if v.st.abandoned {
      AllBack(v);
    }
  }

  lemma InitRemembers(n: nat, bufSize: nat, ring: seq<nat>, memory: seq<Bytes>, others: multiset<nat>)
    ensures Remembers(Init(n, bufSize, ring, memory, others), false)
    ensures Init(n, bufSize, ring, memory, others).lost == []
  {
  }

  lemma RunIs(n: nat, bufSize: nat, ring: seq<nat>, memory: seq<Bytes>, others: multiset<nat>, es: seq<Event>)
    requires Begins(n, bufSize, ring, memory, others) && Inv(Init(n, bufSize, ring, memory, others))
    ensures Run(n, bufSize, ring, memory, others, es) == Exec(Init(n, bufSize, ring, memory, others), es)
  {
    hide Begins, Exec, Init, Inv;
  }

  lemma AllBack(v: View)
    requires Inv(v) && v.st.abandoned
    ensures multiset(v.ring) + multiset(Bids(v.posted)) + multiset(v.giving) + multiset(v.lost) + v.others
            == multiset(Upto(v.n))
    ensures v.posted == [] && v.giving == [] ==>
              (multiset(v.ring) + v.others == multiset(Upto(v.n)) <==> v.lost == [])
  {
    hide Fitting, Intact, EndsOnce, Disposal, Unstarted;
    BidsNone();
    var back := multiset(v.ring) + v.others;
    assert v.posted == [] && v.giving == [] ==> |back + multiset(v.lost)| == |back| + |v.lost|;
  }

  // m_dispose is set at most once, for the terminal completion handled after
  // cleanup.
  lemma DisposedOnce(n: nat, bufSize: nat, ring: seq<nat>, memory: seq<Bytes>, others: multiset<nat>, es: seq<Event>,
                     e: Event)
    requires Begins(n, bufSize, ring, memory, others)
    ensures var v := Run(n, bufSize, ring, memory, others, es);
            && v.st.disposed + (if v.st.disposing then 1 else 0) <= 1
            && (Apply(v, e).st.disposing && !v.st.disposing
                <==> e.Handle? && Takes(v, e) && v.st.abandoned && Terminal(v.posted[0]))
  {
    hide Begins, Owned, Fitting, Intact, Run, Terminal;
    var v := Run(n, bufSize, ring, memory, others, es);
    DisposalFacts(v);
    DisposedBy(v, e);
  }

  lemma DisposalFacts(v: View)
    requires Inv(v)
    ensures v.st.disposed + (if v.st.disposing then 1 else 0) <= 1
    ensures v.st.abandoned && v.posted != [] ==> v.st.ownerCb
  {
    hide Owned, Fitting, Intact, EndsOnce, Awake, Unstarted;
  }

  lemma DisposedBy(v: View, e: Event)
    ensures Apply(v, e).st.disposing && !v.st.disposing
            <==> e.Handle? && Takes(v, e) && v.st.abandoned && Terminal(v.posted[0]) && v.st.ownerCb && !v.st.disposing
  {
    hide Terminal, StepMove, StepHandle, MarkStatus, Bids, Flags, Filled;
    if Takes(v, e) {
      match e
      case PostData(_, _) =>
      case PostEnd(_) =>
      case Handle => HandleDisposes(v);
      case Take =>
      case Drain =>
      case Marks(m) => MarkDisposes(v.st, |v.queue| > 0 || v.st.stopped, m);
      case Moves(m) =>
    }
  }

  lemma MarkDisposes(t: Status, ready: bool, m: Mark)
    ensures MarkStatus(t, ready, m).disposing == (t.disposing && !m.Dispose?)
  {
    match m
    case Start(_) =>
    case Ask =>
    case Suspend =>
    case Dispose =>
    case Lock =>
    case Abandon =>
    case Detach =>
    case Again =>
  }

  lemma HandleDisposes(v: View)
    requires v.posted != []
    ensures StepHandle(v).st == HandleStatus(v.st, Terminal(v.posted[0]))
  {
    hide Terminal, Bids, HandleStatus;
  }

  // m_dispose is set while cleanup has unlocked but not yet let go of the callback.
  ghost predicate Raced(v: View, es: seq<Event>)
    decreases |es|
  {
    es != [] && (DisposedInside(v, es[0]) || Raced(Apply(v, es[0]), es[1..]))
  }

  predicate DisposedInside(v: View, e: Event) {
    v.st.phase.Unlocked? && e == Marks(Dispose) && Takes(v, e)
  }

  ghost predicate Knows(v: View, raced: bool) {
    && (v.st.phase.Using? || v.st.phase.Draining? ==> !raced)
    && (v.st.phase.Unlocked? ==> (raced <==> v.st.disposed > 0))
    && (v.st.phase.Gone? ==> (raced <==> v.st.lateUse))
  }

  lemma StepKnows(v: View, e: Event, raced: bool)
    requires Inv(v) && Knows(v, raced) && Takes(v, e)
    ensures Knows(Step(v, e), raced || DisposedInside(v, e))
  {
    hide Owned, Fitting, Intact, EndsOnce, StepMove, StepHandle, Flags, Filled, Terminal, Bids;
    match e
    case PostData(_, _) =>
    case PostEnd(_) =>
    case Handle => HandleDisposes(v);
    case Take =>
    case Drain =>
    case Marks(m) => MarkKnows(v, m, raced);
    case Moves(m) =>
  }

  lemma MarkKnows(v: View, m: Mark, raced: bool)
    requires Inv(v) && Knows(v, raced) && MayMark(v, m)
    ensures Knows(StepMark(v, m), raced || (v.st.phase.Unlocked? && m == Dispose))
  {
    hide Owned, Fitting, Intact, EndsOnce, Unstarted;
    match m
    case Start(_) =>
    case Ask =>
    case Suspend =>
    case Dispose =>
    case Lock =>
    case Abandon =>
    case Detach =>
    case Again =>
  }

  lemma {:induction false} KnowsAll(v: View, es: seq<Event>, raced: bool)
    requires Inv(v) && Knows(v, raced)
    ensures Knows(Exec(v, es), raced || Raced(v, es))
    decreases |es|
  {
    hide Inv, Knows, Step, Takes;
    if es != [] {
      var e := es[0];
      StepInv(v, e);
      if Takes(v, e) {
        StepKnows(v, e, raced);
        KnowsAll(Apply(v, e), es[1..], raced || DisposedInside(v, e));
      } else {
        KnowsAll(v, es[1..], raced);
      }
    }
  }

  // Cleanup writes to a callback already marked for deletion exactly when the
  // handler marks it between cleanup's unlocking and its last lines.
  lemma LateUseExactly(n: nat, bufSize: nat, ring: seq<nat>, memory: seq<Bytes>, others: multiset<nat>, es: seq<Event>)
    requires Begins(n, bufSize, ring, memory, others)
    ensures var v := Run(n, bufSize, ring, memory, others, es);
            v.st.phase.Gone? ==> (v.st.lateUse <==> Raced(Init(n, bufSize, ring, memory, others), es))
  {
    hide Begins, Run, Raced;
    var start := Init(n, bufSize, ring, memory, others);
    InitInv(n, bufSize, ring, memory, others);
    KnowsAll(start, es, false);
    RunIs(n, bufSize, ring, memory, others, es);
  }

  lemma FrontOf(front: Bytes, a: Bytes, b: Bytes, c: Bytes)
    ensures front <= front + a + b + c
    ensures a == b == c == [] ==> front + a + b + c == front
  {
  }

  // What the consumer assembles and consumes is what was received, in order,
  // whatever the other connections do with the ring: no buffer is overwritten
  // while someone still needs its bytes.
  lemma StreamIsKept(n: nat, bufSize: nat, ring: seq<nat>, memory: seq<Bytes>, others: multiset<nat>, es: seq<Event>)
    requires Begins(n, bufSize, ring, memory, others)
    ensures var v := Run(n, bufSize, ring, memory, others, es);
            v.st.phase.Using? ==> v.consumed + v.reasm <= v.received
    ensures var v := Run(n, bufSize, ring, memory, others, es);
            v.st.phase.Using? && v.hand == v.queue == v.posted == [] ==> v.consumed + v.reasm == v.received
  {
    hide Begins, Owned, Fitting, Flagged;
    var v := Run(n, bufSize, ring, memory, others, es);
    FrontOf(v.consumed + v.reasm, Payload(v.memory, v.hand), Payload(v.memory, v.queue), Payload(v.memory, v.posted));
  }

  // A stored handle waits for something: whenever data or the end is there to
  // take, nobody sleeps.
  lemma NobodySleepsOnData(n: nat, bufSize: nat, ring: seq<nat>, memory: seq<Bytes>, others: multiset<nat>,
                           es: seq<Event>)
    requires Begins(n, bufSize, ring, memory, others)
    ensures var v := Run(n, bufSize, ring, memory, others, es);
            v.st.phase.Using? && (v.st.reader.Sleeping? || v.st.waiter) ==>
              v.st.waiter && v.queue == [] && !v.st.stopped
  {
    hide Begins, Owned, Fitting, Intact, EndsOnce, Disposal;
  }

  // No false end: a reader about to take, because await_ready or await_suspend
  // saw something or the handler woke it, gets the oldest chunk, or the stream
  // has truly ended: nothing is armed or posted, and all that was received is
  // with the reader.
  lemma EndIsReal(n: nat, bufSize: nat, ring: seq<nat>, memory: seq<Bytes>, others: multiset<nat>, es: seq<Event>)
    requires Begins(n, bufSize, ring, memory, others)
    ensures var v := Run(n, bufSize, ring, memory, others, es);
            v.st.phase.Using? && v.st.reader.Resuming? && v.queue == [] ==>
              && !v.st.armed && v.posted == []
              && v.consumed + v.reasm + Payload(v.memory, v.hand) == v.received
  {
    hide Begins, Owned, Fitting;
    var v := Run(n, bufSize, ring, memory, others, es);
    var got := v.consumed + v.reasm + Payload(v.memory, v.hand);
    assert got + [] == got && got + [] + [] == got;
  }
}
