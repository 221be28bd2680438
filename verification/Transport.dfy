module Transport {
  // The actor transport: one outbound connection's write queue and its single
  // write loop, and the two byte loops below it, full writes over short ones and
  // whole frames over short reads.

  import opened Prelude
  import opened Framing

  const MAX_FRAME := 0x4_0000

  // ---- write_bytes and read_frame ---------------------------------------------

  // write_bytes over a socket that takes `writes[k]` bytes (at most what is
  // offered) at its k-th call: it sends exactly what the socket can take, from
  // the front, and succeeds exactly when that is everything.
  method WriteBytes(data: Bytes, writes: seq<IoResult>) returns (ok: bool, sent: Bytes)
    ensures sent == data[..Accepts(|data|, writes)]
    ensures ok <==> sent == data
  {
    sent := [];
    var k := 0;
    while |sent| < |data|
      invariant sent <= data
      invariant 0 <= k <= |writes|
      invariant |sent| + Accepts(|data| - |sent|, writes[k..]) == Accepts(|data|, writes)
      decreases |writes| - k
    {
      if k == |writes| || Fails(writes[k]) {
        return false, sent;
      }
      assert writes[k..][1..] == writes[k + 1..];
      var n := Min(writes[k].n, |data| - |sent|);
      sent := data[..|sent| + n];
      k := k + 1;
    }
    ok := true;
  }

  datatype FrameRead = NoFrame | Frame(bytes: Bytes)

  // A whole frame of an allowed size stands at position p.
  predicate FrameAt(stream: Bytes, p: nat) {
    && p + 4 <= |stream|
    && var n := DecodeLength(stream[p..p + 4]);
       1 <= n <= MAX_FRAME && p + 4 + n <= |stream|
  }

  // That is: the wire form of some allowed frame starts there.
  lemma FrameAtIs(stream: Bytes, p: nat)
    requires p <= |stream|
    ensures FrameAt(stream, p) <==> exists frame: Bytes :: 1 <= |frame| <= MAX_FRAME && Prefixed(frame) <= stream[p..]
  {
    hide FrameAt, Prefixed;
    if FrameAt(stream, p) {
      var frame := FrameThere(stream, p);
    }
    if frame: Bytes :| 1 <= |frame| <= MAX_FRAME && Prefixed(frame) <= stream[p..] {
      ThereIsFrame(stream, p, frame);
    }
  }

  lemma FrameThere(stream: Bytes, p: nat) returns (frame: Bytes)
    requires p <= |stream| && FrameAt(stream, p)
    ensures 1 <= |frame| <= MAX_FRAME && Prefixed(frame) <= stream[p..]
  {
    hide DecodeLength, EncodeLength;
    var head := stream[p..p + 4];
    var n := DecodeLength(head);
    frame := stream[p + 4..p + 4 + n];
    LengthUnique(head);
    assert stream[p..] == head + frame + stream[p + 4 + n..];
  }

  lemma ThereIsFrame(stream: Bytes, p: nat, frame: Bytes)
    requires p <= |stream| && 1 <= |frame| <= MAX_FRAME && Prefixed(frame) <= stream[p..]
    ensures FrameAt(stream, p)
  {
    hide DecodeLength, Prefixed;
    var s := stream[p..];
    var rest := s[|Prefixed(frame)|..];
    assert s == Prefixed(frame) + rest;
    PrefixedStarts(frame, rest);
    PrefixedSize(frame);
    assert s[..4] == stream[p..p + 4];
    SameLength(s[..4], s[4..]);
    assert s == s[..4] + s[4..];
  }

  lemma PrefixedSize(frame: Bytes)
    ensures |Prefixed(frame)| == 4 + |frame|
  {
  }

  lemma SameLength(s: Bytes, t: Bytes)
    requires |s| >= 4
    ensures DecodeLength(s + t) == DecodeLength(s)
  {
  }

  // A new connection works and has written all of nothing.
  lemma NewConnectionWorks(threads: nat)
    ensures Inv(Init(threads)) && Working(Init(threads)) && Quiet(Init(threads)) && Init(threads).accepted == []
  {
    InitInv(threads);
  }

  // A byte stream read with short reads: the k-th call yields at most script[k]
  // bytes; a zero, an error or the end of the script ends the connection.
  class Source {
    const stream: Bytes
    const script: seq<IoResult>
    var pos: nat
    var call: nat

    ghost predicate Valid()
      reads this
    {
      && pos <= |stream| && call <= |script|
      && (Broken() || call <= pos)
    }

    // Some call failed or read zero.
    ghost predicate Broken()
      requires call <= |script|
      reads this
    {
      exists k | 0 <= k < call :: Fails(script[k])
    }

    // The connection ended before the stream did.
    ghost predicate Cut()
      requires Valid()
      reads this
    {
      Broken() || (call == |script| && pos < |stream|)
    }

    constructor (stream: Bytes, script: seq<IoResult>)
      ensures Valid() && this.stream == stream && this.script == script && pos == call == 0
    {
      this.stream, this.script, pos, call := stream, script, 0, 0;
    }

    method Read(want: nat) returns (got: Option<Bytes>)
      requires Valid() && want > 0
      modifies this
      ensures Valid() && call >= old(call) && pos >= old(pos)
      ensures got.Some? ==> 0 < |got.value| <= want && call == old(call) + 1
                            && pos == old(pos) + |got.value| && got.value == stream[old(pos)..pos]
      ensures got.None? ==> pos == old(pos) && (Cut() || pos == |stream|)
    {
      var left := |stream| - pos;
      if left == 0 || call == |script| {
        return None;
      }
      var r := script[call];
      call := call + 1;
      if Fails(r) {
        return None;
      }
      var n := Min(Min(r.n, want), left);
      got := Some(stream[pos..pos + n]);
      pos := pos + n;
    }

    // The two offset loops of read_frame.
    method ReadExactly(want: nat) returns (got: Option<Bytes>)
      requires Valid()
      modifies this
      ensures Valid() && pos >= old(pos)
      ensures got.Some? ==> pos == old(pos) + want && got.value == stream[old(pos)..pos]
      ensures got.None? ==> Cut() || old(pos) + want > |stream|
    {
      var buffer := [];
      while |buffer| < want
        invariant Valid() && |buffer| <= want && pos == old(pos) + |buffer|
        invariant buffer == stream[old(pos)..pos]
        decreases |script| - call
      {
        var piece := Read(want - |buffer|);
        if piece.None? {
          return None;
        }
        buffer := buffer + piece.value;
      }
      got := Some(buffer);
    }

    // A frame is exactly what stands at the front of the unread stream: its
    // length field, in range, and that many bytes.
    method ReadFrame() returns (r: FrameRead)
      requires Valid()
      modifies this
      ensures Valid() && pos >= old(pos)
      ensures r.Frame? ==>
                && 1 <= |r.bytes| <= MAX_FRAME
                && pos == old(pos) + 4 + |r.bytes|
                && stream[old(pos)..pos] == Prefixed(r.bytes)
      ensures r.NoFrame? ==> Cut() || !FrameAt(stream, old(pos))
    {
      var lengthBytes := ReadExactly(4);
      if lengthBytes.None? {
        return NoFrame;
      }
      var length := DecodeLength(lengthBytes.value);
      if length == 0 || length > MAX_FRAME {
        return NoFrame;
      }
      var payload := ReadExactly(length);
      if payload.None? {
        return NoFrame;
      }
      LengthUnique(lengthBytes.value);
      assert stream[old(pos)..pos] == lengthBytes.value + payload.value;
      return Frame(payload.value);
    }

    // A reader that reads frames until there is none gets a prefix of the
    // well-sized frames sent, whatever the short reads: every frame the stream
    // holds whole, unless the connection ends first.
    method ReadFrames(ghost sent: seq<Bytes>) returns (got: seq<Bytes>)
      requires Valid() && pos == 0 && stream <= Wire(sent) && WellSized(sent)
      modifies this
      ensures Valid() && got <= sent && Wire(got) <= stream
      ensures Cut() || AllWhole(sent, got, stream)
    {
      hide Wire, Prefixed, FrameAt, WellSized;
      got := [];
      WireOfNone();
      while true
        invariant Valid() && got <= sent && Wire(got) == stream[..pos]
        decreases |stream| - pos
      {
        ghost var p := pos;
        var r := ReadFrame();
        if r.NoFrame? {
          assert got == sent[..|got|];
          if |got| < |sent| && Wire(sent[..|got| + 1]) <= stream {
            MoreToRead(sent, |got|, stream, p);
          }
          return;
        }
        assert stream[..pos] == stream[..p] + Prefixed(r.bytes);
        NextFrame(sent, got, r.bytes, stream, p, pos);
        got := got + [r.bytes];
      }
    }
  }

  ghost predicate WellSized(frames: seq<Bytes>) {
    forall i | 0 <= i < |frames| :: 1 <= |frames[i]| <= MAX_FRAME
  }

  // The frames read are all those the stream holds whole.
  ghost predicate AllWhole(sent: seq<Bytes>, got: seq<Bytes>, stream: Bytes) {
    |got| >= |sent| || !(Wire(sent[..|got| + 1]) <= stream)
  }

  lemma WireOfNone()
    ensures Wire([]) == []
  {
  }

  // The wire form around one frame.
  lemma WireSplit(sent: seq<Bytes>, n: nat)
    requires n < |sent|
    ensures Wire(sent) == Wire(sent[..n]) + (Prefixed(sent[n]) + Wire(sent[n + 1..]))
    ensures Wire(sent[..n + 1]) == Wire(sent[..n]) + Prefixed(sent[n])
  {
    hide Wire, Prefixed;
    var front, frame, rest := sent[..n], [sent[n]], sent[n + 1..];
    SplitAt(sent, n);
    WireAppend(front, frame + rest);
    WireAppend(frame, rest);
    WireAppend(front, frame);
    WireOne(sent[n]);
  }

  // Two frames at the front of the same bytes are the same.
  lemma SameFrame(a: Bytes, b: Bytes, x: Bytes, y: Bytes)
    requires Prefixed(a) + x == Prefixed(b) + y && |a| < U32 && |b| < U32
    ensures a == b
  {
    hide Prefixed, DecodeLength;
    PrefixedStarts(a, x);
    PrefixedStarts(b, y);
  }

  lemma MoreSent(sent: seq<Bytes>, got: seq<Bytes>, frame: Bytes, stream: Bytes, p: nat, q: nat)
    requires got <= sent && stream <= Wire(sent) && p <= q <= |stream|
    requires Wire(got) == stream[..p] && stream[p..q] == Prefixed(frame)
    ensures |got| < |sent|
  {
    hide Wire;
    assert |got| < |sent| || got == sent;
  }

  // After the frames already read, the next bytes are the next frame sent.
  lemma NextFrame(sent: seq<Bytes>, got: seq<Bytes>, frame: Bytes, stream: Bytes, p: nat, q: nat)
    requires got <= sent && stream <= Wire(sent) && p <= q <= |stream| && WellSized(sent)
    requires Wire(got) == stream[..p] && stream[p..q] == Prefixed(frame) && |frame| <= MAX_FRAME
    ensures got + [frame] <= sent && Wire(got + [frame]) == stream[..q]
  {
    hide Wire, Prefixed;
    var w, n := Wire(sent), |got|;
    assert sent[..n] == got && w[..p] == stream[..p];
    MoreSent(sent, got, frame, stream, p, q);
    WireSplit(sent, n);
    assert w[p..] == Prefixed(sent[n]) + Wire(sent[n + 1..]);
    assert w[p..q] == stream[p..q] && w[p..] == w[p..q] + w[q..];
    SameFrame(frame, sent[n], w[q..], Wire(sent[n + 1..]));
    assert got + [frame] == sent[..n + 1];
    assert stream[..q] == stream[..p] + stream[p..q];
  }

  // A frame the stream holds whole is there to read.
  lemma MoreToRead(sent: seq<Bytes>, n: nat, stream: Bytes, p: nat)
    requires n < |sent| && p <= |stream| && Wire(sent[..n]) == stream[..p] && WellSized(sent)
    requires Wire(sent[..n + 1]) <= stream
    ensures FrameAt(stream, p)
  {
    hide Wire;
    WireSplit(sent, n);
    var next := Prefixed(sent[n]);
    var q := p + |next|;
    assert stream[..q] == stream[..p] + next;
    assert stream[p..q] == next && stream[p..] == next + stream[q..];
    PrefixedStarts(sent[n], stream[q..]);
    assert stream[p..p + 4] == next[..4];
  }

  // ---- the write queue of one outbound connection --------------------------------

  datatype Thread =
    | Idle
    | Starting                        // post_frame, told to submit the write loop
    | NoScheduler                     // post_frame, found no scheduler
    | LoopTop                         // write_loop, about to take the lock
    | Writing(batch: Bytes, off: nat) // write_bytes, off bytes accepted so far
    | WriteFailed                     // about to clear the queue under the lock
    | Dying                           // about to set m_valid to false in notify_dead

  datatype Conn = Conn(
    frames: seq<Bytes>,
    writing: bool,
    valid: bool,
    broken: bool,            // the descriptor has failed a write, for good
    loops: nat,              // write loops submitted and not yet started
    threads: seq<Thread>,
    accepted: seq<Bytes>,    // history: frames queued, in order
    sent: Bytes,             // history: bytes the socket accepted
    inflight: Bytes)         // history: the unsent rest of the batch being written

  datatype Event =
    | PostFrame(t: nat, frame: Bytes, scheduler: bool)
    | Submit(t: nat)
    | DropQueue(t: nat)
    | StartLoop(t: nat)
    | TakeBatch(t: nat)
    | WriteSome(t: nat, n: nat)
    | WriteError(t: nat)
    | ClearQueue(t: nat)
    | MarkDead(t: nat)
    | NotifyDead(t: nat)     // notify_dead() by the reader or by send, the descriptor still open
    | CloseConn(t: nat)      // close() by the owner

  function Init(threads: nat): Conn {
    Conn([], false, true, false, 0, seq(threads, _ => Idle), [], [], [])
  }

  function Go(c: Conn, t: nat, p: Thread): Conn
    requires t < |c.threads|
  {
    c.(threads := c.threads[t := p])
  }

  predicate Takes(c: Conn, e: Event) {
    && e.t < |c.threads|
    && var p := c.threads[e.t];
       match e
       case PostFrame(_, _, _) => p.Idle?
       case Submit(_) => p.Starting?
       case DropQueue(_) => p.NoScheduler?
       case StartLoop(_) => p.Idle? && c.loops > 0
       case TakeBatch(_) => p.LoopTop?
       case WriteSome(_, n) => p.Writing? && !c.broken && 0 < n <= |p.batch| - p.off
       case WriteError(_) => p.Writing? && p.off < |p.batch|
       case ClearQueue(_) => p.WriteFailed?
       case MarkDead(_) => p.Dying?
       case NotifyDead(_) => true
       case CloseConn(_) => true
  }

  function PostStep(c: Conn, e: Event): Conn
    requires Takes(c, e) && e.PostFrame?
  {
    if !c.valid then c
    else
      var queued := c.(frames := c.frames + [e.frame], accepted := c.accepted + [e.frame], writing := true);
      if c.writing then queued else Go(queued, e.t, if e.scheduler then Starting else NoScheduler)
  }

  // write_loop under the lock: stop, or take everything queued as one batch.
  function TakeStep(c: Conn, t: nat): Conn
    requires t < |c.threads|
  {
    if c.frames == [] || !c.valid then Go(c, t, Idle).(writing := false)
    else Go(c, t, Writing(Wire(c.frames), 0)).(frames := [], inflight := Wire(c.frames))
  }

  function WriteStep(c: Conn, t: nat, n: nat): Conn
    requires t < |c.threads| && c.threads[t].Writing? && c.threads[t].off + n <= |c.threads[t].batch|
  {
    var batch, off := c.threads[t].batch, c.threads[t].off;
    Go(c, t, if off + n == |batch| then LoopTop else Writing(batch, off + n)).(
      sent := c.sent + batch[off..off + n], inflight := batch[off + n..])
  }

  function Step(c: Conn, e: Event): Conn
    requires Takes(c, e)
  {
    match e
    case PostFrame(_, _, _) => PostStep(c, e)
    case Submit(t) => Go(c, t, Idle).(loops := c.loops + 1)
    case DropQueue(t) => Go(c, t, Idle).(writing := false, valid := false, frames := [])
    case StartLoop(t) => Go(c, t, LoopTop).(loops := c.loops - 1)
    case TakeBatch(t) => TakeStep(c, t)
    case WriteSome(t, n) => WriteStep(c, t, n)
    case WriteError(t) => Go(c, t, WriteFailed).(broken := true)
    case ClearQueue(t) => Go(c, t, Dying).(frames := [], writing := false)
    case MarkDead(t) => Go(c, t, Idle).(valid := false)
    case NotifyDead(_) => c.(valid := false)
    case CloseConn(_) => c.(valid := false, broken := true)
  }

  function Apply(c: Conn, e: Event): Conn {
    if Takes(c, e) then Step(c, e) else c
  }

  // ---- the invariant -----------------------------------------------------------

  // Responsible for the queue: will become the write loop, or is it.
  function InCharge(p: Thread): nat {
    if p.Starting? || p.NoScheduler? || p.LoopTop? || p.Writing? || p.WriteFailed? then 1 else 0
  }

  function IsWriting(p: Thread): nat {
    if p.Writing? then 1 else 0
  }

  // While the descriptor works, bytes sent and the rest of the current batch
  // are a prefix of the accepted frames' wire form; on a valid connection the
  // queued frames make it whole.
  ghost predicate Flowing(c: Conn) {
    && c.sent + c.inflight <= Wire(c.accepted)
    && (c.inflight != [] ==> Sum(c.threads, IsWriting) > 0)
    && (c.valid ==> c.sent + c.inflight + Wire(c.frames) == Wire(c.accepted))
  }

  ghost predicate ThreadOk(c: Conn, p: Thread) {
    && (p.Writing? ==> p.off < |p.batch|)
    && (p.Writing? && !c.broken ==> c.inflight == p.batch[p.off..])
    && (p.WriteFailed? || p.Dying? ==> c.broken)
  }

  ghost predicate Inv(c: Conn) {
    && c.loops + Sum(c.threads, InCharge) == (if c.writing then 1 else 0)
    && (c.valid && c.frames != [] ==> c.writing)
    && c.sent <= Wire(c.accepted)
    && (!c.broken ==> Flowing(c))
    && (forall t | 0 <= t < |c.threads| :: ThreadOk(c, c.threads[t]))
  }

  lemma InitInv(threads: nat)
    ensures Inv(Init(threads))
  {
    SumZero(Init(threads).threads, InCharge);
  }

  lemma {:induction false} WritersAreInCharge(s: seq<Thread>)
    ensures Sum(s, IsWriting) <= Sum(s, InCharge)
  {
    if s != [] {
      WritersAreInCharge(s[1..]);
    }
  }

  // The thread in charge is alone: nobody else writes.
  lemma Alone(c: Conn, t: nat)
    requires t < |c.threads| && InCharge(c.threads[t]) == 1 && Sum(c.threads, InCharge) <= 1
    ensures Sum(c.threads, IsWriting) == IsWriting(c.threads[t])
    ensures forall u | 0 <= u < |c.threads| && u != t :: InCharge(c.threads[u]) == 0
  {
    var r := c.threads[t := Idle];
    SumUpdate(c.threads, t, Idle, InCharge);
    SumUpdate(c.threads, t, Idle, IsWriting);
    WritersAreInCharge(r);
    forall u | 0 <= u < |c.threads| && u != t ensures InCharge(c.threads[u]) == 0 {
      assert r[u] == c.threads[u];
      SumAtLeast(r, u, InCharge);
    }
  }

  lemma Moved(c: Conn, t: nat, p: Thread)
    requires t < |c.threads|
    ensures var r, q := c.threads[t := p], c.threads[t];
            && Sum(r, InCharge) + InCharge(q) == Sum(c.threads, InCharge) + InCharge(p)
            && Sum(r, IsWriting) + IsWriting(q) == Sum(c.threads, IsWriting) + IsWriting(p)
            && InCharge(q) <= Sum(c.threads, InCharge)
  {
    SumUpdate(c.threads, t, p, InCharge);
    SumUpdate(c.threads, t, p, IsWriting);
    SumAtLeast(c.threads, t, InCharge);
  }

  lemma WirePosted(accepted: seq<Bytes>, frames: seq<Bytes>, frame: Bytes, front: Bytes)
    requires front + Wire(frames) == Wire(accepted)
    ensures front + Wire(frames + [frame]) == Wire(accepted + [frame])
  {
    WireAppend(frames, [frame]);
    WireAppend(accepted, [frame]);
    Assoc(front, Wire(frames), Wire([frame]));
  }

  lemma StepPost(c: Conn, e: Event)
    requires Inv(c) && Takes(c, e) && e.PostFrame?
    ensures Inv(Step(c, e))
  {
    if c.valid {
      var c' := Step(c, e);
      Moved(c, e.t, c'.threads[e.t]);
      WireAppend(c.accepted, [e.frame]);
      if !c.broken {
        WirePosted(c.accepted, c.frames, e.frame, c.sent + c.inflight);
      }
      forall t | 0 <= t < |c'.threads| ensures ThreadOk(c', c'.threads[t]) {
        assert ThreadOk(c, c.threads[t]);
      }
    }
  }

  lemma WireNonEmpty(frames: seq<Bytes>)
    requires frames != []
    ensures Wire(frames) != []
  {
  }

  lemma StepTake(c: Conn, t: nat)
    requires Inv(c) && t < |c.threads| && c.threads[t].LoopTop?
    ensures Inv(TakeStep(c, t))
  {
    hide Sum, Wire;
    var c' := TakeStep(c, t);
    WireOfNone();
    Moved(c, t, c'.threads[t]);
    Alone(c, t);
    if c.frames != [] {
      WireNonEmpty(c.frames);
      assert c.sent + c.inflight + Wire(c.frames) == c.sent + Wire(c.frames) + Wire([]) || c.inflight != [];
    }
    forall u | 0 <= u < |c'.threads| ensures ThreadOk(c', c'.threads[u]) {
      assert ThreadOk(c, c.threads[u]);
    }
  }

  lemma StepWrite(c: Conn, t: nat, n: nat)
    requires Inv(c) && Takes(c, WriteSome(t, n))
    ensures Inv(WriteStep(c, t, n))
  {
    hide Sum, Wire;
    var c' := WriteStep(c, t, n);
    var batch, off := c.threads[t].batch, c.threads[t].off;
    assert ThreadOk(c, c.threads[t]);
    Moved(c, t, c'.threads[t]);
    Alone(c, t);
    assert batch[off..] == batch[off..off + n] + batch[off + n..];
    assert c.sent + (batch[off..off + n] + batch[off + n..]) == (c.sent + batch[off..off + n]) + batch[off + n..];
    forall u | 0 <= u < |c'.threads| ensures ThreadOk(c', c'.threads[u]) {
      assert ThreadOk(c, c.threads[u]);
    }
  }

  lemma StepOther(c: Conn, e: Event)
    requires Inv(c) && Takes(c, e) && !e.PostFrame? && !e.TakeBatch? && !e.WriteSome?
    ensures Inv(Step(c, e))
  {
    hide Sum, Wire;
    WireOfNone();
    var c' := Step(c, e);
    var p := c'.threads[e.t];
    assert c'.threads == c.threads[e.t := p];
    Moved(c, e.t, p);
    assert ThreadOk(c, c.threads[e.t]);
    if InCharge(c.threads[e.t]) == 1 {
      Alone(c, e.t);
    }
    forall t | 0 <= t < |c'.threads| ensures ThreadOk(c', c'.threads[t]) {
      assert ThreadOk(c, c.threads[t]);
    }
  }

  lemma StepInv(c: Conn, e: Event)
    requires Inv(c)
    ensures Inv(Apply(c, e))
  {
    if Takes(c, e) {
      match e
      case PostFrame(_, _, _) => StepPost(c, e);
      case TakeBatch(t) => StepTake(c, t);
      case WriteSome(t, n) => StepWrite(c, t, n);
      case _ => StepOther(c, e);
    }
  }

  lemma ThreadsKept(c: Conn, e: Event)
    ensures |Apply(c, e).threads| == |c.threads|
  {
  }

  ghost function Exec(c: Conn, es: seq<Event>): (c': Conn)
    requires Inv(c)
    ensures Inv(c') && |c'.threads| == |c.threads|
    decreases |es|
  {
    if es == [] then c
    else
      StepInv(c, es[0]);
      ThreadsKept(c, es[0]);
      Exec(Apply(c, es[0]), es[1..])
  }

  // ---- what the connection promises --------------------------------------------------

  // In every run at most one write loop is submitted or running.
  lemma OneWriteLoop(threads: nat, es: seq<Event>, t: nat, u: nat)
    requires t < u < threads
    ensures Inv(Init(threads))
    ensures var c := Exec(Init(threads), es);
            c.loops + InCharge(c.threads[t]) + InCharge(c.threads[u]) <= 1
  {
    InitInv(threads);
    SumAtLeastTwo(Exec(Init(threads), es).threads, t, u, InCharge);
  }

  // Queued frames on a live connection always have someone in charge of them.
  lemma QueueIsServed(threads: nat, es: seq<Event>)
    ensures Inv(Init(threads))
    ensures var c := Exec(Init(threads), es);
            c.valid && c.frames != [] ==> c.loops > 0 || exists t :: 0 <= t < |c.threads| && InCharge(c.threads[t]) == 1
  {
    InitInv(threads);
    var c := Exec(Init(threads), es);
    if c.valid && c.frames != [] && c.loops == 0 {
      var t := SumWitness(c.threads, InCharge);
    }
  }

  // The bytes on the wire are a prefix of the accepted frames, each with its
  // length, in order, never interleaved; all of them once the queue is empty
  // on a working connection with no loop left.
  lemma WireIsPrefix(threads: nat, es: seq<Event>)
    ensures Inv(Init(threads))
    ensures var c := Exec(Init(threads), es);
            && c.sent <= Wire(c.accepted)
            && (c.valid && !c.broken && !c.writing ==> c.sent == Wire(c.accepted))
  {
    InitInv(threads);
    var c := Exec(Init(threads), es);
    if c.valid && !c.broken && !c.writing {
      WritersAreInCharge(c.threads);
      assert c.inflight == [];
    }
  }

  // post_frame accepts a frame exactly on a valid connection, as the last one, and
  // its caller goes on to submit the loop exactly when nobody is in charge of the
  // queue, if it has a scheduler.
  lemma PostAccepts(c: Conn, t: nat, frame: Bytes, scheduler: bool)
    requires Inv(c) && t < |c.threads| && c.threads[t].Idle?
    ensures var c' := Apply(c, PostFrame(t, frame, scheduler));
            && c'.accepted == (if c.valid then c.accepted + [frame] else c.accepted)
            && (c.valid && !c.writing ==> c'.threads[t] == if scheduler then Starting else NoScheduler)
            && (c.valid ==> c'.frames == c.frames + [frame] && c'.writing
                            && (c'.threads[t].Idle? <==> c.loops > 0 || exists u :: 0 <= u < |c.threads|
                                                                                 && InCharge(c.threads[u]) == 1))
  {
    if c.valid && c.writing && c.loops == 0 {
      var u := SumWitness(c.threads, InCharge);
    }
    if c.valid && !c.writing {
      forall u | 0 <= u < |c.threads| ensures InCharge(c.threads[u]) == 0 {
        SumAtLeast(c.threads, u, InCharge);
      }
    }
  }

  // What the write loop and a poster about to submit it do by themselves.
  ghost predicate Writes(es: seq<Event>) {
    forall e | e in es :: e.Submit? || e.StartLoop? || e.TakeBatch? || e.WriteSome?
  }

  function Stage(p: Thread): nat {
    match p
    case Starting => 6
    case Writing(_, _) => 4
    case LoopTop => 3
    case WriteFailed => 2
    case Idle => 0
    case _ => 1
  }

  // A working connection none of whose posters lacks a scheduler.
  ghost predicate Working(c: Conn) {
    c.valid && !c.broken && forall t | 0 <= t < |c.threads| :: !c.threads[t].NoScheduler?
  }

  ghost predicate Quiet(c: Conn) {
    c.loops == 0 && forall t | 0 <= t < |c.threads| :: c.threads[t].Idle?
  }

  lemma QuietIsWritten(c: Conn)
    requires Inv(c) && Working(c) && Quiet(c)
    ensures c.sent == Wire(c.accepted)
  {
    SumZero(c.threads, InCharge);
    WritersAreInCharge(c.threads);
    WireOfNone();
    assert c.inflight == [] && c.frames == [];
    assert c.sent + [] + [] == c.sent;
  }

  // And what they do when there is no scheduler or a write fails.
  ghost predicate Settles(es: seq<Event>) {
    forall e | e in es :: Writes([e]) || e.DropQueue? || e.WriteError? || e.ClearQueue? || e.MarkDead?
  }

  // A block of a thread at work, which writes all it has left if it can.
  predicate Onward(c: Conn, e: Event) {
    && Takes(c, e) && !e.PostFrame? && !e.NotifyDead? && !e.CloseConn?
    && (e.WriteError? ==> c.broken)
    && (e.WriteSome? ==> e.n == |c.threads[e.t].batch| - c.threads[e.t].off)
  }

  lemma OnwardLowers(c: Conn, e: Event)
    requires Onward(c, e)
    ensures Settles([e])
    ensures var c' := Apply(c, e);
            && c'.accepted == c.accepted && |c'.threads| == |c.threads|
            && (|c'.frames| < |c.frames|
                || (|c'.frames| == |c.frames|
                    && Sum(c'.threads, Stage) + 5 * c'.loops < Sum(c.threads, Stage) + 5 * c.loops))
  {
    hide Sum, Wire;
    SumUpdate(c.threads, e.t, Apply(c, e).threads[e.t], Stage);
    assert Apply(c, e).threads == c.threads[e.t := Apply(c, e).threads[e.t]];
  }

  lemma GoesOn(c: Conn) returns (e: Event)
    requires Inv(c) && !Quiet(c) && |c.threads| > 0
    ensures Onward(c, e)
  {
    if t :| 0 <= t < |c.threads| && !c.threads[t].Idle? {
      assert ThreadOk(c, c.threads[t]);
      hide Inv;
      match c.threads[t] {
      case Starting => e := Submit(t);
      case NoScheduler => e := DropQueue(t);
      case LoopTop => e := TakeBatch(t);
      case Writing(batch, off) => e := if c.broken then WriteError(t) else WriteSome(t, |batch| - off);
      case WriteFailed => e := ClearQueue(t);
      case Dying => e := MarkDead(t);
      }
    } else {
      e := StartLoop(0);
    }
  }

  // Whatever has failed, the threads at work come to rest by themselves.
  lemma {:induction false} CanSettle(c: Conn) returns (es: seq<Event>)
    requires Inv(c) && |c.threads| > 0
    ensures Settles(es) && Quiet(Exec(c, es)) && Exec(c, es).accepted == c.accepted
    decreases |c.frames|, Sum(c.threads, Stage) + 5 * c.loops
  {
    hide Inv, Sum, Apply, Quiet, Writes, Onward;
    if Quiet(c) {
      es := [];
    } else {
      var e := GoesOn(c);
      OnwardLowers(c, e);
      StepInv(c, e);
      var more := CanSettle(Apply(c, e));
      es := [e] + more;
      assert e in [e] && es[1..] == more;
    }
  }

  lemma WorkingStays(c: Conn, e: Event)
    requires Inv(c) && Working(c) && Onward(c, e)
    ensures Writes([e]) && Working(Apply(c, e))
  {
    assert ThreadOk(c, c.threads[e.t]);
  }

  // Every frame ever accepted on a connection that still works can still be
  // written out, by the loop alone.
  lemma {:induction false} CanWriteAll(c: Conn) returns (es: seq<Event>)
    requires Inv(c) && Working(c) && |c.threads| > 0
    ensures Writes(es) && Quiet(Exec(c, es))
    ensures Exec(c, es).accepted == c.accepted && Exec(c, es).sent == Wire(c.accepted)
    decreases |c.frames|, Sum(c.threads, Stage) + 5 * c.loops
  {
    if Quiet(c) {
      QuietIsWritten(c);
      es := [];
    } else {
      hide Inv, Sum, Working, Quiet, Apply, Onward;
      var e := GoesOn(c);
      OnwardLowers(c, e);
      WorkingStays(c, e);
      StepInv(c, e);
      var more := CanWriteAll(Apply(c, e));
      es := [e] + more;
      assert es[1..] == more;
    }
  }

  // A failed write is on its way to marking the connection dead.
  ghost predicate Honest(c: Conn) {
    c.broken && c.valid ==> exists t :: 0 <= t < |c.threads| && (c.threads[t].WriteFailed? || c.threads[t].Dying?)
  }

  lemma StepHonest(c: Conn, e: Event)
    requires Honest(c)
    ensures Honest(Apply(c, e))
  {
    hide Wire;
    var c' := Apply(c, e);
    if Takes(c, e) && c'.broken && c'.valid {
      if e.WriteError? {
        assert c'.threads[e.t].WriteFailed?;
      } else {
        var t :| 0 <= t < |c.threads| && (c.threads[t].WriteFailed? || c.threads[t].Dying?);
        assert c'.threads[t] == c.threads[t] || (e.ClearQueue? && e.t == t && c'.threads[t].Dying?);
      }
    }
  }

  lemma {:induction false} RunHonest(c: Conn, es: seq<Event>)
    requires Inv(c) && Honest(c)
    ensures Honest(Exec(c, es))
    decreases |es|
  {
    hide Inv, Apply, Honest;
    if es != [] {
      StepInv(c, es[0]);
      StepHonest(c, es[0]);
      RunHonest(Apply(c, es[0]), es[1..]);
    }
  }

  // In every run, once nobody is at work any more, everything accepted has been
  // sent or the connection is marked dead.
  lemma SentOrDead(threads: nat, es: seq<Event>)
    ensures Inv(Init(threads))
    ensures var c := Exec(Init(threads), es);
            Quiet(c) && c.valid ==> c.sent == Wire(c.accepted)
  {
    InitInv(threads);
    RunHonest(Init(threads), es);
    var c := Exec(Init(threads), es);
    if Quiet(c) && c.valid {
      QuietIsWritten(c);
    }
  }

  // A connection marked dead accepts nothing ever again, and one closed sends
  // nothing either.
  lemma DeadAcceptsNothing(c: Conn, t: nat, es: seq<Event>)
    requires Inv(c) && t < |c.threads|
    ensures var c' := Apply(c, NotifyDead(t));
            Inv(c') && !Exec(c', es).valid && Exec(c', es).accepted == c.accepted
    ensures var c' := Apply(c, CloseConn(t));
            && Inv(c') && !Exec(c', es).valid
            && Exec(c', es).accepted == c.accepted && Exec(c', es).sent == c.sent
  {
    hide Inv;
    StepInv(c, NotifyDead(t));
    StepInv(c, CloseConn(t));
    DeadStays(Apply(c, NotifyDead(t)), es);
    DeadStays(Apply(c, CloseConn(t)), es);
  }

  lemma {:induction false} DeadStays(c: Conn, es: seq<Event>)
    requires Inv(c) && !c.valid
    ensures !Exec(c, es).valid && Exec(c, es).accepted == c.accepted
    ensures c.broken ==> Exec(c, es).sent == c.sent
    decreases |es|
  {
    hide Inv, Wire;
    if es != [] {
      StepInv(c, es[0]);
      DeadStays(Apply(c, es[0]), es[1..]);
    }
  }

  // End to end: reading frames off those bytes, under any short reads, yields a
  // prefix of the accepted frames, and all the bytes hold whole on an uncut read.
  method ReadBack(ghost c: Conn, stream: Bytes, script: seq<IoResult>) returns (got: seq<Bytes>)
    requires Inv(c) && stream <= c.sent && WellSized(c.accepted)
    ensures got <= c.accepted && Wire(got) <= stream
    ensures Steady(script) && |script| >= |stream| ==> AllWhole(c.accepted, got, stream)
  {
    var source := new Source(stream, script);
    got := source.ReadFrames(c.accepted);
  }

  ghost predicate Steady(script: seq<IoResult>) {
    forall k | 0 <= k < |script| :: !Fails(script[k])
  }
}
