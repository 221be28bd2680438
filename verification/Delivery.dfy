// Remote delivery between any number of nodes, with both logs off.  A sender
// tracks a message before it first posts it and forgets it on an ack; it posts
// a message again only when a resend finds it flagged, when a timeout scan
// finds it due, or when a caller or a flush tracks it again.  A receiver acks
// only after its handler returned, or when its table says so.  The network
// keeps every frame and ack ever posted and may deliver any of them at any
// later time, any number of times or never; connections break at any time.
module Delivery {
  import opened Prelude
  import D = Dedup
  import U = UnackedTable

  // A connection dialled by src to dst; acks return over it to src.
  datatype Link = Link(src: nat, dst: nat, serial: nat)

  // A routed frame, known by the sender and message id in its header.
  type Frame = D.Key

  // What a thread or coroutine of a node does next, between two locked blocks.
  datatype Job =
    | Send(dst: nat, frame: Frame)      // try_deliver, about to look at its connection
    | Post(link: Link, frame: Frame)    // about to call post_frame
    | Refused(id: nat)                  // post_frame returned false, note_send_failed ahead
    | Joined(link: Link)                // connect_to_node pooled it, connect_and_flush ahead
    | Flush(link: Link, frame: Frame)   // about to track a buffered message again
    | Resume(link: Link)                // resend_unacked ahead
    | Resend(link: Link, frame: Frame)  // resend_unacked has copied the frame
    | Resent(id: nat)                   // and post_frame took it
    | Timeout(dst: nat, frame: Frame)   // ack_timeout_loop has copied the frame
    | Died(dst: nat)                    // on_link_dead before its first block
    | Unpooled(dst: nat, have: bool)    // and before its second
    | Flagged(dst: nat, have: bool)     // and before its last

  datatype Node = Node(
    nextId: nat,
    now: nat,
    tracked: map<nat, nat>,            // history: message id to destination
    table: U.Table<Frame>,
    pool: map<nat, Link>,              // m_connections
    recovering: set<nat>,
    buffered: set<(nat, Frame)>,       // held by proxies without a connection
    jobs: set<Job>,
    mailbox: seq<(Frame, Link)>,       // routed envelopes waiting for an actor
    receiver: D.Receiver<Link>)

  datatype Net = Net(
    nodes: seq<Node>,
    limit: nat,                        // remote_ack_timeout_ms
    links: set<Link>,                  // connections ever dialled
    broken: set<Link>,                 // and those no longer valid
    frames: set<(Link, Frame)>,        // routed frames posted
    acks: set<(Link, nat)>)            // acks posted

  datatype Event =
    | Track(n: nat, dst: nat)
    | Retry(n: nat, id: nat)           // a caller sends under the same id once more
    | Choose(n: nat, job: Job, conn: Option<Link>, room: bool)
    | Run(n: nat, job: Job)
    | Break(link: Link)
    | Connect(n: nat, dst: nat, serial: nat)
    | Round(n: nat, dst: nat)          // resend_unacked in an iteration of recover_node
    | Settled(n: nat, dst: nat)        // recover_node ends
    | Tick(n: nat, d: nat)
    | Scan(n: nat)                     // ack_timeout_loop under the lock
    | Receive(link: Link, frame: Frame)
    | Dispatch(n: nat, i: nat)
    | Finish(n: nat, i: nat, result: D.Delivered)
    | AckArrives(link: Link, id: nat)

  function Init(nodes: nat, limit: nat, cap: nat): Net {
    Net(seq(nodes, _ => Node(1, 0, map[], map[], map[], {}, {}, {}, [], D.Start(cap))), limit, {}, {}, {}, {})
  }

  function SetNode(s: Net, n: nat, node: Node): Net
    requires n < |s.nodes|
  {
    s.(nodes := s.nodes[n := node])
  }

  predicate Up(s: Net, link: Link) {
    link in s.links && link !in s.broken
  }

  predicate Pooled(s: Net, n: nat, dst: nat) {
    n < |s.nodes| && dst in s.nodes[n].pool && Up(s, s.nodes[n].pool[dst])
  }

  predicate Takes(s: Net, e: Event) {
    match e
    case Track(n, dst) => n < |s.nodes| && dst < |s.nodes|
    case Retry(n, id) => n < |s.nodes| && id in s.nodes[n].tracked
    case Choose(n, job, conn, _) =>
      && n < |s.nodes| && job in s.nodes[n].jobs && job.Send?
      && (conn.Some? ==> conn.value.src == n && conn.value.dst == job.dst && Up(s, conn.value))
    case Run(n, job) => n < |s.nodes| && job in s.nodes[n].jobs && !job.Send?
    case Break(link) => Up(s, link) && link.src < |s.nodes|
    case Connect(n, dst, serial) =>
      n < |s.nodes| && dst < |s.nodes| && Link(n, dst, serial) !in s.links && !Pooled(s, n, dst)
    case Round(n, dst) => Pooled(s, n, dst) && dst in s.nodes[n].recovering
    case Settled(n, _) => n < |s.nodes|
    case Tick(n, _) => n < |s.nodes|
    case Scan(n) => n < |s.nodes|
    case Receive(link, frame) => (link, frame) in s.frames && link.dst < |s.nodes|
    case Dispatch(n, i) => n < |s.nodes| && i < |s.nodes[n].mailbox|
    case Finish(n, i, _) => n < |s.nodes| && i < |s.nodes[n].receiver.running|
    case AckArrives(link, id) => (link, id) in s.acks && link.src < |s.nodes|
  }

  // ---- the sender -----------------------------------------------------------------

  // try_deliver up to and including m_track.
  function Tracked(node: Node, dst: nat, frame: Frame): Node {
    node.(table := U.Put(node.table, dst, frame.msgId, frame, node.now), jobs := node.jobs + {Send(dst, frame)})
  }

  // try_deliver reads its proxy's connection: post, buffer, or refuse.
  function Chosen(node: Node, job: Job, conn: Option<Link>, room: bool): Node
    requires job.Send?
  {
    var rest := node.(jobs := node.jobs - {job});
    if conn.Some? then rest.(jobs := rest.jobs + {Post(conn.value, job.frame)})
    else if room then rest.(buffered := node.buffered + {(job.dst, job.frame)})
    else rest
  }

  // The frames resend_unacked copies for a connection.
  function Resends(t: U.Table<Frame>, link: Link): set<Job> {
    set id | id in t && U.Pending(t, link.dst, id) :: Resend(link, t[id].frame)
  }

  function Timeouts(t: U.Table<Frame>, now: nat, limit: nat): set<Job> {
    set id | id in t && U.Due(t, now, limit, id) :: Timeout(t[id].node, t[id].frame)
  }

  function Flushes(buffered: set<(nat, Frame)>, link: Link): set<Job> {
    set x | x in buffered && x.0 == link.dst :: Flush(link, x.1)
  }

  // The frames a job posts.
  function Posts(s: Net, n: nat, job: Job): set<(Link, Frame)>
    requires n < |s.nodes|
  {
    match job
    case Post(link, frame) => if Up(s, link) then {(link, frame)} else {}
    case Resend(link, frame) => if Up(s, link) then {(link, frame)} else {}
    case Timeout(dst, frame) => if Pooled(s, n, dst) then {(s.nodes[n].pool[dst], frame)} else {}
    case _ => {}
  }

  // What becomes of the job.
  function Next(s: Net, node: Node, job: Job): set<Job> {
    match job
    case Post(link, frame) => if Up(s, link) then {} else {Refused(frame.msgId)}
    case Joined(link) => Flushes(node.buffered, link) + {Resume(link)}
    case Flush(link, frame) => {Post(link, frame)}
    case Resume(link) => Resends(node.table, link)
    case Resend(link, frame) => if Up(s, link) then {Resent(frame.msgId)} else {}
    case Died(dst) => {Unpooled(dst, dst in node.pool)}
    case Unpooled(dst, have) => {Flagged(dst, have)}
    case _ => {}
  }

  // What the job does to the table.
  function Changes(node: Node, job: Job): U.Table<Frame> {
    match job
    case Refused(id) => U.Fail(node.table, id)
    case Flush(link, frame) => U.Put(node.table, link.dst, frame.msgId, frame, node.now)
    case Resent(id) => U.Settle(node.table, id, node.now)
    case Unpooled(dst, _) => U.Flag(node.table, dst)
    case _ => node.table
  }

  function Ran(s: Net, node: Node, job: Job): Node {
    node.(jobs := node.jobs - {job} + Next(s, node, job),
          table := Changes(node, job),
          pool := if job.Died? then node.pool - {job.dst} else node.pool,
          buffered := if job.Joined? then (set x | x in node.buffered && x.0 != job.link.dst) else node.buffered,
          recovering := if job.Flagged? && job.have then node.recovering + {job.dst} else node.recovering)
  }

  function SenderStep(s: Net, n: nat, e: Event): Node
    requires n < |s.nodes| && Takes(s, e)
  {
    var node := s.nodes[n];
    match e
    case Track(_, dst) =>
      Tracked(node.(nextId := node.nextId + 1, tracked := node.tracked[node.nextId := dst]), dst, D.Key(n, node.nextId))
    case Retry(_, id) => if id in node.tracked then Tracked(node, node.tracked[id], D.Key(n, id)) else node
    case Choose(_, job, conn, room) => Chosen(node, job, conn, room)
    case Run(_, job) => Ran(s, node, job)
    case Break(link) => node.(jobs := node.jobs + {Died(link.dst)})
    case Connect(_, dst, serial) =>
      var link := Link(n, dst, serial);
      node.(pool := node.pool[dst := link], jobs := node.jobs + {Joined(link)})
    case Round(_, dst) =>
      if dst in node.pool then node.(jobs := node.jobs + Resends(node.table, node.pool[dst])) else node
    case Settled(_, dst) => node.(recovering := node.recovering - {dst})
    case Tick(_, d) => node.(now := node.now + d)
    case Scan(_) =>
      node.(table := U.Restart(node.table, node.now, s.limit),
            jobs := node.jobs + Timeouts(node.table, node.now, s.limit))
    case AckArrives(_, id) => node.(table := U.Ack(node.table, id))
    case _ => node
  }

  // The node at whose sending side the event happens.
  function Sender(e: Event): nat {
    match e
    case Break(link) => link.src
    case AckArrives(link, _) => link.src
    case Receive(link, _) => link.dst
    case _ => e.n
  }

  predicate Sends(e: Event) {
    !e.Receive? && !e.Dispatch? && !e.Finish?
  }

  function SendStep(s: Net, e: Event): Net
    requires Takes(s, e) && Sends(e)
  {
    var n := Sender(e);
    SetNode(s, n, SenderStep(s, n, e)).(
      links := if e.Connect? then s.links + {Link(n, e.dst, e.serial)} else s.links,
      broken := if e.Break? then s.broken + {e.link} else s.broken,
      frames := if e.Run? then s.frames + Posts(s, n, e.job) else s.frames)
  }

  // ---- the receiver -----------------------------------------------------------------

  // handle_inbound_message for a routed frame with a local target.
  function ReceiveStep(s: Net, link: Link, frame: Frame): Net
    requires link.dst < |s.nodes|
  {
    var node := s.nodes[link.dst];
    if D.IsCompleted(node.receiver.table, frame) then s.(acks := s.acks + {(link, frame.msgId)})
    else if frame in node.receiver.table then s
    else SetNode(s, link.dst, node.(mailbox := node.mailbox + [(frame, link)]))
  }

  // dispatch_envelope up to the call of the handler.
  ghost function DispatchStep(s: Net, n: nat, i: nat): Net
    requires n < |s.nodes| && i < |s.nodes[n].mailbox|
  {
    var node := s.nodes[n];
    var (frame, link) := node.mailbox[i];
    var verdict := D.Claim(node.receiver.cap, node.receiver.table, frame).0;
    SetNode(s, n, node.(
      mailbox := DropAt(node.mailbox, i),
      receiver := D.BeginStep(node.receiver, frame, link))).(
      acks := if verdict == D.AlreadyCompleted then s.acks + {(link, frame.msgId)} else s.acks)
  }

  // The handler returns: finish_remote_delivery.
  function FinishStep(s: Net, n: nat, i: nat, result: D.Delivered): Net
    requires n < |s.nodes| && i < |s.nodes[n].receiver.running|
  {
    var node := s.nodes[n];
    var (frame, link) := node.receiver.running[i];
    SetNode(s, n, node.(receiver := D.EndStep(node.receiver, i, result))).(
      acks := if result == D.Threw then s.acks else s.acks + {(link, frame.msgId)})
  }

  ghost function Step(s: Net, e: Event): Net
    requires Takes(s, e)
  {
    match e
    case Receive(link, frame) => ReceiveStep(s, link, frame)
    case Dispatch(n, i) => DispatchStep(s, n, i)
    case Finish(n, i, result) => FinishStep(s, n, i, result)
    case _ => SendStep(s, e)
  }

  ghost function Apply(s: Net, e: Event): Net {
    if Takes(s, e) then Step(s, e) else s
  }

  // ---- the invariant ----------------------------------------------------------

  // Node d's handler has returned ok or dead_letter for the frame.
  ghost predicate Handled(s: Net, d: nat, frame: Frame) {
    d < |s.nodes| && frame in s.nodes[d].receiver.okRuns
  }

  // The frame is node n's own, tracked for dst.
  ghost predicate Owned(s: Net, n: nat, dst: nat, frame: Frame) {
    && n < |s.nodes| && dst < |s.nodes| && frame.sender == n
    && frame.msgId in s.nodes[n].tracked && s.nodes[n].tracked[frame.msgId] == dst
  }

  ghost predicate Routed(s: Net, link: Link, frame: Frame) {
    Owned(s, link.src, link.dst, frame)
  }

  // An envelope or a handler run at node d came over a link to d from its sender.
  ghost predicate CameBy(s: Net, d: nat, x: (Frame, Link)) {
    x.1.dst == d && Routed(s, x.1, x.0)
  }

  ghost predicate JobOk(s: Net, n: nat, job: Job) {
    match job
    case Send(dst, frame) => Owned(s, n, dst, frame)
    case Post(link, frame) => link.src == n && Routed(s, link, frame)
    case Joined(link) => link.src == n
    case Flush(link, frame) => link.src == n && Routed(s, link, frame)
    case Resume(link) => link.src == n
    case Resend(link, frame) => link.src == n && Routed(s, link, frame)
    case Timeout(dst, frame) => Owned(s, n, dst, frame)
    case _ => true
  }

  ghost predicate TableOk(s: Net, n: nat, t: U.Table<Frame>) {
    forall id | id in t :: t[id].frame == D.Key(n, id) && Owned(s, n, t[id].node, t[id].frame)
  }

  // What is tracked and no longer in the table has been handled.
  ghost predicate GoneOk(s: Net, n: nat, node: Node) {
    forall id | id in node.tracked && id !in node.table :: Handled(s, node.tracked[id], D.Key(n, id))
  }

  ghost predicate PoolOk(n: nat, pool: map<nat, Link>) {
    forall d | d in pool :: pool[d].src == n && pool[d].dst == d
  }

  ghost predicate SenderOk(s: Net, n: nat, node: Node) {
    && TableOk(s, n, node.table)
    && GoneOk(s, n, node)
    && PoolOk(n, node.pool)
    && (forall job | job in node.jobs :: JobOk(s, n, job))
    && (forall x | x in node.buffered :: Owned(s, n, x.0, x.1))
    && (forall id | id in node.tracked :: id < node.nextId && node.tracked[id] < |s.nodes|)
  }

  ghost predicate ReceiverOk(s: Net, n: nat, node: Node) {
    && D.Inv(node.receiver)
    && (forall i | 0 <= i < |node.mailbox| :: CameBy(s, n, node.mailbox[i]))
    && (forall i | 0 <= i < |node.receiver.running| :: CameBy(s, n, node.receiver.running[i]))
  }

  ghost predicate Inv(s: Net) {
    && (forall n | 0 <= n < |s.nodes| :: SenderOk(s, n, s.nodes[n]))
    && (forall n | 0 <= n < |s.nodes| :: ReceiverOk(s, n, s.nodes[n]))
    && s.broken <= s.links
    && (forall x | x in s.frames :: Routed(s, x.0, x.1))
    && (forall x | x in s.acks :: Routed(s, x.0, D.Key(x.0.src, x.1)) && Handled(s, x.0.dst, D.Key(x.0.src, x.1)))
  }

  lemma InitInv(nodes: nat, limit: nat, cap: nat)
    ensures Inv(Init(nodes, limit, cap))
  {
  }

  // What every step preserves about the past.
  ghost predicate Extends(s: Net, s': Net) {
    && |s'.nodes| == |s.nodes|
    && forall n | 0 <= n < |s.nodes| ::
         && (forall id | id in s.nodes[n].tracked ::
               id in s'.nodes[n].tracked && s'.nodes[n].tracked[id] == s.nodes[n].tracked[id])
         && s.nodes[n].receiver.okRuns <= s'.nodes[n].receiver.okRuns
  }

  lemma PastKept(s: Net, s': Net)
    requires Extends(s, s')
    ensures forall n, dst, frame :: Owned(s, n, dst, frame) ==> Owned(s', n, dst, frame)
    ensures forall d, frame :: Handled(s, d, frame) ==> Handled(s', d, frame)
  {
  }

  lemma OneExtends(s: Net, s': Net, n: nat)
    requires n < |s.nodes| == |s'.nodes| && s'.nodes == s.nodes[n := s'.nodes[n]]
    requires forall id | id in s.nodes[n].tracked ::
               id in s'.nodes[n].tracked && s'.nodes[n].tracked[id] == s.nodes[n].tracked[id]
    requires s.nodes[n].receiver.okRuns <= s'.nodes[n].receiver.okRuns
    ensures Extends(s, s')
  {
  }

  // What holds of a node whose part of the state stays the same.
  lemma SenderKept(s: Net, s': Net, n: nat, node: Node)
    requires Extends(s, s') && SenderOk(s, n, node)
    ensures SenderOk(s', n, node)
  {
    PastKept(s, s');
    hide Extends, Owned, Handled;
    forall job | job in node.jobs ensures JobOk(s', n, job) {
      assert JobOk(s, n, job);
    }
  }

  lemma ReceiverKept(s: Net, s': Net, n: nat, node: Node)
    requires Extends(s, s') && ReceiverOk(s, n, node)
    ensures ReceiverOk(s', n, node)
  {
    PastKept(s, s');
    hide Extends, Owned, Handled, D.Inv;
  }

  // One node changed, the rest of the invariant follows from its own.
  lemma OneNode(s: Net, s': Net, n: nat)
    requires Inv(s) && Extends(s, s') && n < |s.nodes|
    requires s'.nodes == s.nodes[n := s'.nodes[n]]
    requires SenderOk(s', n, s'.nodes[n]) && ReceiverOk(s', n, s'.nodes[n])
    requires s'.broken <= s'.links
    requires forall x | x in s'.frames && x !in s.frames :: Routed(s', x.0, x.1)
    requires forall x | x in s'.acks && x !in s.acks ::
               Routed(s', x.0, D.Key(x.0.src, x.1)) && Handled(s', x.0.dst, D.Key(x.0.src, x.1))
    ensures Inv(s')
  {
    hide SenderOk, ReceiverOk;
    forall m | 0 <= m < |s'.nodes| ensures SenderOk(s', m, s'.nodes[m]) && ReceiverOk(s', m, s'.nodes[m]) {
      if m != n {
        SenderKept(s, s', m, s.nodes[m]);
        ReceiverKept(s, s', m, s.nodes[m]);
      }
    }
    PastKept(s, s');
    hide Extends, Owned, Handled;
  }

  // ---- every step keeps it: the sender ------------------------------------------------

  lemma PutOk(s: Net, n: nat, t: U.Table<Frame>, dst: nat, frame: Frame, now: nat)
    requires TableOk(s, n, t) && Owned(s, n, dst, frame)
    ensures TableOk(s, n, U.Put(t, dst, frame.msgId, frame, now))
  {
  }

  lemma ChangesOk(s: Net, n: nat, node: Node, job: Job)
    requires SenderOk(s, n, node) && job in node.jobs
    ensures TableOk(s, n, Changes(node, job)) && node.table.Keys <= Changes(node, job).Keys
  {
    hide Owned, Handled;
    assert JobOk(s, n, job);
    if job.Flush? {
      PutOk(s, n, node.table, job.link.dst, job.frame, node.now);
    }
  }

  lemma NextOk(s: Net, n: nat, node: Node, job: Job)
    requires SenderOk(s, n, node) && job in node.jobs
    ensures forall j | j in Next(s, node, job) :: JobOk(s, n, j)
  {
    hide Owned, Handled;
    assert JobOk(s, n, job);
  }

  lemma RanOk(s: Net, n: nat, node: Node, job: Job)
    requires SenderOk(s, n, node) && job in node.jobs
    ensures SenderOk(s, n, Ran(s, node, job))
  {
    ChangesOk(s, n, node, job);
    NextOk(s, n, node, job);
    hide Owned, Handled, TableOk, JobOk, Changes, Next;
  }

  lemma PostsOk(s: Net, n: nat, job: Job)
    requires n < |s.nodes| && SenderOk(s, n, s.nodes[n]) && job in s.nodes[n].jobs
    ensures forall x | x in Posts(s, n, job) :: Routed(s, x.0, x.1)
  {
    hide Owned, Handled;
    assert JobOk(s, n, job);
  }

  lemma TrackedOk(s: Net, n: nat, node: Node, dst: nat, frame: Frame)
    requires SenderOk(s, n, node) && Owned(s, n, dst, frame)
    ensures SenderOk(s, n, Tracked(node, dst, frame))
  {
    PutOk(s, n, node.table, dst, frame, node.now);
    hide Owned, Handled, TableOk;
  }

  lemma ScanOk(s: Net, n: nat, node: Node)
    requires SenderOk(s, n, node)
    ensures TableOk(s, n, U.Restart(node.table, node.now, s.limit))
    ensures forall j | j in Timeouts(node.table, node.now, s.limit) :: JobOk(s, n, j)
  {
    hide Owned, Handled;
  }

  lemma ChosenOk(s: Net, n: nat, node: Node, job: Job, conn: Option<Link>, room: bool)
    requires SenderOk(s, n, node) && job in node.jobs && job.Send?
    requires conn.Some? ==> conn.value.src == n && conn.value.dst == job.dst
    ensures SenderOk(s, n, Chosen(node, job, conn, room))
  {
    hide Owned, Handled, TableOk, PoolOk;
    assert JobOk(s, n, job);
  }

  lemma RoundOk(s: Net, n: nat, node: Node, dst: nat)
    requires SenderOk(s, n, node) && dst in node.pool
    ensures forall j | j in Resends(node.table, node.pool[dst]) :: JobOk(s, n, j)
  {
    hide Owned, Handled;
  }

  // The events of the sender that change no entry of the table.
  lemma LocalOk(s: Net, n: nat, e: Event)
    requires n < |s.nodes| && SenderOk(s, n, s.nodes[n]) && Takes(s, e) && Sends(e) && Sender(e) == n
    requires !e.Track? && !e.AckArrives? && !e.Run? && !e.Scan? && !e.Retry? && !e.Choose?
    ensures SenderOk(s, n, SenderStep(s, n, e))
  {
    if e.Round? {
      RoundOk(s, n, s.nodes[n], e.dst);
    }
    hide Owned, Handled, TableOk, Resends;
  }

  lemma SenderStepOk(s: Net, n: nat, e: Event)
    requires n < |s.nodes| && SenderOk(s, n, s.nodes[n]) && Takes(s, e) && Sends(e) && Sender(e) == n
    requires !e.Track? && !e.AckArrives?
    ensures SenderOk(s, n, SenderStep(s, n, e))
  {
    var node := s.nodes[n];
    if e.Run? {
      RanOk(s, n, node, e.job);
    } else if e.Scan? {
      ScanOk(s, n, node);
      hide Owned, Handled, TableOk, JobOk;
    } else if e.Retry? {
      TrackedOk(s, n, node, node.tracked[e.id], D.Key(n, e.id));
    } else if e.Choose? {
      ChosenOk(s, n, node, e.job, e.conn, e.room);
    } else {
      LocalOk(s, n, e);
    }
  }

  lemma SenderStepKeeps(s: Net, n: nat, e: Event)
    requires n < |s.nodes| && Takes(s, e) && !e.Track?
    ensures var node := SenderStep(s, n, e);
            node.tracked == s.nodes[n].tracked && node.receiver == s.nodes[n].receiver
            && node.mailbox == s.nodes[n].mailbox
  {
  }

  lemma StepSend(s: Net, e: Event)
    requires Inv(s) && Takes(s, e) && Sends(e) && !e.Track? && !e.AckArrives?
    ensures Inv(Step(s, e)) && Extends(s, Step(s, e))
  {
    hide SenderOk, ReceiverOk, SenderStep, Posts;
    var s', n := Step(s, e), Sender(e);
    SenderStepOk(s, n, e);
    SenderStepKeeps(s, n, e);
    SenderKept(s, s', n, s'.nodes[n]);
    ReceiverSame(s, s', n);
    if e.Run? {
      PostsOk(s, n, e.job);
    }
    PastKept(s, s');
    OneNode(s, s', n);
  }

  lemma ReceiverSame(s: Net, s': Net, n: nat)
    requires Extends(s, s') && n < |s.nodes| && ReceiverOk(s, n, s.nodes[n])
    requires s'.nodes[n].receiver == s.nodes[n].receiver && s'.nodes[n].mailbox == s.nodes[n].mailbox
    ensures ReceiverOk(s', n, s'.nodes[n])
  {
    ReceiverKept(s, s', n, s.nodes[n]);
  }

  lemma FirstTrackOk(s: Net, n: nat, node: Node, dst: nat, node': Node)
    requires n < |s.nodes| && dst < |s.nodes| && SenderOk(s, n, node)
    requires node' == node.(nextId := node.nextId + 1, tracked := node.tracked[node.nextId := dst])
    requires Owned(s, n, dst, D.Key(n, node.nextId))
    ensures SenderOk(s, n, Tracked(node', dst, D.Key(n, node.nextId)))
  {
    PutOk(s, n, node.table, dst, D.Key(n, node.nextId), node.now);
    hide Owned, Handled, TableOk;
  }

  lemma FreshId(s: Net, n: nat)
    requires Inv(s) && n < |s.nodes|
    ensures s.nodes[n].nextId !in s.nodes[n].tracked
  {
    assert SenderOk(s, n, s.nodes[n]);
  }

  lemma StepTrack(s: Net, e: Event)
    requires Inv(s) && Takes(s, e) && e.Track?
    ensures Inv(Step(s, e)) && Extends(s, Step(s, e))
  {
    var s', n, node := Step(s, e), e.n, s.nodes[e.n];
    hide ReceiverOk, SenderOk, Extends, TableOk;
    FreshId(s, n);
    OneExtends(s, s', n);
    SenderKept(s, s', n, node);
    ReceiverSame(s, s', n);
    var node' := node.(nextId := node.nextId + 1, tracked := node.tracked[node.nextId := e.dst]);
    FirstTrackOk(s', n, node, e.dst, node');
    OneNode(s, s', n);
  }

  lemma AckOk(s: Net, n: nat, node: Node, id: nat)
    requires SenderOk(s, n, node)
    requires id in node.tracked ==> Handled(s, node.tracked[id], D.Key(n, id))
    ensures SenderOk(s, n, node.(table := U.Ack(node.table, id)))
  {
    hide Owned, Handled;
  }

  lemma StepAck(s: Net, e: Event)
    requires Inv(s) && Takes(s, e) && e.AckArrives?
    ensures Inv(Step(s, e)) && Extends(s, Step(s, e))
  {
    hide SenderOk, ReceiverOk;
    var s', n, key := Step(s, e), e.link.src, D.Key(e.link.src, e.id);
    assert Handled(s, e.link.dst, key) && Routed(s, e.link, key);
    AckOk(s, n, s.nodes[n], e.id);
    SenderKept(s, s', n, s'.nodes[n]);
    ReceiverSame(s, s', n);
    OneNode(s, s', n);
  }

  // ---- every step keeps it: the receiver ------------------------------------------------

  lemma SenderSame(s: Net, s': Net, n: nat)
    requires Extends(s, s') && n < |s.nodes| && SenderOk(s, n, s.nodes[n])
    requires s'.nodes[n] == s.nodes[n].(receiver := s'.nodes[n].receiver, mailbox := s'.nodes[n].mailbox)
    ensures SenderOk(s', n, s'.nodes[n])
  {
    SenderKept(s, s', n, s.nodes[n]);
    hide Owned, Handled;
    forall job | job in s'.nodes[n].jobs ensures JobOk(s', n, job) {
      assert JobOk(s', n, job);
    }
  }

  lemma CompletedHandled(r: D.Receiver<Link>, frame: Frame)
    requires D.Inv(r) && D.IsCompleted(r.table, frame)
    ensures frame in r.okRuns
  {
    assert r.okRuns[frame] >= 1;
  }

  lemma Enveloped(s: Net, d: nat, node: Node, frame: Frame, link: Link)
    requires ReceiverOk(s, d, node) && link.dst == d && Routed(s, link, frame)
    ensures ReceiverOk(s, d, node.(mailbox := node.mailbox + [(frame, link)]))
  {
    hide Routed, D.Inv;
  }

  lemma ReceiverFacts(s: Net, n: nat)
    requires Inv(s) && n < |s.nodes|
    ensures D.Inv(s.nodes[n].receiver)
    ensures var m := s.nodes[n].mailbox; forall i | 0 <= i < |m| :: CameBy(s, n, m[i])
    ensures var r := s.nodes[n].receiver.running; forall i | 0 <= i < |r| :: CameBy(s, n, r[i])
  {
    assert ReceiverOk(s, n, s.nodes[n]);
  }

  lemma RoutedBy(s: Net, link: Link, frame: Frame)
    requires Routed(s, link, frame)
    ensures frame == D.Key(link.src, frame.msgId)
  {
  }

  lemma StepReceive(s: Net, e: Event)
    requires Inv(s) && Takes(s, e) && e.Receive?
    ensures Inv(Step(s, e)) && Extends(s, Step(s, e))
  {
    hide ReceiverOk, SenderOk, D.Inv, D.IsCompleted, Extends, Owned;
    var s', d := Step(s, e), e.link.dst;
    assert Routed(s, e.link, e.frame);
    ReceiverFacts(s, d);
    if D.IsCompleted(s.nodes[d].receiver.table, e.frame) {
      CompletedHandled(s.nodes[d].receiver, e.frame);
      RoutedBy(s, e.link, e.frame);
    }
    OneExtends(s, s', d);
    Enveloped(s, d, s.nodes[d], e.frame, e.link);
    ReceiverKept(s, s', d, s'.nodes[d]);
    SenderSame(s, s', d);
    PastKept(s, s');
    OneNode(s, s', d);
  }

  lemma Begins(r: D.Receiver<Link>, frame: Frame, link: Link)
    requires D.Inv(r)
    ensures var r' := D.BeginStep(r, frame, link);
            && D.Inv(r') && r'.okRuns == r.okRuns
            && (forall j | 0 <= j < |r'.running| ::
                  (j < |r.running| && r'.running[j] == r.running[j]) || r'.running[j] == (frame, link))
    ensures D.Claim(r.cap, r.table, frame).0 == D.AlreadyCompleted ==> frame in r.okRuns
  {
    D.BeginInv(r, frame, link);
    if D.IsCompleted(r.table, frame) {
      CompletedHandled(r, frame);
    }
  }

  // The node after it dispatched its i-th envelope.
  lemma Dispatched(s: Net, n: nat, node: Node, i: nat)
    requires ReceiverOk(s, n, node) && i < |node.mailbox|
    ensures var (frame, link) := node.mailbox[i];
            ReceiverOk(s, n, node.(mailbox := DropAt(node.mailbox, i),
                                   receiver := D.BeginStep(node.receiver, frame, link)))
  {
    var (frame, link) := node.mailbox[i];
    Begins(node.receiver, frame, link);
    hide D.Inv, D.BeginStep, CameBy, DropAt;
    assert CameBy(s, n, (frame, link));
  }

  lemma StepDispatch(s: Net, e: Event)
    requires Inv(s) && Takes(s, e) && e.Dispatch?
    ensures Inv(Step(s, e)) && Extends(s, Step(s, e))
  {
    var s', n, node := Step(s, e), e.n, s.nodes[e.n];
    hide ReceiverOk, SenderOk, D.Inv, D.BeginStep, D.Claim, Extends, Owned, Routed, DropAt;
    var (frame, link) := node.mailbox[e.i];
    ReceiverFacts(s, n);
    assert CameBy(s, n, node.mailbox[e.i]);
    RoutedBy(s, link, frame);
    Begins(node.receiver, frame, link);
    Dispatched(s, n, node, e.i);
    OneExtends(s, s', n);
    ReceiverKept(s, s', n, s'.nodes[n]);
    SenderSame(s, s', n);
    PastKept(s, s');
    OneNode(s, s', n);
  }

  lemma Ended(s: Net, n: nat, node: Node, i: nat, result: D.Delivered)
    requires ReceiverOk(s, n, node) && i < |node.receiver.running|
    ensures ReceiverOk(s, n, node.(receiver := D.EndStep(node.receiver, i, result)))
  {
    D.EndInv(node.receiver, i, result);
    hide D.Inv, CameBy, DropAt;
  }

  lemma Returns(r: D.Receiver<Link>, i: nat, result: D.Delivered)
    requires i < |r.running|
    ensures r.okRuns <= D.EndStep(r, i, result).okRuns
    ensures result != D.Threw ==> r.running[i].0 in D.EndStep(r, i, result).okRuns
  {
  }

  lemma StepFinish(s: Net, e: Event)
    requires Inv(s) && Takes(s, e) && e.Finish?
    ensures Inv(Step(s, e)) && Extends(s, Step(s, e))
  {
    var s', n, node := Step(s, e), e.n, s.nodes[e.n];
    hide ReceiverOk, SenderOk, D.Inv, D.EndStep, Extends, Owned, Routed, DropAt;
    ReceiverFacts(s, n);
    var (frame, link) := node.receiver.running[e.i];
    assert CameBy(s, n, node.receiver.running[e.i]);
    RoutedBy(s, link, frame);
    Ended(s, n, node, e.i, e.result);
    Returns(node.receiver, e.i, e.result);
    OneExtends(s, s', n);
    ReceiverKept(s, s', n, s'.nodes[n]);
    SenderSame(s, s', n);
    PastKept(s, s');
    OneNode(s, s', n);
  }

  lemma StepInv(s: Net, e: Event)
    requires Inv(s)
    ensures Inv(Apply(s, e)) && Extends(s, Apply(s, e))
  {
    hide Inv;
    if !Takes(s, e) {
    } else if e.Track? {
      StepTrack(s, e);
    } else if e.AckArrives? {
      StepAck(s, e);
    } else if e.Receive? {
      StepReceive(s, e);
    } else if e.Dispatch? {
      StepDispatch(s, e);
    } else if e.Finish? {
      StepFinish(s, e);
    } else {
      StepSend(s, e);
    }
  }

  ghost function Exec(s: Net, es: seq<Event>): (s': Net)
    requires Inv(s)
    ensures Inv(s') && Extends(s, s')
    decreases |es|
  {
    if es == [] then s
    else
      StepInv(s, es[0]);
      Exec(Apply(s, es[0]), es[1..])
  }

  // ---- what delivery promises -----------------------------------------------------

  // In every run, a tracked message leaves the unacked table only after its
  // destination's handler returned ok or dead_letter for it at least once.
  lemma AckedMeansHandled(nodes: nat, limit: nat, cap: nat, es: seq<Event>, n: nat, id: nat)
    requires n < nodes
    ensures Inv(Init(nodes, limit, cap))
    ensures var s := Exec(Init(nodes, limit, cap), es);
            n < |s.nodes| &&
            (id in s.nodes[n].tracked && id !in s.nodes[n].table ==>
               Handled(s, s.nodes[n].tracked[id], D.Key(n, id)))
  {
    InitInv(nodes, limit, cap);
    var s := Exec(Init(nodes, limit, cap), es);
    assert SenderOk(s, n, s.nodes[n]);
  }

  // An ack for the frame has been posted to its sender.
  ghost predicate AckPosted(s: Net, d: nat, frame: Frame) {
    exists x :: x in s.acks && x.0.src == frame.sender && x.0.dst == d && x.1 == frame.msgId
  }

  ghost predicate Answered(s: Net) {
    forall d | 0 <= d < |s.nodes| :: forall frame | frame in s.nodes[d].receiver.okRuns :: AckPosted(s, d, frame)
  }

  lemma AckStays(s: Net, s': Net, d: nat, frame: Frame)
    requires s.acks <= s'.acks && AckPosted(s, d, frame)
    ensures AckPosted(s', d, frame)
  {
  }

  // Acks stay posted, and only a handler that returns adds a handled frame.
  lemma StepKeepsAcks(s: Net, e: Event)
    requires Inv(s) && Takes(s, e)
    ensures s.acks <= Step(s, e).acks && |Step(s, e).nodes| == |s.nodes|
    ensures !e.Finish? ==> forall d | 0 <= d < |s.nodes| ::
                             Step(s, e).nodes[d].receiver.okRuns == s.nodes[d].receiver.okRuns
  {
    hide Inv, SenderStep, Posts, D.Claim, D.IsCompleted;
    if e.Dispatch? {
      BeginKeepsRuns(s.nodes[e.n].receiver, s.nodes[e.n].mailbox[e.i].0, s.nodes[e.n].mailbox[e.i].1);
    } else if Sends(e) && Sender(e) < |s.nodes| {
      SenderKeepsRuns(s, e);
    }
  }

  lemma BeginKeepsRuns(r: D.Receiver<Link>, frame: Frame, link: Link)
    ensures D.BeginStep(r, frame, link).okRuns == r.okRuns
  {
  }

  lemma SenderKeepsRuns(s: Net, e: Event)
    requires Takes(s, e) && Sends(e) && Sender(e) < |s.nodes|
    ensures SenderStep(s, Sender(e), e).receiver == s.nodes[Sender(e)].receiver
  {
  }

  lemma FinishAnswers(s: Net, e: Event)
    requires Inv(s) && Takes(s, e) && e.Finish? && Answered(s)
    ensures Answered(Step(s, e))
  {
    var s', n := Step(s, e), e.n;
    ReceiverFacts(s, n);
    var (frame, link) := s.nodes[n].receiver.running[e.i];
    assert CameBy(s, n, s.nodes[n].receiver.running[e.i]);
    hide Inv;
    forall d | 0 <= d < |s'.nodes|, f | f in s'.nodes[d].receiver.okRuns ensures AckPosted(s', d, f) {
      if d == n && f == frame && e.result != D.Threw {
        assert (link, frame.msgId) in s'.acks;
      } else {
        assert f in s.nodes[d].receiver.okRuns;
        AckStays(s, s', d, f);
      }
    }
  }

  lemma StepAnswers(s: Net, e: Event)
    requires Inv(s) && Answered(s)
    ensures Answered(Apply(s, e))
  {
    if Takes(s, e) {
      if e.Finish? {
        FinishAnswers(s, e);
      } else {
        StepKeepsAcks(s, e);
        hide Inv, Step, AckPosted;
        forall d | 0 <= d < |s.nodes|, frame | frame in s.nodes[d].receiver.okRuns
          ensures AckPosted(Step(s, e), d, frame)
        {
          AckStays(s, Step(s, e), d, frame);
        }
      }
    }
  }

  lemma {:induction false} RunAnswers(s: Net, es: seq<Event>)
    requires Inv(s) && Answered(s)
    ensures Answered(Exec(s, es))
    decreases |es|
  {
    hide Inv, Answered, Apply;
    if es != [] {
      StepInv(s, es[0]);
      StepAnswers(s, es[0]);
      RunAnswers(Apply(s, es[0]), es[1..]);
    }
  }

  // In every run, a message whose handler returned ok or dead_letter has been
  // acknowledged to the node that sent it.
  lemma HandledMeansAcked(nodes: nat, limit: nat, cap: nat, es: seq<Event>, d: nat, frame: Frame)
    requires d < nodes
    ensures Inv(Init(nodes, limit, cap))
    ensures var s := Exec(Init(nodes, limit, cap), es);
            d < |s.nodes| && (frame in s.nodes[d].receiver.okRuns ==> AckPosted(s, d, frame))
  {
    InitInv(nodes, limit, cap);
    RunAnswers(Init(nodes, limit, cap), es);
  }
}
