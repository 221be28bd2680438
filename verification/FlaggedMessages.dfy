// Where the resend flag keeps a message waiting: on a connection that is up, with
// its recovery over and no job under way that helps it, only another break gets
// it posted again.
module FlaggedMessages {
  import opened Prelude
  import opened Delivery
  import opened DeliveryProgress
  import D = Dedup
  import U = UnackedTable

  // Message id waits for a resend, while the connection to its node is up, no
  // recovery of it runs, and no job under way helps it.
  ghost predicate Stranded(s: Net, n: nat, dst: nat, id: nat) {
    n < |s.nodes| && Pooled(s, n, dst) && Waits(s, n, s.nodes[n], dst, id)
  }

  // The parts of it that a node's own state shows.
  ghost predicate Waits(s: Net, n: nat, node: Node, dst: nat, id: nat) {
    && id in node.tracked && node.tracked[id] == dst
    && (id in node.table ==> node.table[id].needsResend)
    && dst !in node.recovering && dst in node.pool && Helpless(s, n, node, dst, id)
  }

  ghost predicate Helpless(s: Net, n: nat, node: Node, dst: nat, id: nat) {
    forall job | job in node.jobs :: !Helps(s, n, node.buffered, dst, id, job)
  }

  // The connection breaks, or a caller sends the message again.
  predicate Rescues(e: Event, n: nat, dst: nat, id: nat) {
    e == Retry(n, id) || (e.Break? && e.link.src == n && e.link.dst == dst)
  }

  lemma SenderFacts(s: Net, n: nat)
    requires Inv(s) && n < |s.nodes|
    ensures TableOk(s, n, s.nodes[n].table) && PoolOk(n, s.nodes[n].pool)
    ensures s.nodes[n].nextId !in s.nodes[n].tracked
    ensures forall job | job in s.nodes[n].jobs :: JobOk(s, n, job)
    ensures forall x | x in s.nodes[n].buffered :: Delivery.Owned(s, n, x.0, x.1)
  {
    assert SenderOk(s, n, s.nodes[n]);
  }

  lemma NextHelpless(s: Net, n: nat, dst: nat, id: nat, job: Job)
    requires Inv(s) && Stranded(s, n, dst, id) && job in s.nodes[n].jobs
    ensures forall j | j in Next(s, s.nodes[n], job) :: !Helps(s, n, s.nodes[n].buffered, dst, id, j)
  {
    hide Inv, Resends, Pooled, Up, TableOk;
    SenderFacts(s, n);
    assert JobOk(s, n, job);
    assert !Helps(s, n, s.nodes[n].buffered, dst, id, job);
    if job.Resume? {
      ResendsElsewhere(s, n, job.link, dst, id);
    }
  }

  lemma ResendsElsewhere(s: Net, n: nat, link: Link, dst: nat, id: nat)
    requires n < |s.nodes| && TableOk(s, n, s.nodes[n].table) && (link.dst != dst || !Up(s, link))
    requires id in s.nodes[n].tracked && s.nodes[n].tracked[id] == dst
    ensures forall j | j in Resends(s.nodes[n].table, link) :: !Helps(s, n, s.nodes[n].buffered, dst, id, j)
  {
    hide Up;
  }

  lemma TimeoutsElsewhere(s: Net, n: nat, dst: nat, id: nat)
    requires n < |s.nodes| && TableOk(s, n, s.nodes[n].table)
    requires id in s.nodes[n].table ==> s.nodes[n].table[id].needsResend
    ensures forall j | j in Timeouts(s.nodes[n].table, s.nodes[n].now, s.limit) ::
              !Helps(s, n, s.nodes[n].buffered, dst, id, j)
  {
  }

  lemma GainsKeep(s: Net, n: nat, node: Node, more: set<Job>, dst: nat, id: nat)
    requires Waits(s, n, node, dst, id) && forall j | j in more :: !Helps(s, n, node.buffered, dst, id, j)
    ensures Waits(s, n, node.(jobs := node.jobs + more), dst, id)
  {
    hide Helps;
  }

  lemma ScanKeeps(s: Net, n: nat, dst: nat, id: nat)
    requires n < |s.nodes| && TableOk(s, n, s.nodes[n].table) && Waits(s, n, s.nodes[n], dst, id)
    ensures Waits(s, n, SenderStep(s, n, Scan(n)), dst, id)
  {
    TimeoutsElsewhere(s, n, dst, id);
    GainsKeep(s, n, s.nodes[n], Timeouts(s.nodes[n].table, s.nodes[n].now, s.limit), dst, id);
    hide Timeouts, Helpless;
    HelplessBy(s, n, s.nodes[n].(jobs := s.nodes[n].jobs + Timeouts(s.nodes[n].table, s.nodes[n].now, s.limit)),
               SenderStep(s, n, Scan(n)), dst, id);
  }

  lemma HelplessBy(s: Net, n: nat, node: Node, node': Node, dst: nat, id: nat)
    requires Helpless(s, n, node, dst, id) && node'.jobs == node.jobs && node'.buffered == node.buffered
    ensures Helpless(s, n, node', dst, id)
  {
  }

  lemma TrackKeeps(s: Net, n: nat, node: Node, d: nat, frame: Frame, dst: nat, id: nat)
    requires Waits(s, n, node, dst, id) && frame.msgId != id
    ensures Waits(s, n, Tracked(node, d, frame), dst, id)
  {
    GainsKeep(s, n, node, {Send(d, frame)}, dst, id);
    hide Helps;
    HelplessBy(s, n, node.(jobs := node.jobs + {Send(d, frame)}), Tracked(node, d, frame), dst, id);
  }

  lemma ChooseKeeps(s: Net, n: nat, node: Node, job: Job, conn: Option<Link>, room: bool, dst: nat, id: nat)
    requires Waits(s, n, node, dst, id) && job in node.jobs && job.Send?
    ensures Waits(s, n, Chosen(node, job, conn, room), dst, id)
  {
    hide Up;
    assert !Helps(s, n, node.buffered, dst, id, job);
  }

  lemma RunKeeps(s: Net, n: nat, dst: nat, id: nat, job: Job)
    requires Inv(s) && Stranded(s, n, dst, id) && job in s.nodes[n].jobs
    ensures Waits(s, n, Ran(s, s.nodes[n], job), dst, id)
  {
    NextHelpless(s, n, dst, id, job);
    hide Inv, Next, Pooled, Up;
    assert !Helps(s, n, s.nodes[n].buffered, dst, id, job);
    RunKeepsJobs(s, n, s.nodes[n], dst, id, job);
    hide Helpless;
  }

  lemma RunKeepsJobs(s: Net, n: nat, node: Node, dst: nat, id: nat, job: Job)
    requires Helpless(s, n, node, dst, id)
    requires forall j | j in Next(s, node, job) :: !Helps(s, n, node.buffered, dst, id, j)
    ensures Helpless(s, n, Ran(s, node, job), dst, id)
  {
    hide Next, Helps, Changes;
    forall j | j in Ran(s, node, job).jobs ensures !Helps(s, n, Ran(s, node, job).buffered, dst, id, j) {
      FewerBuffered(s, n, node.buffered, Ran(s, node, job).buffered, dst, id, j);
    }
  }

  lemma FewerBuffered(s: Net, n: nat, more: set<(nat, Frame)>, fewer: set<(nat, Frame)>, dst: nat, id: nat, job: Job)
    requires fewer <= more && !Helps(s, n, more, dst, id, job)
    ensures !Helps(s, n, fewer, dst, id, job)
  {
    hide Up;
  }

  lemma PlainKeeps(s: Net, n: nat, dst: nat, id: nat, e: Event)
    requires n < |s.nodes| && Waits(s, n, s.nodes[n], dst, id) && Takes(s, e) && Sender(e) == n
    requires !Rescues(e, n, dst, id) && Pooled(s, n, dst)
    requires e.Break? || e.Connect? || e.Settled? || e.Tick? || e.AckArrives?
    ensures Waits(s, n, SenderStep(s, n, e), dst, id)
  {
    if e.Break? {
      GainsKeep(s, n, s.nodes[n], {Died(e.link.dst)}, dst, id);
    } else if e.Connect? {
      GainsKeep(s, n, s.nodes[n], {Joined(Link(n, e.dst, e.serial))}, dst, id);
    } else {
      hide Helps;
    }
  }

  lemma SenderKeepsStranded(s: Net, n: nat, dst: nat, id: nat, e: Event)
    requires Inv(s) && Stranded(s, n, dst, id) && Takes(s, e) && Sends(e) && Sender(e) == n && !Rescues(e, n, dst, id)
    ensures Waits(s, n, SenderStep(s, n, e), dst, id)
  {
    hide Inv, Resends, Helps, Helpless, TableOk, U.Put, U.Restart, U.Ack, Up;
    SenderFacts(s, n);
    var node := s.nodes[n];
    match e
    case Track(_, d) =>
      var node1 := node.(nextId := node.nextId + 1, tracked := node.tracked[node.nextId := d]);
      HelplessBy(s, n, node, node1, dst, id);
      TrackKeeps(s, n, node1, d, D.Key(n, node.nextId), dst, id);
    case Retry(_, i) => TrackKeeps(s, n, node, node.tracked[i], D.Key(n, i), dst, id);
    case Choose(_, job, conn, room) => ChooseKeeps(s, n, node, job, conn, room, dst, id);
    case Run(_, job) => RunKeeps(s, n, dst, id, job);
    case Scan(_) => ScanKeeps(s, n, dst, id);
    case Round(_, d) =>
      ResendsElsewhere(s, n, node.pool[d], dst, id);
      GainsKeep(s, n, node, Resends(node.table, node.pool[d]), dst, id);
    case _ => PlainKeeps(s, n, dst, id, e);
  }

  lemma SenderKeepsPool(s: Net, n: nat, dst: nat, id: nat, e: Event)
    requires Stranded(s, n, dst, id) && Takes(s, e) && Sends(e) && Sender(e) == n
    ensures var node := SenderStep(s, n, e); dst in node.pool && node.pool[dst] == s.nodes[n].pool[dst]
  {
    hide Next, Changes, Resends, Timeouts, U.Restart;
    if e.Run? {
      assert !Helps(s, n, s.nodes[n].buffered, dst, id, e.job);
    }
  }

  // No step of anybody posts the message.
  lemma NobodyPosts(s: Net, e: Event, n: nat, dst: nat, id: nat)
    requires Inv(s) && Stranded(s, n, dst, id)
    ensures !PostsNow(s, e, D.Key(n, id))
  {
    hide Inv, TableOk, PoolOk, Up;
    if e.Run? && Takes(s, e) {
      SenderFacts(s, e.n);
      assert JobOk(s, e.n, e.job);
      if e.n == n {
        assert !Helps(s, n, s.nodes[n].buffered, dst, id, e.job);
      }
    }
  }

  lemma PoolsOwn(s: Net, n: nat, dst: nat)
    requires Inv(s) && Pooled(s, n, dst)
    ensures s.nodes[n].pool[dst].src == n && s.nodes[n].pool[dst].dst == dst
  {
    assert SenderOk(s, n, s.nodes[n]);
  }

  // Connections from n to dst only go down while one is pooled; a job that looks
  // at one is of no more help then.
  ghost predicate Lowered(s: Net, s': Net, n: nat, dst: nat) {
    forall link: Link | link.src == n && link.dst == dst && Up(s', link) :: Up(s, link)
  }

  lemma StepLowers(s: Net, n: nat, dst: nat, e: Event)
    requires Pooled(s, n, dst)
    ensures Lowered(s, Apply(s, e), n, dst)
  {
    hide SenderStep, Posts, D.Claim, D.BeginStep, D.EndStep, D.IsCompleted;
  }

  lemma StillHelpless(s: Net, s': Net, n: nat, node: Node, dst: nat, id: nat)
    requires Lowered(s, s', n, dst) && Helpless(s, n, node, dst, id)
    requires id in node.tracked && node.tracked[id] == dst
    requires n < |s'.nodes| && node.tracked == s'.nodes[n].tracked && forall job | job in node.jobs :: JobOk(s', n, job)
    ensures Helpless(s', n, node, dst, id)
  {
    hide Up;
    forall job | job in node.jobs ensures !Helps(s', n, node.buffered, dst, id, job) {
      assert !Helps(s, n, node.buffered, dst, id, job) && JobOk(s', n, job);
    }
  }

  lemma StepKeepsStranded(s: Net, n: nat, dst: nat, id: nat, e: Event)
    requires Inv(s) && Stranded(s, n, dst, id) && !Rescues(e, n, dst, id)
    ensures Inv(Apply(s, e)) && Stranded(Apply(s, e), n, dst, id)
  {
    StepInv(s, e);
    hide Inv, SenderStep, Helpless, Extends, D.Claim, D.BeginStep, D.EndStep, D.IsCompleted;
    PoolsOwn(s, n, dst);
    if Takes(s, e) {
      var s' := Apply(s, e);
      StepLowers(s, n, dst, e);
      SenderFacts(s', n);
      if Sends(e) && Sender(e) == n {
        SenderKeepsStranded(s, n, dst, id, e);
        SenderKeepsPool(s, n, dst, id, e);
      } else {
        OthersKeepWaiting(s, n, dst, id, e);
      }
      StillHelpless(s, s', n, s'.nodes[n], dst, id);
      StaysPooled(s, n, dst, id, e);
    }
  }

  lemma OthersKeepWaiting(s: Net, n: nat, dst: nat, id: nat, e: Event)
    requires Stranded(s, n, dst, id) && Takes(s, e) && !(Sends(e) && Sender(e) == n)
    ensures Waits(s, n, Apply(s, e).nodes[n], dst, id)
    ensures Apply(s, e).nodes[n].pool == s.nodes[n].pool
  {
    hide SenderStep, Posts, Helps, D.Claim, D.BeginStep, D.EndStep, D.IsCompleted;
  }

  lemma StaysPooled(s: Net, n: nat, dst: nat, id: nat, e: Event)
    requires Pooled(s, n, dst) && s.nodes[n].pool[dst].src == n && s.nodes[n].pool[dst].dst == dst
    requires !Rescues(e, n, dst, id) && n < |Apply(s, e).nodes|
    requires dst in Apply(s, e).nodes[n].pool && Apply(s, e).nodes[n].pool[dst] == s.nodes[n].pool[dst]
    ensures Pooled(Apply(s, e), n, dst)
  {
    hide SenderStep, Posts, D.Claim, D.BeginStep, D.EndStep, D.IsCompleted;
  }

  // A flagged message whose connection is up, whose recovery has ended and which
  // no job helps is never posted again, in any run in which that connection does
  // not break and no caller sends it again: the timeout scan passes it over.
  lemma {:induction false} FlaggedWaits(s: Net, n: nat, dst: nat, id: nat, es: seq<Event>)
    requires Inv(s) && Stranded(s, n, dst, id)
    requires forall e | e in es :: !Rescues(e, n, dst, id)
    ensures Stranded(Exec(s, es), n, dst, id) && !EverPosts(s, es, D.Key(n, id))
    decreases |es|
  {
    hide Inv, Stranded, Apply, Rescues, PostsNow;
    if es != [] {
      var e := es[0];
      assert e in es;
      NobodyPosts(s, e, n, dst, id);
      StepKeepsStranded(s, n, dst, id, e);
      FlaggedWaits(Apply(s, e), n, dst, id, es[1..]);
    }
  }

  lemma StuckIsStranded(s: Net, n: nat, id: nat)
    requires Inv(s) && Stuck(s, n, id)
    ensures Stranded(s, n, s.nodes[n].table[id].node, id)
  {
    EntryFacts(s, n, id);
    hide Inv;
  }

  // Some run posts the message without another break to its node and without a
  // caller sending it again.
  ghost predicate Postable(s: Net, n: nat, dst: nat, id: nat)
    requires Inv(s)
  {
    exists es :: (forall e | e in es :: !Rescues(e, n, dst, id)) && EverPosts(s, es, D.Key(n, id))
  }

  // A tracked message can be posted again without another break or send exactly
  // if it is not flagged, has no connection up, is in recovery, or has a job
  // under way that helps it.
  lemma WaitsExactly(s: Net, n: nat, id: nat)
    requires Inv(s) && n < |s.nodes| && id in s.nodes[n].table
    ensures Postable(s, n, s.nodes[n].table[id].node, id) <==> !Stuck(s, n, id)
  {
    hide Inv, EverPosts;
    var dst := s.nodes[n].table[id].node;
    if Stuck(s, n, id) {
      StuckIsStranded(s, n, id);
      forall es | forall e | e in es :: !Rescues(e, n, dst, id) ensures !EverPosts(s, es, D.Key(n, id)) {
        FlaggedWaits(s, n, dst, id, es);
      }
    } else {
      var es := CanBePosted(s, n, id);
      assert forall e | e in es :: !Rescues(e, n, dst, id);
    }
  }
}
