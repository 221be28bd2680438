// From every reachable state some continuation gets a tracked message handled
// and acknowledged, through the resends the code has.
module DeliveryProgress {
  import opened Prelude
  import opened Delivery
  import D = Dedup
  import U = UnackedTable

  lemma Then(s: Net, e: Event, es: seq<Event>)
    requires Inv(s)
    ensures Inv(Apply(s, e)) && Exec(s, [e] + es) == Exec(Apply(s, e), es)
  {
    StepInv(s, e);
    assert ([e] + es)[1..] == es;
  }

  ghost predicate Acked(s: Net, n: nat, id: nat) {
    n < |s.nodes| && id !in s.nodes[n].table
  }

  // The destination can take the frame: it is unknown there and has a place, or
  // is already completed.
  ghost predicate Ready(s: Net, d: nat, frame: Frame) {
    d < |s.nodes| && Takable(s.nodes[d].receiver, frame)
  }

  ghost predicate Takable(r: D.Receiver<Link>, frame: Frame) {
    && (frame in r.table ==> r.table[frame] == D.Completed)
    && D.Claim(r.cap, r.table, frame).0 != D.Overflow
  }

  // The continuation does not count on a connection breaking.
  ghost predicate Unbroken(es: seq<Event>) {
    forall e | e in es :: !e.Break?
  }

  lemma AckReturns(s: Net, link: Link, id: nat) returns (es: seq<Event>)
    requires Inv(s) && (link, id) in s.acks && Up(s, link)
    ensures Acked(Exec(s, es), link.src, id) && Unbroken(es)
  {
    es := [AckArrives(link, id)];
    assert Routed(s, link, D.Key(link.src, id));
    hide Inv, Extends, SenderStep;
    Then(s, es[0], []);
    assert es == [es[0]] + [];
    Forgets(s, es[0]);
  }

  lemma Forgets(s: Net, e: Event)
    requires Takes(s, e) && e.AckArrives?
    ensures Acked(Apply(s, e), e.link.src, e.id)
  {
  }

  lemma RunIsAcked(s: Net, d: nat, i: nat, link: Link, frame: Frame) returns (es: seq<Event>)
    requires Inv(s) && d < |s.nodes| && i < |s.nodes[d].receiver.running|
    requires s.nodes[d].receiver.running[i] == (frame, link) && Up(s, link)
    ensures Acked(Exec(s, es), link.src, frame.msgId) && Unbroken(es)
  {
    hide Inv, Extends, D.EndStep;
    var e := Finish(d, i, D.Ok);
    Then(s, e, []);
    es := AckReturns(Apply(s, e), link, frame.msgId);
    Then(s, e, es);
    es := [e] + es;
  }

  lemma EnvelopeIsAcked(s: Net, d: nat, i: nat, link: Link, frame: Frame) returns (es: seq<Event>)
    requires Inv(s) && d < |s.nodes| && i < |s.nodes[d].mailbox|
    requires s.nodes[d].mailbox[i] == (frame, link) && Up(s, link)
    requires var r := s.nodes[d].receiver; D.Claim(r.cap, r.table, frame).0 == D.Fresh
    ensures Acked(Exec(s, es), link.src, frame.msgId) && Unbroken(es)
  {
    hide Inv, Extends, D.Claim;
    var e := Dispatch(d, i);
    Then(s, e, []);
    var s' := Apply(s, e);
    var last := |s'.nodes[d].receiver.running| - 1;
    es := RunIsAcked(s', d, last, link, frame);
    Then(s, e, es);
    es := [e] + es;
  }

  // A frame posted on a connection that is up gets acknowledged over it.
  lemma PostedIsAcked(s: Net, link: Link, frame: Frame) returns (es: seq<Event>)
    requires Inv(s) && (link, frame) in s.frames && Up(s, link) && Ready(s, link.dst, frame)
    ensures Acked(Exec(s, es), link.src, frame.msgId) && Unbroken(es)
  {
    hide Inv, Extends;
    var e, d := Receive(link, frame), link.dst;
    Then(s, e, []);
    var s' := Apply(s, e);
    if frame in s.nodes[d].receiver.table {
      es := AckReturns(s', link, frame.msgId);
    } else {
      es := EnvelopeIsAcked(s', d, |s.nodes[d].mailbox|, link, frame);
    }
    Then(s, e, es);
    es := [e] + es;
  }

  // Some step of the run posts the frame.
  ghost predicate EverPosts(s: Net, es: seq<Event>, frame: Frame)
    requires Inv(s)
    decreases |es|
  {
    && es != []
    && (PostsNow(s, es[0], frame)
        || (StepInv(s, es[0]); EverPosts(Apply(s, es[0]), es[1..], frame)))
  }

  ghost predicate PostsNow(s: Net, e: Event, frame: Frame) {
    e.Run? && Takes(s, e) && exists x :: x in Posts(s, e.n, e.job) && x.1 == frame
  }

  // The sender can post the frame by itself, over a connection to dst that is
  // still up then.
  ghost predicate Posting(s: Net, es: seq<Event>, frame: Frame, dst: nat)
    requires Inv(s)
  {
    && (forall e | e in es :: Sends(e) && !e.Retry? && !e.Break?)
    && EverPosts(s, es, frame)
    && exists link :: PostedOver(Exec(s, es), link, frame, dst)
  }

  ghost predicate PostedOver(s: Net, link: Link, frame: Frame, dst: nat) {
    link.src == frame.sender && link.dst == dst && (link, frame) in s.frames && Up(s, link)
  }

  lemma First(s: Net, e: Event, es: seq<Event>, frame: Frame, dst: nat)
    requires Inv(s) && Inv(Apply(s, e)) && Sends(e) && !e.Retry? && !e.Break?
    requires Posting(Apply(s, e), es, frame, dst)
    ensures Posting(s, [e] + es, frame, dst)
  {
    hide Inv, Apply, PostsNow, PostedOver;
    Then(s, e, es);
    assert ([e] + es)[1..] == es;
  }

  // A job that posts does so.
  lemma JobPosts(s: Net, n: nat, job: Job, link: Link, frame: Frame) returns (es: seq<Event>)
    requires Inv(s) && n == link.src == frame.sender < |s.nodes| && job in s.nodes[n].jobs
    requires (link, frame) in Posts(s, n, job) && Up(s, link)
    ensures Posting(s, es, frame, link.dst)
  {
    hide Inv, SenderStep;
    var e := Run(n, job);
    es := [e];
    Then(s, e, []);
    assert es == [e] + [];
    assert PostsNow(s, e, frame) by { assert (link, frame) in Posts(s, n, job); }
    assert PostedOver(Exec(s, es), link, frame, link.dst);
  }

  // What a sender does leaves the receivers alone.
  lemma Quiet(s: Net, e: Event, d: nat, frame: Frame)
    requires Sends(e) && Ready(s, d, frame)
    ensures Ready(Apply(s, e), d, frame)
  {
    hide D.Claim, SenderStep;
    if Takes(s, e) && Sender(e) == d {
      SenderKeepsReceiver(s, d, e);
    }
  }

  lemma SenderKeepsReceiver(s: Net, n: nat, e: Event)
    requires n < |s.nodes| && Takes(s, e)
    ensures SenderStep(s, n, e).receiver == s.nodes[n].receiver
  {
  }

  // The entry of a tracked message, and the connection pooled for its node.
  lemma EntryFacts(s: Net, n: nat, id: nat)
    requires Inv(s) && n < |s.nodes| && id in s.nodes[n].table
    ensures var item := s.nodes[n].table[id];
            && item.frame == D.Key(n, id) && Owned(s, n, item.node, item.frame)
            && (Pooled(s, n, item.node) ==>
                  s.nodes[n].pool[item.node].src == n && s.nodes[n].pool[item.node].dst == item.node)
  {
    assert SenderOk(s, n, s.nodes[n]);
  }

  // Nothing but node n's jobs changed, and they only grew by one job and more.
  ghost predicate Gained(s: Net, s': Net, n: nat, job: Job)
    requires n < |s.nodes|
  {
    && |s'.nodes| == |s.nodes| && s'.nodes[n].pool == s.nodes[n].pool
    && s'.links == s.links && s'.broken == s.broken && job in s'.nodes[n].jobs
  }

  lemma TickFacts(s: Net, n: nat, d: nat)
    requires n < |s.nodes|
    ensures Apply(s, Tick(n, d)) == SetNode(s, n, s.nodes[n].(now := s.nodes[n].now + d))
  {
  }

  lemma InTimeouts(t: U.Table<Frame>, now: nat, limit: nat, id: nat)
    requires U.Due(t, now, limit, id)
    ensures Timeout(t[id].node, t[id].frame) in Timeouts(t, now, limit)
  {
  }

  lemma ScanFacts(s: Net, n: nat, id: nat)
    requires n < |s.nodes| && U.Due(s.nodes[n].table, s.nodes[n].now, s.limit, id)
    ensures var item := s.nodes[n].table[id]; Gained(s, Apply(s, Scan(n)), n, Timeout(item.node, item.frame))
  {
    InTimeouts(s.nodes[n].table, s.nodes[n].now, s.limit, id);
    hide U.Restart, Timeouts;
  }

  // An unflagged message, with a pooled connection up: the timeout scan posts it.
  lemma UnflaggedPosts(s: Net, n: nat, id: nat) returns (es: seq<Event>)
    requires Inv(s) && n < |s.nodes| && id in s.nodes[n].table && !s.nodes[n].table[id].needsResend
    requires Pooled(s, n, s.nodes[n].table[id].node)
    ensures Posting(s, es, D.Key(n, id), s.nodes[n].table[id].node)
  {
    hide Inv, Posting, Apply, Takes, Owned;
    EntryFacts(s, n, id);
    var item := s.nodes[n].table[id];
    var tick, scan := Tick(n, item.sentAt + s.limit), Scan(n);
    Then(s, tick, []);
    TickFacts(s, n, item.sentAt + s.limit);
    var s1 := Apply(s, tick);
    Then(s1, scan, []);
    ScanFacts(s1, n, id);
    es := JobPosts(Apply(s1, scan), n, Timeout(item.node, item.frame), s.nodes[n].pool[item.node], item.frame);
    First(s1, scan, es, item.frame, item.node);
    First(s, tick, [scan] + es, item.frame, item.node);
    es := [tick] + ([scan] + es);
  }

  lemma InResends(t: U.Table<Frame>, link: Link, id: nat)
    requires U.Pending(t, link.dst, id)
    ensures Resend(link, t[id].frame) in Resends(t, link)
  {
  }

  lemma RoundFacts(s: Net, n: nat, dst: nat, id: nat)
    requires Pooled(s, n, dst) && dst in s.nodes[n].recovering
    requires s.nodes[n].pool[dst].dst == dst && U.Pending(s.nodes[n].table, dst, id)
    ensures Gained(s, Apply(s, Round(n, dst)), n, Resend(s.nodes[n].pool[dst], s.nodes[n].table[id].frame))
  {
    InResends(s.nodes[n].table, s.nodes[n].pool[dst], id);
    hide Resends;
  }

  // A flagged message, with its node in recovery over a pooled connection: the
  // next round posts it.
  lemma RecoveringPosts(s: Net, n: nat, id: nat) returns (es: seq<Event>)
    requires Inv(s) && n < |s.nodes| && id in s.nodes[n].table && s.nodes[n].table[id].needsResend
    requires var dst := s.nodes[n].table[id].node; Pooled(s, n, dst) && dst in s.nodes[n].recovering
    ensures Posting(s, es, D.Key(n, id), s.nodes[n].table[id].node)
  {
    hide Inv, Posting, Apply, Takes, Owned;
    EntryFacts(s, n, id);
    var item := s.nodes[n].table[id];
    var e, link := Round(n, item.node), s.nodes[n].pool[item.node];
    Then(s, e, []);
    RoundFacts(s, n, item.node, id);
    es := JobPosts(Apply(s, e), n, Resend(link, item.frame), link, item.frame);
    First(s, e, es, item.frame, item.node);
    es := [e] + es;
  }

  lemma JoinedFacts(s: Net, n: nat, link: Link, frame: Frame)
    requires n < |s.nodes| && Joined(link) in s.nodes[n].jobs
    ensures var s' := Apply(s, Run(n, Joined(link)));
            && Gained(s, s', n, Resume(link)) && s'.nodes[n].table == s.nodes[n].table
            && ((link.dst, frame) in s.nodes[n].buffered ==> Flush(link, frame) in s'.nodes[n].jobs)
  {
  }

  lemma FlushFacts(s: Net, n: nat, link: Link, frame: Frame)
    requires n < |s.nodes| && Flush(link, frame) in s.nodes[n].jobs
    ensures Gained(s, Apply(s, Run(n, Flush(link, frame))), n, Post(link, frame))
  {
    hide U.Put;
  }

  lemma ResumeFacts(s: Net, n: nat, link: Link, id: nat)
    requires n < |s.nodes| && Resume(link) in s.nodes[n].jobs && U.Pending(s.nodes[n].table, link.dst, id)
    ensures Gained(s, Apply(s, Run(n, Resume(link))), n, Resend(link, s.nodes[n].table[id].frame))
  {
    InResends(s.nodes[n].table, link, id);
    hide Resends;
  }

  // A new connection: a buffered message is flushed, a flagged one resent.
  lemma JoinedPosts(s: Net, n: nat, id: nat, link: Link) returns (es: seq<Event>)
    requires Inv(s) && n == link.src < |s.nodes| && id in s.nodes[n].table && s.nodes[n].table[id].needsResend
    requires Joined(link) in s.nodes[n].jobs && Up(s, link) && link.dst == s.nodes[n].table[id].node
    ensures Posting(s, es, D.Key(n, id), link.dst)
  {
    hide Inv, Posting, Apply, Takes, Owned;
    EntryFacts(s, n, id);
    var frame := D.Key(n, id);
    var e := Run(n, Joined(link));
    Then(s, e, []);
    JoinedFacts(s, n, link, frame);
    var s1 := Apply(s, e);
    if (link.dst, frame) in s.nodes[n].buffered {
      FlushFacts(s1, n, link, frame);
      es := HandedOn(s1, link, frame, Flush(link, frame), Post(link, frame));
    } else {
      ResumeFacts(s1, n, link, id);
      es := HandedOn(s1, link, frame, Resume(link), Resend(link, frame));
    }
    First(s, e, es, frame, link.dst);
    es := [e] + es;
  }

  lemma BufferFacts(s: Net, n: nat, job: Job, serial: nat)
    requires Takes(s, Choose(n, job, None, true)) && Takes(s, Connect(n, job.dst, serial))
    ensures var s' := Apply(s, Choose(n, job, None, true));
            && n < |s.nodes| == |s'.nodes| && job in s.nodes[n].jobs && (job.dst, job.frame) in s'.nodes[n].buffered
            && Takes(s', Connect(n, job.dst, serial))
  {
    var s' := Apply(s, Choose(n, job, None, true));
    assert s'.nodes[n] == Chosen(s.nodes[n], job, None, true);
    assert s'.links == s.links && s'.broken == s.broken;
  }

  lemma DialFacts(s: Net, n: nat, dst: nat, serial: nat)
    requires Takes(s, Connect(n, dst, serial))
    ensures var s', link := Apply(s, Connect(n, dst, serial)), Link(n, dst, serial);
            && |s'.nodes| == |s.nodes| && s'.nodes[n].buffered == s.nodes[n].buffered
            && Joined(link) in s'.nodes[n].jobs && s'.links == s.links + {link} && s'.broken == s.broken
  {
  }

  // A message sent while its proxy has no connection, but room to hold it, goes
  // out over the next connection, with no resend or timeout.
  lemma BufferedIsFlushed(s: Net, n: nat, job: Job, serial: nat) returns (es: seq<Event>)
    requires Inv(s) && Takes(s, Choose(n, job, None, true)) && Takes(s, Connect(n, job.dst, serial))
    ensures var frame, link := job.frame, Link(n, job.dst, serial);
            && es == [Choose(n, job, None, true), Connect(n, job.dst, serial),
                      Run(n, Joined(link)), Run(n, Flush(link, frame)), Run(n, Post(link, frame))]
            && PostedOver(Exec(s, es), link, frame, job.dst)
  {
    hide Inv, Apply;
    var frame, link := job.frame, Link(n, job.dst, serial);
    hide Takes;
    BufferFacts(s, n, job, serial);
    JobFacts(s, n, job);
    var s1 := Apply(s, Choose(n, job, None, true));
    Then(s, Choose(n, job, None, true), []);
    var s2 := Apply(s1, Connect(n, job.dst, serial));
    Then(s1, Connect(n, job.dst, serial), []);
    DialFacts(s1, n, job.dst, serial);
    assert Up(s2, link) by {
      NotBroken(s1, n, job.dst, serial);
    }
    es := Flushing(s2, link, frame);
    Then(s1, Connect(n, job.dst, serial), es);
    es := [Connect(n, job.dst, serial)] + es;
    Then(s, Choose(n, job, None, true), es);
    es := [Choose(n, job, None, true)] + es;
  }

  lemma NotBroken(s: Net, n: nat, dst: nat, serial: nat)
    requires Inv(s) && Takes(s, Connect(n, dst, serial))
    ensures Link(n, dst, serial) !in s.broken
  {
  }

  lemma Flushing(s: Net, link: Link, frame: Frame) returns (es: seq<Event>)
    requires Inv(s) && link.src == frame.sender < |s.nodes| && Joined(link) in s.nodes[link.src].jobs && Up(s, link)
    requires (link.dst, frame) in s.nodes[link.src].buffered
    ensures es == [Run(link.src, Joined(link)), Run(link.src, Flush(link, frame)), Run(link.src, Post(link, frame))]
    ensures PostedOver(Exec(s, es), link, frame, link.dst)
  {
    hide Inv, Apply, Takes;
    var n := link.src;
    var e3, e4, e5 := Run(n, Joined(link)), Run(n, Flush(link, frame)), Run(n, Post(link, frame));
    Then(s, e3, [e4] + [e5]);
    JoinedFacts(s, n, link, frame);
    var s3 := Apply(s, e3);
    Then(s3, e4, [e5]);
    FlushFacts(s3, n, link, frame);
    var s4 := Apply(s3, e4);
    Then(s4, e5, []);
    PostFacts(s4, link, frame);
    assert [e5] + [] == [e5];
    es := [e3] + ([e4] + [e5]);
  }

  lemma PostFacts(s: Net, link: Link, frame: Frame)
    requires link.src < |s.nodes| && Post(link, frame) in s.nodes[link.src].jobs && Up(s, link)
    ensures var s' := Apply(s, Run(link.src, Post(link, frame)));
            Up(s', link) && (link, frame) in s'.frames
  {
    assert (link, frame) in Posts(s, link.src, Post(link, frame));
  }

  // One job hands over to the next, which posts the frame.
  lemma HandedOn(s: Net, link: Link, frame: Frame, job: Job, next: Job) returns (es: seq<Event>)
    requires Inv(s) && link.src == frame.sender < |s.nodes| && Up(s, link)
    requires Gained(s, Apply(s, Run(link.src, job)), link.src, next)
    requires next == Post(link, frame) || next == Resend(link, frame)
    ensures Posting(s, es, frame, link.dst)
  {
    hide Inv, Posting, Apply, Takes;
    var e := Run(link.src, job);
    Then(s, e, []);
    es := JobPosts(Apply(s, e), link.src, next, link, frame);
    First(s, e, es, frame, link.dst);
    es := [e] + es;
  }

  lemma {:induction false} FreshSerial(links: set<Link>) returns (k: nat)
    ensures forall l | l in links :: l.serial < k
    decreases links
  {
    if links == {} {
      k := 0;
    } else {
      var l :| l in links;
      k := FreshSerial(links - {l});
      k := if k > l.serial then k else l.serial + 1;
    }
  }

  lemma ConnectFacts(s: Net, n: nat, dst: nat, serial: nat)
    requires Inv(s) && n < |s.nodes| && dst < |s.nodes| && Link(n, dst, serial) !in s.links && !Pooled(s, n, dst)
    ensures var s', link := Apply(s, Connect(n, dst, serial)), Link(n, dst, serial);
            && |s'.nodes| == |s.nodes| && s'.nodes[n].table == s.nodes[n].table
            && Joined(link) in s'.nodes[n].jobs && s'.nodes[n].pool == s.nodes[n].pool[dst := link]
            && Up(s', link)
  {
  }

  // No connection up: a new one is dialled.
  lemma UnpooledPosts(s: Net, n: nat, id: nat) returns (es: seq<Event>)
    requires Inv(s) && n < |s.nodes| && id in s.nodes[n].table && !Pooled(s, n, s.nodes[n].table[id].node)
    ensures Posting(s, es, D.Key(n, id), s.nodes[n].table[id].node)
  {
    hide Inv, Posting, Apply, Takes;
    EntryFacts(s, n, id);
    var dst := s.nodes[n].table[id].node;
    var serial := FreshSerial(s.links);
    var e := Connect(n, dst, serial);
    Then(s, e, []);
    ConnectFacts(s, n, dst, serial);
    if s.nodes[n].table[id].needsResend {
      es := JoinedPosts(Apply(s, e), n, id, Link(n, dst, serial));
    } else {
      es := UnflaggedPosts(Apply(s, e), n, id);
    }
    First(s, e, es, D.Key(n, id), dst);
    es := [e] + es;
  }

  lemma BreakFacts(s: Net, n: nat, dst: nat)
    requires Pooled(s, n, dst) && s.nodes[n].pool[dst].src == n
    ensures var s' := Apply(s, Break(s.nodes[n].pool[dst]));
            !Pooled(s', n, dst) && |s'.nodes| == |s.nodes| && s'.nodes[n].table == s.nodes[n].table
  {
  }

  // ---- flagged, and no recovery in sight ------------------------------------------------

  // Flagged, while a connection to its node is up and no recovery runs: neither
  // the timeout scan nor a resend has it in view.
  ghost predicate Held(s: Net, n: nat, id: nat) {
    && n < |s.nodes| && id in s.nodes[n].table
    && var item := s.nodes[n].table[id];
       item.needsResend && Pooled(s, n, item.node) && item.node !in s.nodes[n].recovering
  }

  // A job of node n that still gets message id posted to dst: it posts the
  // message itself over a connection that is up, clears its flag, or starts a
  // resend or a recovery that finds it.
  predicate Helps(s: Net, n: nat, buffered: set<(nat, Frame)>, dst: nat, id: nat, job: Job) {
    match job
    case Send(_, frame) => frame.msgId == id
    case Post(link, frame) => frame.msgId == id && Up(s, link)
    case Refused(_) => false
    case Joined(link) => link.dst == dst && (Up(s, link) || (dst, D.Key(n, id)) in buffered)
    case Flush(_, frame) => frame.msgId == id
    case Resume(link) => link.dst == dst && Up(s, link)
    case Resend(link, frame) => frame.msgId == id && Up(s, link)
    case Resent(i) => i == id
    case Timeout(_, frame) => frame.msgId == id
    case Died(d) => d == dst
    case Unpooled(d, have) => d == dst && have
    case Flagged(d, have) => d == dst && have
  }

  ghost predicate Helped(s: Net, n: nat, dst: nat, id: nat)
    requires n < |s.nodes|
  {
    exists job :: job in s.nodes[n].jobs && Helps(s, n, s.nodes[n].buffered, dst, id, job)
  }

  lemma JobFacts(s: Net, n: nat, job: Job)
    requires Inv(s) && n < |s.nodes| && job in s.nodes[n].jobs
    ensures JobOk(s, n, job)
  {
    assert SenderOk(s, n, s.nodes[n]);
  }

  lemma ChooseFacts(s: Net, n: nat, job: Job, link: Link)
    requires n < |s.nodes| && job in s.nodes[n].jobs && job.Send? && link.src == n && link.dst == job.dst && Up(s, link)
    ensures Gained(s, Apply(s, Choose(n, job, Some(link), false)), n, Post(link, job.frame))
  {
  }

  // The table and the pool after a job that clears the message's flag.
  lemma ClearFacts(s: Net, n: nat, id: nat, job: Job)
    requires n < |s.nodes| && job in s.nodes[n].jobs && id in s.nodes[n].table
    requires job == Resent(id) || (job.Flush? && job.frame == D.Key(n, id) && job.link.dst == s.nodes[n].table[id].node)
    ensures var s' := Apply(s, Run(n, job));
            && |s'.nodes| == |s.nodes| && s'.nodes[n].pool == s.nodes[n].pool
            && s'.links == s.links && s'.broken == s.broken && id in s'.nodes[n].table
            && s'.nodes[n].table[id].node == s.nodes[n].table[id].node && !s'.nodes[n].table[id].needsResend
  {
  }

  lemma ClearedPosts(s: Net, n: nat, id: nat, job: Job) returns (es: seq<Event>)
    requires Inv(s) && Held(s, n, id) && job in s.nodes[n].jobs
    requires job == Resent(id) || (job.Flush? && job.frame == D.Key(n, id) && job.link.dst == s.nodes[n].table[id].node)
    ensures Posting(s, es, D.Key(n, id), s.nodes[n].table[id].node)
  {
    hide Inv, Posting, Apply, Takes;
    var e := Run(n, job);
    Then(s, e, []);
    ClearFacts(s, n, id, job);
    es := UnflaggedPosts(Apply(s, e), n, id);
    First(s, e, es, D.Key(n, id), s.nodes[n].table[id].node);
    es := [e] + es;
  }

  lemma DiedFacts(s: Net, n: nat, dst: nat)
    requires n < |s.nodes| && Died(dst) in s.nodes[n].jobs
    ensures var s' := Apply(s, Run(n, Died(dst)));
            |s'.nodes| == |s.nodes| && s'.nodes[n].table == s.nodes[n].table && !Pooled(s', n, dst)
  {
  }

  lemma UnpooledFacts(s: Net, n: nat, dst: nat, id: nat)
    requires Held(s, n, id) && s.nodes[n].table[id].node == dst && Unpooled(dst, true) in s.nodes[n].jobs
    ensures var s' := Apply(s, Run(n, Unpooled(dst, true)));
            && Held(s', n, id) && s'.nodes[n].table[id] == s.nodes[n].table[id]
            && |s'.nodes| == |s.nodes| && Flagged(dst, true) in s'.nodes[n].jobs
  {
  }

  lemma FlaggedFacts(s: Net, n: nat, dst: nat, id: nat)
    requires Held(s, n, id) && s.nodes[n].table[id].node == dst && Flagged(dst, true) in s.nodes[n].jobs
    ensures var s' := Apply(s, Run(n, Flagged(dst, true)));
            && |s'.nodes| == |s.nodes| && s'.nodes[n].table == s.nodes[n].table
            && Pooled(s', n, dst) && dst in s'.nodes[n].recovering
  {
  }

  lemma FlaggedPosts(s: Net, n: nat, id: nat) returns (es: seq<Event>)
    requires Inv(s) && Held(s, n, id) && Flagged(s.nodes[n].table[id].node, true) in s.nodes[n].jobs
    ensures Posting(s, es, D.Key(n, id), s.nodes[n].table[id].node)
  {
    hide Inv, Posting, Apply, Takes, Pooled;
    var dst := s.nodes[n].table[id].node;
    var e := Run(n, Flagged(dst, true));
    Then(s, e, []);
    FlaggedFacts(s, n, dst, id);
    es := RecoveringPosts(Apply(s, e), n, id);
    First(s, e, es, D.Key(n, id), dst);
    es := [e] + es;
  }

  // Jobs of on_link_dead.
  lemma DeathPosts(s: Net, n: nat, id: nat, job: Job) returns (es: seq<Event>)
    requires Inv(s) && Held(s, n, id) && job in s.nodes[n].jobs && (job.Died? || job.Unpooled? || job.Flagged?)
    requires Helps(s, n, s.nodes[n].buffered, s.nodes[n].table[id].node, id, job)
    ensures Posting(s, es, D.Key(n, id), s.nodes[n].table[id].node)
  {
    hide Inv, Posting, Apply, Takes, Pooled;
    var dst := s.nodes[n].table[id].node;
    if job.Flagged? {
      es := FlaggedPosts(s, n, id);
      return;
    }
    var e := Run(n, job);
    Then(s, e, []);
    if job.Died? {
      DiedFacts(s, n, dst);
      es := UnpooledPosts(Apply(s, e), n, id);
    } else {
      UnpooledFacts(s, n, dst, id);
      es := FlaggedPosts(Apply(s, e), n, id);
    }
    First(s, e, es, D.Key(n, id), dst);
    es := [e] + es;
  }

  // A connection announced, up or with the message among those it will flush.
  lemma AnnouncedPosts(s: Net, n: nat, id: nat, link: Link) returns (es: seq<Event>)
    requires Inv(s) && Held(s, n, id) && Joined(link) in s.nodes[n].jobs
    requires Helps(s, n, s.nodes[n].buffered, s.nodes[n].table[id].node, id, Joined(link))
    ensures Posting(s, es, D.Key(n, id), s.nodes[n].table[id].node)
  {
    hide Inv, Posting, Apply, Takes;
    JobFacts(s, n, Joined(link));
    if Up(s, link) {
      es := JoinedPosts(s, n, id, link);
    } else {
      var e := Run(n, Joined(link));
      Then(s, e, []);
      JoinedFacts(s, n, link, D.Key(n, id));
      JoinedHeld(s, n, id, link);
      es := ClearedPosts(Apply(s, e), n, id, Flush(link, D.Key(n, id)));
      First(s, e, es, D.Key(n, id), link.dst);
      es := [e] + es;
    }
  }

  lemma JoinedHeld(s: Net, n: nat, id: nat, link: Link)
    requires Held(s, n, id) && Joined(link) in s.nodes[n].jobs
    ensures Held(Apply(s, Run(n, Joined(link))), n, id)
  {
    hide Flushes;
  }

  // Jobs that post the frame themselves.
  lemma DirectPosts(s: Net, n: nat, id: nat, job: Job) returns (es: seq<Event>)
    requires Inv(s) && Held(s, n, id) && job in s.nodes[n].jobs && (job.Post? || job.Resend? || job.Timeout?)
    requires Helps(s, n, s.nodes[n].buffered, s.nodes[n].table[id].node, id, job)
    ensures Posting(s, es, D.Key(n, id), s.nodes[n].table[id].node)
  {
    hide Inv, Posting, Apply, Takes;
    var dst := s.nodes[n].table[id].node;
    EntryFacts(s, n, id);
    JobFacts(s, n, job);
    var link := if job.Timeout? then s.nodes[n].pool[dst] else job.link;
    es := JobPosts(s, n, job, link, job.frame);
  }

  // Jobs one step before that.
  lemma IndirectPosts(s: Net, n: nat, id: nat, job: Job) returns (es: seq<Event>)
    requires Inv(s) && Held(s, n, id) && job in s.nodes[n].jobs && (job.Send? || job.Resume?)
    requires Helps(s, n, s.nodes[n].buffered, s.nodes[n].table[id].node, id, job)
    ensures Posting(s, es, D.Key(n, id), s.nodes[n].table[id].node)
  {
    hide Inv, Posting, Apply, Takes;
    var dst, frame := s.nodes[n].table[id].node, D.Key(n, id);
    EntryFacts(s, n, id);
    JobFacts(s, n, job);
    if job.Send? {
      var link := s.nodes[n].pool[dst];
      var e := Choose(n, job, Some(link), false);
      Then(s, e, []);
      ChooseFacts(s, n, job, link);
      es := JobPosts(Apply(s, e), n, Post(link, frame), link, frame);
      First(s, e, es, frame, dst);
      es := [e] + es;
    } else {
      ResumeFacts(s, n, job.link, id);
      es := HandedOn(s, job.link, frame, job, Resend(job.link, frame));
    }
  }

  // Whatever job helps, the message gets posted.
  lemma HelpedPosts(s: Net, n: nat, id: nat) returns (es: seq<Event>)
    requires Inv(s) && Held(s, n, id) && Helped(s, n, s.nodes[n].table[id].node, id)
    ensures Posting(s, es, D.Key(n, id), s.nodes[n].table[id].node)
  {
    hide Inv, Posting;
    var job :| job in s.nodes[n].jobs && Helps(s, n, s.nodes[n].buffered, s.nodes[n].table[id].node, id, job);
    JobFacts(s, n, job);
    match job
    case Send(_, _) => es := IndirectPosts(s, n, id, job);
    case Post(_, _) => es := DirectPosts(s, n, id, job);
    case Refused(_) => assert false;
    case Joined(link) => es := AnnouncedPosts(s, n, id, link);
    case Flush(_, _) => FlushIsIts(s, n, id, job); es := ClearedPosts(s, n, id, job);
    case Resume(_) => es := IndirectPosts(s, n, id, job);
    case Resend(_, _) => es := DirectPosts(s, n, id, job);
    case Resent(_) => es := ClearedPosts(s, n, id, job);
    case Timeout(_, _) => es := DirectPosts(s, n, id, job);
    case Died(_) => es := DeathPosts(s, n, id, job);
    case Unpooled(_, _) => es := DeathPosts(s, n, id, job);
    case Flagged(_, _) => es := DeathPosts(s, n, id, job);
  }

  lemma FlushIsIts(s: Net, n: nat, id: nat, job: Job)
    requires Inv(s) && Held(s, n, id) && job in s.nodes[n].jobs && job.Flush? && job.frame.msgId == id
    ensures job.frame == D.Key(n, id) && job.link.dst == s.nodes[n].table[id].node
  {
    hide Inv;
    EntryFacts(s, n, id);
    JobFacts(s, n, job);
  }

  // ---- acknowledged at last ------------------------------------------------------------

  // Only another break, or a caller who sends it again, gets the message posted:
  // FlaggedMessages shows it.
  ghost predicate Stuck(s: Net, n: nat, id: nat) {
    Held(s, n, id) && !Helped(s, n, s.nodes[n].table[id].node, id)
  }

  lemma CanBePosted(s: Net, n: nat, id: nat) returns (es: seq<Event>)
    requires Inv(s) && n < |s.nodes| && id in s.nodes[n].table && !Stuck(s, n, id)
    ensures Posting(s, es, D.Key(n, id), s.nodes[n].table[id].node)
  {
    hide Inv, Posting, Apply, Takes;
    var item := s.nodes[n].table[id];
    if !Pooled(s, n, item.node) {
      es := UnpooledPosts(s, n, id);
    } else if !item.needsResend {
      es := UnflaggedPosts(s, n, id);
    } else if item.node in s.nodes[n].recovering {
      es := RecoveringPosts(s, n, id);
    } else {
      es := HelpedPosts(s, n, id);
    }
  }

  lemma {:induction false} QuietRun(s: Net, es: seq<Event>, d: nat, frame: Frame)
    requires Inv(s) && Ready(s, d, frame) && forall e | e in es :: Sends(e)
    ensures Ready(Exec(s, es), d, frame)
    decreases |es|
  {
    hide Inv, Ready, Apply;
    if es != [] {
      StepInv(s, es[0]);
      Quiet(s, es[0], d, frame);
      QuietRun(Apply(s, es[0]), es[1..], d, frame);
    }
  }

  lemma {:induction false} ExecAppend(s: Net, a: seq<Event>, b: seq<Event>)
    requires Inv(s)
    ensures Exec(s, a + b) == Exec(Exec(s, a), b)
    decreases |a|
  {
    hide Inv, Apply;
    if a == [] {
      assert a + b == b;
    } else {
      StepInv(s, a[0]);
      assert (a + b)[1..] == a[1..] + b;
      ExecAppend(Apply(s, a[0]), a[1..], b);
    }
  }

  lemma PostingIsAcked(s: Net, n: nat, id: nat, es: seq<Event>) returns (all: seq<Event>)
    requires Inv(s) && n < |s.nodes| && id in s.nodes[n].table && Ready(s, s.nodes[n].table[id].node, D.Key(n, id))
    requires Posting(s, es, D.Key(n, id), s.nodes[n].table[id].node)
    ensures Acked(Exec(s, all), n, id) && Unbroken(all)
  {
    hide Inv, Ready, Acked, EverPosts;
    var frame, dst := D.Key(n, id), s.nodes[n].table[id].node;
    QuietRun(s, es, dst, frame);
    var t := Exec(s, es);
    var link :| PostedOver(t, link, frame, dst);
    var more := PostedIsAcked(t, link, frame);
    ExecAppend(s, es, more);
    all := es + more;
  }

  lemma ReadyIsAcked(s: Net, n: nat, id: nat) returns (es: seq<Event>)
    requires Inv(s) && n < |s.nodes| && id in s.nodes[n].table && Ready(s, s.nodes[n].table[id].node, D.Key(n, id))
    ensures Acked(Exec(s, es), n, id)
    ensures !Stuck(s, n, id) ==> Unbroken(es)
  {
    hide Inv, Extends, Ready, Apply, Takes, Acked, Owned, Posting, Helped;
    if !Stuck(s, n, id) {
      es := CanBePosted(s, n, id);
      es := PostingIsAcked(s, n, id, es);
    } else {
      var item := s.nodes[n].table[id];
      EntryFacts(s, n, id);
      var e := Break(s.nodes[n].pool[item.node]);
      Then(s, e, []);
      BreakFacts(s, n, item.node);
      Quiet(s, e, item.node, D.Key(n, id));
      es := UnpooledPosts(Apply(s, e), n, id);
      es := PostingIsAcked(Apply(s, e), n, id, es);
      Then(s, e, es);
      es := [e] + es;
    }
  }

  // From every reachable state, whatever was lost, evicted, thrown or broken,
  // some continuation still gets a tracked message handled and acked, as long
  // as its destination's table has a place at all; a continuation in which no
  // further connection breaks, unless the message is stuck.
  lemma CanStillBeAcked(s: Net, n: nat, id: nat) returns (es: seq<Event>)
    requires Inv(s) && n < |s.nodes| && id in s.nodes[n].tracked
    requires forall d | 0 <= d < |s.nodes| :: s.nodes[d].receiver.cap >= 1
    ensures Acked(Exec(s, es), n, id)
    ensures !Stuck(s, n, id) ==> Unbroken(es)
  {
    if id !in s.nodes[n].table {
      es := [];
    } else {
      EntryFacts(s, n, id);
      var d, frame := s.nodes[n].table[id].node, D.Key(n, id);
      var r := s.nodes[d].receiver;
      ReceiverFacts(s, d);
      hide Inv, Extends, Acked, D.Inv, D.Claim, Owned, Helped;
      if frame in r.table && r.table[frame] == D.InProgress {
        var i := RunOf(r, frame);
        EndMakesReady(r, i, frame);
        es := AfterFinish(s, n, id, i);
      } else if D.Claim(r.cap, r.table, frame).0 == D.Overflow {
        var i := RoomAfterEnd(r, frame);
        es := AfterFinish(s, n, id, i);
      } else {
        es := ReadyIsAcked(s, n, id);
      }
    }
  }

  // One handler run at the destination ends first.
  lemma AfterFinish(s: Net, n: nat, id: nat, i: nat) returns (es: seq<Event>)
    requires Inv(s) && n < |s.nodes| && id in s.nodes[n].table
    requires var d := s.nodes[n].table[id].node;
             d < |s.nodes| && i < |s.nodes[d].receiver.running|
             && Takable(D.EndStep(s.nodes[d].receiver, i, D.Ok), D.Key(n, id))
    ensures Acked(Exec(s, es), n, id)
    ensures !Stuck(s, n, id) ==> Unbroken(es)
  {
    hide Inv, Extends, Acked, D.Claim, D.EndStep, Stuck;
    var d := s.nodes[n].table[id].node;
    var e := Finish(d, i, D.Ok);
    Then(s, e, []);
    assert Apply(s, e).nodes[d].receiver == D.EndStep(s.nodes[d].receiver, i, D.Ok);
    if Stuck(Apply(s, e), n, id) {
      FinishStuck(s, n, id, e);
    }
    es := ReadyIsAcked(Apply(s, e), n, id);
    Then(s, e, es);
    es := [e] + es;
  }

  lemma FinishStuck(s: Net, n: nat, id: nat, e: Event)
    requires Takes(s, e) && e.Finish? && Stuck(Apply(s, e), n, id)
    ensures Stuck(s, n, id)
  {
    hide D.EndStep;
    var s' := Apply(s, e);
    var dst := s.nodes[n].table[id].node;
    forall job | job in s.nodes[n].jobs ensures !Helps(s, n, s.nodes[n].buffered, dst, id, job) {
      assert !Helps(s', n, s'.nodes[n].buffered, dst, id, job);
    }
  }

  lemma RunOf(r: D.Receiver<Link>, frame: Frame) returns (i: nat)
    requires D.Inv(r) && frame in r.table && r.table[frame] == D.InProgress
    ensures i < |r.running| && r.running[i].0 == frame
  {
    i :| 0 <= i < |r.running| && r.running[i].0 == frame;
  }

  lemma EndMakesReady(r: D.Receiver<Link>, i: nat, frame: Frame)
    requires D.Inv(r) && i < |r.running| && r.running[i].0 == frame
    ensures Takable(D.EndStep(r, i, D.Ok), frame)
  {
    assert D.EndStep(r, i, D.Ok).table == r.table[frame := D.Completed];
  }

  // Ending one run of a table full of runs leaves an entry to give up.
  lemma RoomAfterEnd(r: D.Receiver<Link>, frame: Frame) returns (i: nat)
    requires D.Inv(r) && r.cap >= 1 && D.Claim(r.cap, r.table, frame).0 == D.Overflow
    ensures i < |r.running| && Takable(D.EndStep(r, i, D.Ok), frame)
  {
    D.OverflowExactly(r.cap, r.table, frame);
    assert r.table.Keys != {};
    var k :| k in r.table.Keys;
    i := RunOf(r, k);
    var t' := D.EndStep(r, i, D.Ok).table;
    assert t' == r.table[k := D.Completed];
    assert D.IsCompleted(t', k);
    D.OverflowExactly(r.cap, t', frame);
  }
}
