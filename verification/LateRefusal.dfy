// A run that leaves a message flagged on a connection that is up: the post is
// refused because the connection broke; on_link_dead, recovery and the resend
// run to their end; and only then does the sending thread note its refusal,
// flagging the message once more.
module LateRefusal {
  import opened Prelude
  import opened Delivery
  import opened DeliveryProgress
  import opened FlaggedMessages
  import D = Dedup
  import U = UnackedTable

  // Node 0 of two, which has tracked message 1 for node 1.
  function Sending(table: U.Table<Frame>, pool: map<nat, Link>, recovering: set<nat>, jobs: set<Job>): Node {
    Node(2, 0, map[1 := 1], table, pool, recovering, {}, jobs, [], D.Start(1))
  }

  function Other(): Node {
    Node(1, 0, map[], map[], map[], {}, {}, {}, [], D.Start(1))
  }

  function Two(node: Node, limit: nat, links: set<Link>, broken: set<Link>, frames: set<(Link, Frame)>): Net {
    Net([node, Other()], limit, links, broken, frames, {})
  }

  function Entry(flag: bool): U.Table<Frame> {
    map[1 := U.Item(D.Key(0, 1), 0, 1, flag)]
  }

  // One more step of a run that ends in s.
  ghost predicate Reached(limit: nat, s: Net) {
    Inv(s) && exists es :: Ends(limit, es, s)
  }

  ghost predicate Ends(limit: nat, es: seq<Event>, s: Net) {
    Inv(Init(2, limit, 1)) && Exec(Init(2, limit, 1), es) == s
  }

  lemma {:induction false} Snoc(s: Net, es: seq<Event>, e: Event)
    requires Inv(s)
    ensures Exec(s, es + [e]) == Apply(Exec(s, es), e)
    decreases |es|
  {
    if es == [] {
      StepInv(s, e);
      assert Exec(s, [e]) == Exec(Apply(s, e), [e][1..]);
      assert es + [e] == [e];
    } else {
      StepInv(s, es[0]);
      assert (es + [e])[1..] == es[1..] + [e];
      Snoc(Apply(s, es[0]), es[1..], e);
    }
  }

  lemma Steps(limit: nat, s: Net, e: Event)
    requires Reached(limit, s)
    ensures Reached(limit, Apply(s, e))
  {
    hide Inv, Apply, Init;
    var es :| Ends(limit, es, s);
    StepInv(s, e);
    Snoc(Init(2, limit, 1), es, e);
    assert Ends(limit, es + [e], Apply(s, e));
  }

  lemma Runs(limit: nat, s: Net, job: Job, s': Net)
    requires Reached(limit, s) && |s.nodes| == |s'.nodes| == 2 && job in s.nodes[0].jobs && !job.Send?
    requires var node, node' := Ran(s, s.nodes[0], job), s'.nodes[0];
             && node' == node.(jobs := node'.jobs, table := node'.table, pool := node'.pool,
                               recovering := node'.recovering, buffered := node'.buffered)
             && node'.jobs == node.jobs && node'.table == node.table && node'.pool == node.pool
             && node'.recovering == node.recovering && node'.buffered == node.buffered
    requires s'.nodes[1] == s.nodes[1] && s'.frames == s.frames + Posts(s, 0, job)
    requires s' == s.(nodes := s'.nodes, frames := s'.frames)
    ensures Reached(limit, s')
  {
    hide Reached, Ran, Posts;
    Steps(limit, s, Run(0, job));
    assert s'.nodes == s.nodes[0 := s'.nodes[0]];
    assert Apply(s, Run(0, job)) == s';
  }

  lemma Started(limit: nat)
    ensures Reached(limit, Two(Other(), limit, {}, {}, {}))
  {
    InitInv(2, limit, 1);
    assert Exec(Init(2, limit, 1), []) == Init(2, limit, 1);
    assert Init(2, limit, 1).nodes == [Other(), Other()];
    assert Ends(limit, [], Two(Other(), limit, {}, {}, {}));
  }

  // Message 1 is tracked and handed to the first connection, which breaks
  // before it is posted.
  lemma Connected(limit: nat)
    ensures var a := Link(0, 1, 0);
            Reached(limit, Two(Other().(pool := map[1 := a], jobs := {Joined(a)}), limit, {a}, {}, {}))
  {
    hide Reached;
    Started(limit);
    var a, s := Link(0, 1, 0), Two(Other(), limit, {}, {}, {});
    Steps(limit, s, Connect(0, 1, 0));
    var node := Other().(pool := map[1 := a], jobs := {Joined(a)});
    assert SenderStep(s, 0, Connect(0, 1, 0)) == node;
    assert Apply(s, Connect(0, 1, 0)) == Two(node, limit, {a}, {}, {});
  }

  lemma Joins(limit: nat)
    ensures var a := Link(0, 1, 0);
            Reached(limit, Two(Other().(pool := map[1 := a]), limit, {a}, {}, {}))
  {
    hide Reached;
    Connected(limit);
    var a := Link(0, 1, 0);
    var node := Other().(pool := map[1 := a]);
    var joined, resume := node.(jobs := {Joined(a)}), node.(jobs := {Resume(a)});
    Runs(limit, Two(joined, limit, {a}, {}, {}), Joined(a), Two(resume, limit, {a}, {}, {}));
    Runs(limit, Two(resume, limit, {a}, {}, {}), Resume(a), Two(node, limit, {a}, {}, {}));
  }

  lemma Tracks(limit: nat)
    ensures var a := Link(0, 1, 0);
            Reached(limit, Two(Sending(Entry(false), map[1 := a], {}, {Send(1, D.Key(0, 1))}), limit, {a}, {}, {}))
  {
    hide Reached;
    Joins(limit);
    var a := Link(0, 1, 0);
    var s := Two(Other().(pool := map[1 := a]), limit, {a}, {}, {});
    var node := Sending(Entry(false), map[1 := a], {}, {Send(1, D.Key(0, 1))});
    Steps(limit, s, Track(0, 1));
    assert SenderStep(s, 0, Track(0, 1)) == node;
    assert Apply(s, Track(0, 1)) == Two(node, limit, {a}, {}, {});
  }

  lemma Breaks(limit: nat)
    ensures var a := Link(0, 1, 0);
            Reached(limit, Two(Sending(Entry(false), map[1 := a], {}, {Post(a, D.Key(0, 1)), Died(1)}),
                               limit, {a}, {a}, {}))
  {
    hide Reached;
    Tracks(limit);
    var a, frame := Link(0, 1, 0), D.Key(0, 1);
    var s := Two(Sending(Entry(false), map[1 := a], {}, {Send(1, frame)}), limit, {a}, {}, {});
    var choose := Choose(0, Send(1, frame), Some(a), false);
    var node := Sending(Entry(false), map[1 := a], {}, {Post(a, frame)});
    Steps(limit, s, choose);
    assert SenderStep(s, 0, choose) == node;
    var s1 := Two(node, limit, {a}, {}, {});
    assert Apply(s, choose) == s1;
    var node1 := Sending(Entry(false), map[1 := a], {}, {Post(a, frame), Died(1)});
    Steps(limit, s1, Break(a));
    assert SenderStep(s1, 0, Break(a)) == node1;
    assert Apply(s1, Break(a)) == Two(node1, limit, {a}, {a}, {});
  }

  // post_frame refuses; on_link_dead runs to its end before the refusal is noted.
  lemma LinkDies(limit: nat)
    ensures var a := Link(0, 1, 0);
            Reached(limit, Two(Sending(Entry(true), map[], {1}, {Refused(1)}), limit, {a}, {a}, {}))
  {
    hide Reached;
    Breaks(limit);
    var a, frame := Link(0, 1, 0), D.Key(0, 1);
    var n0 := Sending(Entry(false), map[1 := a], {}, {Post(a, frame), Died(1)});
    var n1 := Sending(Entry(false), map[1 := a], {}, {Refused(1), Died(1)});
    Runs(limit, Two(n0, limit, {a}, {a}, {}), Post(a, frame), Two(n1, limit, {a}, {a}, {}));
    var n2 := Sending(Entry(false), map[], {}, {Refused(1), Unpooled(1, true)});
    Runs(limit, Two(n1, limit, {a}, {a}, {}), Died(1), Two(n2, limit, {a}, {a}, {}));
    var n3 := Sending(Entry(true), map[], {}, {Refused(1), Flagged(1, true)});
    Runs(limit, Two(n2, limit, {a}, {a}, {}), Unpooled(1, true), Two(n3, limit, {a}, {a}, {}));
    var n4 := Sending(Entry(true), map[], {1}, {Refused(1)});
    Runs(limit, Two(n3, limit, {a}, {a}, {}), Flagged(1, true), Two(n4, limit, {a}, {a}, {}));
  }

  lemma OnlyResend(b: Link)
    requires b.dst == 1
    ensures Resends(Entry(true), b) == {Resend(b, D.Key(0, 1))}
  {
    InResends(Entry(true), b, 1);
  }

  // Recovery connects again, resends the message and ends.
  lemma Reconnects(limit: nat)
    ensures var a, b := Link(0, 1, 0), Link(0, 1, 1);
            Reached(limit, Two(Sending(Entry(true), map[1 := b], {1}, {Refused(1), Resume(b)}), limit, {a, b}, {a}, {}))
  {
    hide Reached;
    LinkDies(limit);
    var a, b := Link(0, 1, 0), Link(0, 1, 1);
    var s := Two(Sending(Entry(true), map[], {1}, {Refused(1)}), limit, {a}, {a}, {});
    var n1 := Sending(Entry(true), map[1 := b], {1}, {Refused(1), Joined(b)});
    Steps(limit, s, Connect(0, 1, 1));
    assert SenderStep(s, 0, Connect(0, 1, 1)) == n1;
    assert Apply(s, Connect(0, 1, 1)) == Two(n1, limit, {a, b}, {a}, {});
    var n2 := Sending(Entry(true), map[1 := b], {1}, {Refused(1), Resume(b)});
    Runs(limit, Two(n1, limit, {a, b}, {a}, {}), Joined(b), Two(n2, limit, {a, b}, {a}, {}));
  }

  lemma Recovers(limit: nat)
    ensures var a, b, frame := Link(0, 1, 0), Link(0, 1, 1), D.Key(0, 1);
            Reached(limit, Two(Sending(Entry(false), map[1 := b], {1}, {Refused(1)}), limit, {a, b}, {a}, {(b, frame)}))
  {
    hide Reached;
    Reconnects(limit);
    var a, b, frame := Link(0, 1, 0), Link(0, 1, 1), D.Key(0, 1);
    var n2 := Sending(Entry(true), map[1 := b], {1}, {Refused(1), Resume(b)});
    var n3 := Sending(Entry(true), map[1 := b], {1}, {Refused(1), Resend(b, frame)});
    OnlyResend(b);
    Runs(limit, Two(n2, limit, {a, b}, {a}, {}), Resume(b), Two(n3, limit, {a, b}, {a}, {}));
    var n4 := Sending(Entry(true), map[1 := b], {1}, {Refused(1), Resent(1)});
    Runs(limit, Two(n3, limit, {a, b}, {a}, {}), Resend(b, frame), Two(n4, limit, {a, b}, {a}, {(b, frame)}));
    var n5 := Sending(Entry(false), map[1 := b], {1}, {Refused(1)});
    Runs(limit, Two(n4, limit, {a, b}, {a}, {(b, frame)}), Resent(1), Two(n5, limit, {a, b}, {a}, {(b, frame)}));
  }

  // Only then is the refused post noted: the message is flagged once more, with
  // nobody left to resend it.  Should its handler throw, no ack comes either.
  lemma LateRefusalStrands(limit: nat) returns (es: seq<Event>)
    ensures Inv(Init(2, limit, 1))
    ensures var s := Exec(Init(2, limit, 1), es); Stranded(s, 0, 1, 1) && Stuck(s, 0, 1)
  {
    hide Reached, Stranded, Stuck, Exec, Inv;
    InitInv(2, limit, 1);
    var s := AfterRefusal(limit);
    es := Witness(limit, s);
  }

  lemma AfterRefusal(limit: nat) returns (s: Net)
    ensures Reached(limit, s) && Stranded(s, 0, 1, 1) && Stuck(s, 0, 1)
  {
    hide Reached, Stranded, Stuck;
    Recovers(limit);
    var a, b, frame := Link(0, 1, 0), Link(0, 1, 1), D.Key(0, 1);
    var n0 := Sending(Entry(false), map[1 := b], {1}, {Refused(1)});
    var n1 := Sending(Entry(false), map[1 := b], {}, {Refused(1)});
    var n2 := Sending(Entry(true), map[1 := b], {}, {});
    var s0 := Two(n0, limit, {a, b}, {a}, {(b, frame)});
    Steps(limit, s0, Settled(0, 1));
    assert SenderStep(s0, 0, Settled(0, 1)) == n1;
    assert Apply(s0, Settled(0, 1)) == Two(n1, limit, {a, b}, {a}, {(b, frame)});
    s := Two(n2, limit, {a, b}, {a}, {(b, frame)});
    Runs(limit, Two(n1, limit, {a, b}, {a}, {(b, frame)}), Refused(1), s);
    IsStranded(limit, b, {a, b}, {a}, {(b, frame)});
  }

  lemma IsStranded(limit: nat, b: Link, links: set<Link>, broken: set<Link>, frames: set<(Link, Frame)>)
    requires b in links && b !in broken
    ensures var s := Two(Sending(Entry(true), map[1 := b], {}, {}), limit, links, broken, frames);
            Stranded(s, 0, 1, 1) && Stuck(s, 0, 1)
  {
  }

  lemma Witness(limit: nat, s: Net) returns (es: seq<Event>)
    requires Reached(limit, s)
    ensures Inv(Init(2, limit, 1)) && Exec(Init(2, limit, 1), es) == s
  {
    es :| Ends(limit, es, s);
  }
}
