module UnackedTable {
  // The sender's table of messages not yet acknowledged: tracking, acks, failed
  // sends, the marking of a dead link, and the two resend scans.  The scans
  // visit the table in an arbitrary order.

  // An entry: the frame as posted, when, to which node, and the resend flag.
  datatype Item<F> = Item(frame: F, sentAt: nat, node: nat, needsResend: bool)

  type Table<F> = map<nat, Item<F>>

  // ---- the operations, each under the table's lock -----------------------------

  // track_unacked
  function Put<F>(t: Table<F>, node: nat, id: nat, frame: F, now: nat): Table<F> {
    t[id := Item(frame, now, node, false)]
  }

  // note_ack
  function Ack<F>(t: Table<F>, id: nat): Table<F> {
    t - {id}
  }

  // note_send_failed
  function Fail<F>(t: Table<F>, id: nat): Table<F> {
    if id in t then t[id := t[id].(needsResend := true)] else t
  }

  // The loop of on_link_dead.
  function Flag<F>(t: Table<F>, node: nat): Table<F> {
    map id | id in t :: if t[id].node == node then t[id].(needsResend := true) else t[id]
  }

  // The end of one round of resend_unacked's loop.
  function Settle<F>(t: Table<F>, id: nat, now: nat): Table<F> {
    if id in t then t[id := t[id].(needsResend := false, sentAt := now)] else t
  }

  // One scan of ack_timeout_loop restarts the clocks of what is due.
  function Restart<F>(t: Table<F>, now: nat, limit: nat): Table<F> {
    map id | id in t :: if Due(t, now, limit, id) then t[id].(sentAt := now) else t[id]
  }

  // What resend_unacked collects.
  predicate Pending<F>(t: Table<F>, node: nat, id: nat) {
    id in t && t[id].node == node && t[id].needsResend
  }

  // What a timeout scan resends.
  predicate Due<F>(t: Table<F>, now: nat, limit: nat, id: nat) {
    id in t && !t[id].needsResend && now >= t[id].sentAt + limit
  }

  // ---- what an entry goes through ------------------------------------------------

  datatype Op<F> =
    | DoTrack(node: nat, id: nat, frame: F, now: nat)
    | DoAck(id: nat)
    | DoFail(id: nat)
    | DoFlag(node: nat)
    | DoSettle(id: nat, now: nat)
    | DoRestart(now: nat, limit: nat)

  function Do<F>(t: Table<F>, op: Op<F>): Table<F> {
    match op
    case DoTrack(node, id, frame, now) => Put(t, node, id, frame, now)
    case DoAck(id) => Ack(t, id)
    case DoFail(id) => Fail(t, id)
    case DoFlag(node) => Flag(t, node)
    case DoSettle(id, now) => Settle(t, id, now)
    case DoRestart(now, limit) => Restart(t, now, limit)
  }

  function DoAll<F>(t: Table<F>, ops: seq<Op<F>>): Table<F>
    decreases |ops|
  {
    if ops == [] then t else DoAll(Do(t, ops[0]), ops[1..])
  }

  // The operation is about this very entry.
  predicate Names<F>(op: Op<F>, id: nat) {
    (op.DoTrack? || op.DoAck? || op.DoFail? || op.DoSettle?) && op.id == id
  }

  // An acknowledged message is in no scan again, whatever happens, until it is
  // tracked again.
  lemma {:induction false} AckedStaysOut<F>(t: Table<F>, id: nat, ops: seq<Op<F>>)
    requires id !in t && forall op | op in ops :: !(op.DoTrack? && op.id == id)
    ensures id !in DoAll(t, ops)
    decreases |ops|
  {
    if ops != [] {
      assert ops[0] in ops;
      AckedStaysOut(Do(t, ops[0]), id, ops[1..]);
    }
  }

  lemma OpKeepsFlag<F>(t: Table<F>, id: nat, op: Op<F>)
    requires id in t && t[id].needsResend
    requires Names(op, id) ==> op.DoFail?
    ensures id in Do(t, op) && Do(t, op)[id] == t[id]
  {
  }

  // A message whose send failed or whose link died waits for a resend of its
  // node: through any operations but its own ack, tracking or settling it stays
  // pending, and no timeout scan ever takes it.
  lemma {:induction false} FlaggedStaysPending<F>(t: Table<F>, id: nat, ops: seq<Op<F>>)
    requires id in t && t[id].needsResend
    requires forall op | op in ops :: Names(op, id) ==> op.DoFail?
    ensures Pending(DoAll(t, ops), t[id].node, id) && DoAll(t, ops)[id] == t[id]
    ensures forall now: nat, limit: nat :: !Due(DoAll(t, ops), now, limit, id)
    decreases |ops|
  {
    if ops != [] {
      assert ops[0] in ops;
      OpKeepsFlag(t, id, ops[0]);
      FlaggedStaysPending(Do(t, ops[0]), id, ops[1..]);
    }
  }

  // The scan comes before the entry's deadline.
  predicate Early<F>(op: Op<F>, sentAt: nat) {
    op.DoRestart? ==> op.now < sentAt + op.limit
  }

  // A message that was sent is left alone by both scans until its own limit has
  // passed, and is due from then on, exactly.
  lemma {:induction false} TrackedUntilDue<F>(t: Table<F>, id: nat, ops: seq<Op<F>>)
    requires id in t && !t[id].needsResend
    requires forall op | op in ops ::
               !Names(op, id) && op != DoFlag(t[id].node) && Early(op, t[id].sentAt)
    ensures id in DoAll(t, ops) && DoAll(t, ops)[id] == t[id]
    ensures forall now: nat, limit: nat :: Due(DoAll(t, ops), now, limit, id) <==> now >= t[id].sentAt + limit
    ensures forall node: nat :: !Pending(DoAll(t, ops), node, id)
    decreases |ops|
  {
    if ops != [] {
      assert ops[0] in ops;
      TrackedUntilDue(Do(t, ops[0]), id, ops[1..]);
    }
  }

  lemma DoFirst<F>(t: Table<F>, op: Op<F>, ops: seq<Op<F>>)
    ensures DoAll(t, [op] + ops) == DoAll(Do(t, op), ops)
  {
    assert ([op] + ops)[1..] == ops;
  }

  // A message goes out at `now`: it is tracked, resent, or found due by a scan.
  predicate GoesOut<F>(t: Table<F>, op: Op<F>, id: nat, node: nat, now: nat) {
    match op
    case DoTrack(_, _, _, _) => op.id == id && op.node == node && op.now == now
    case DoSettle(_, _) => op.id == id && op.now == now && id in t && t[id].node == node
    case DoRestart(_, limit) => op.now == now && Due(t, now, limit, id) && t[id].node == node
    case _ => false
  }

  // Tracking a message at some time, resending it then, or a scan that finds it
  // due, makes it due exactly from its limit after that time on, with the frame
  // and node it was tracked with, through any operations on others.
  lemma SentIsDueLater<F>(t: Table<F>, id: nat, node: nat, frame: F, now: nat, first: Op<F>, ops: seq<Op<F>>)
    requires GoesOut(t, first, id, node, now)
    requires if first.DoTrack? then first.frame == frame else t[id].frame == frame
    requires forall op | op in ops :: !Names(op, id) && op != DoFlag(node) && Early(op, now)
    ensures var u := DoAll(t, [first] + ops);
            && id in u && u[id].node == node && u[id].frame == frame
            && (forall later: nat, limit: nat :: Due(u, later, limit, id) <==> later >= now + limit)
            && forall n: nat :: !Pending(u, n, id)
  {
    DoFirst(t, first, ops);
    TrackedUntilDue(Do(t, first), id, ops);
  }

  // A failed send or a dead link makes a message pending for its node, with its
  // frame, until its own ack, tracking or resend; the link of another node, and
  // a failure noted for another message, do not.
  lemma FailedIsPending<F>(t: Table<F>, id: nat, first: Op<F>, ops: seq<Op<F>>)
    requires id in t && (first.DoFail? || first.DoFlag?)
    requires forall op | op in ops :: Names(op, id) ==> op.DoFail?
    ensures var u := DoAll(t, [first] + ops);
            (first == DoFail(id) || first == DoFlag(t[id].node)) ==>
              Pending(u, t[id].node, id) && u[id].frame == t[id].frame
    ensures !(first == DoFail(id) || first == DoFlag(t[id].node)) ==> id in Do(t, first) && Do(t, first)[id] == t[id]
  {
    DoFirst(t, first, ops);
    if first == DoFail(id) || first == DoFlag(t[id].node) {
      FlaggedStaysPending(Do(t, first), id, ops);
    }
  }

  // An ack takes its own message out for good, and no other.
  lemma AckTakesOut<F>(t: Table<F>, id: nat, ops: seq<Op<F>>)
    requires forall op | op in ops :: !(op.DoTrack? && op.id == id)
    ensures id !in DoAll(t, [DoAck(id)] + ops)
    ensures forall other | other in t && other != id :: other in Do(t, DoAck(id)) && Do(t, DoAck(id))[other] == t[other]
  {
    DoFirst(t, DoAck(id), ops);
    AckedStaysOut(Do(t, DoAck(id)), id, ops);
  }

  // ---- the scans as methods --------------------------------------------------------

  ghost predicate Distinct<F>(frames: seq<(nat, F)>) {
    forall i, j | 0 <= i < j < |frames| :: frames[i].0 != frames[j].0
  }

  ghost function Ids<F>(frames: seq<(nat, F)>): set<nat> {
    set i | 0 <= i < |frames| :: frames[i].0
  }

  lemma IdsAdd<F>(frames: seq<(nat, F)>, x: (nat, F))
    ensures Ids(frames + [x]) == Ids(frames) + {x.0}
  {
    var all := frames + [x];
    assert forall i | 0 <= i < |frames| :: all[i] == frames[i];
    assert all[|frames|] == x;
  }

  // The frames whose ids the connection takes, in order.
  function Taken<F>(frames: seq<(nat, F)>, accepts: set<nat>): seq<(nat, F)> {
    if frames == [] then []
    else
      var n := |frames| - 1;
      Taken(frames[..n], accepts) + if frames[n].0 in accepts then [frames[n]] else []
  }

  lemma {:induction false} TakenFacts<F>(frames: seq<(nat, F)>, accepts: set<nat>)
    ensures forall x | x in Taken(frames, accepts) :: x in frames
    ensures forall id :: id in Ids(Taken(frames, accepts)) <==> id in Ids(frames) && id in accepts
    ensures Distinct(frames) ==> Distinct(Taken(frames, accepts))
  {
    if frames != [] {
      var n := |frames| - 1;
      var rest := Taken(frames[..n], accepts);
      TakenFacts(frames[..n], accepts);
      assert frames == frames[..n] + [frames[n]];
      IdsAdd(frames[..n], frames[n]);
      IdsAdd(rest, frames[n]);
      assert rest + [] == rest;
      if Distinct(frames) {
        assert frames[n].0 !in Ids(frames[..n]);
        assert frames[n].0 !in Ids(rest);
        assert Distinct(rest);
        assert forall i | 0 <= i < |rest| :: rest[i].0 in Ids(rest);
      }
    }
  }

  // The given messages went out again, and nothing else changed.
  ghost predicate Resettled<F>(t: Table<F>, t': Table<F>, ids: set<nat>, now: nat) {
    && t'.Keys == t.Keys
    && forall id | id in t :: t'[id] == if id in ids then Settle(t, id, now)[id] else t[id]
  }

  class Unacked<F> {
    var table: Table<F>

    constructor ()
      ensures table == map[]
    {
      table := map[];
    }

    method Track(node: nat, id: nat, frame: F, now: nat)
      modifies this
      ensures table == Put(old(table), node, id, frame, now)
    {
      table := table[id := Item(frame, now, node, false)];
    }

    method NoteAck(id: nat)
      modifies this
      ensures table == Ack(old(table), id)
    {
      table := table - {id};
    }

    method NoteSendFailed(id: nat)
      modifies this
      ensures table == Fail(old(table), id)
    {
      if id !in table {
        return;
      }
      table := table[id := table[id].(needsResend := true)];
    }

    // on_link_dead: every message of the node needs a resend, no other changes.
    method MarkLinkDead(node: nat)
      modifies this
      ensures table == Flag(old(table), node)
    {
      var rest := table.Keys;
      while rest != {}
        invariant rest <= table.Keys == old(table).Keys
        invariant forall id | id in table ::
                    table[id] == if id in rest then old(table)[id] else Flag(old(table), node)[id]
        decreases rest
      {
        var id :| id in rest;
        rest := rest - {id};
        if table[id].node == node {
          table := table[id := table[id].(needsResend := true)];
        }
      }
    }

    // resend_unacked over a connection that takes the frames whose ids are in
    // `accepts`: exactly the node's flagged messages are offered, each once
    // and with its own frame, and exactly those taken are unflagged.
    method ResendUnacked(node: nat, accepts: set<nat>, now: nat) returns (posted: seq<(nat, F)>)
      modifies this
      ensures forall i | 0 <= i < |posted| ::
                posted[i].0 in old(table) && posted[i].1 == old(table)[posted[i].0].frame
      ensures Distinct(posted)
      ensures forall id :: id in Ids(posted) <==> Pending(old(table), node, id) && id in accepts
      ensures Resettled(old(table), table, Ids(posted), now)
    {
      var frames := CollectPending(node);
      posted := [];
      var i := 0;
      while i < |frames|
        invariant 0 <= i <= |frames|
        invariant posted == Taken(frames[..i], accepts)
        invariant Resettled(old(table), table, Ids(posted), now)
      {
        var (id, frame) := frames[i];
        assert frames[..i + 1][..i] == frames[..i];
        if id in accepts {
          ghost var before := posted;
          posted := posted + [(id, frame)];
          IdsAdd(before, (id, frame));
          if id in table {
            table := table[id := table[id].(needsResend := false, sentAt := now)];
          }
        }
        i := i + 1;
      }
      assert frames[..i] == frames;
      TakenFacts(frames, accepts);
      forall k | 0 <= k < |posted|
        ensures posted[k].0 in old(table) && posted[k].1 == old(table)[posted[k].0].frame
      {
        assert posted[k] in frames;
      }
    }

    // The flagged messages of a node, each once with its frame.
    method CollectPending(node: nat) returns (frames: seq<(nat, F)>)
      ensures forall i | 0 <= i < |frames| ::
                Pending(table, node, frames[i].0) && frames[i].1 == table[frames[i].0].frame
      ensures Distinct(frames)
      ensures forall id | Pending(table, node, id) :: id in Ids(frames)
    {
      frames := [];
      var rest := table.Keys;
      while rest != {}
        invariant rest <= table.Keys
        invariant forall i | 0 <= i < |frames| ::
                    && Pending(table, node, frames[i].0) && frames[i].0 !in rest
                    && frames[i].1 == table[frames[i].0].frame
        invariant Distinct(frames)
        invariant forall id | Pending(table, node, id) && id !in rest :: id in Ids(frames)
        decreases rest
      {
        var id :| id in rest;
        rest := rest - {id};
        if table[id].node == node && table[id].needsResend {
          IdsAdd(frames, (id, table[id].frame));
          frames := frames + [(id, table[id].frame)];
        }
      }
    }

    // One scan of ack_timeout_loop: every overdue unflagged message is due
    // once, with its own frame and node, and its clock restarts.
    method CollectDue(now: nat, limit: nat) returns (due: seq<(nat, F)>)
      modifies this
      ensures table == Restart(old(table), now, limit)
      ensures multiset(due) == DueBag(old(table), old(table).Keys, now, limit)
    {
      NothingDue(table, now, limit);
      hide DueBag;
      due := [];
      var rest := table.Keys;
      ghost var seen := {};
      while rest != {}
        invariant rest !! seen && rest + seen == table.Keys == old(table).Keys
        invariant forall id | id in table ::
                    table[id] == if id in seen && Due(old(table), now, limit, id)
                                 then old(table)[id].(sentAt := now) else old(table)[id]
        invariant multiset(due) == DueBag(old(table), seen, now, limit)
        decreases rest
      {
        var id :| id in rest;
        rest := rest - {id};
        DueBagAdd(old(table), seen, id, now, limit);
        seen := seen + {id};
        if table[id].needsResend {
          continue;
        }
        if now >= table[id].sentAt + limit {
          due := due + [(table[id].node, table[id].frame)];
          table := table[id := table[id].(sentAt := now)];
        }
      }
      assert seen == old(table).Keys;
    }
  }

  lemma NothingDue<F>(t: Table<F>, now: nat, limit: nat)
    ensures DueBag(t, {}, now, limit) == multiset{}
  {
  }

  // The (node, frame) pairs a timeout scan over the given ids resends.
  ghost function DueBag<F>(t: Table<F>, ids: set<nat>, now: nat, limit: nat): multiset<(nat, F)>
    requires ids <= t.Keys
    decreases ids
  {
    if ids == {} then multiset{}
    else
      var id :| id in ids;
      DueBag(t, ids - {id}, now, limit)
      + if Due(t, now, limit, id) then multiset{(t[id].node, t[id].frame)} else multiset{}
  }

  // The order of the scan does not matter.
  lemma {:induction false} DueBagAdd<F>(t: Table<F>, ids: set<nat>, id: nat, now: nat, limit: nat)
    requires ids <= t.Keys && id in t && id !in ids
    ensures DueBag(t, ids + {id}, now, limit)
            == DueBag(t, ids, now, limit)
               + if Due(t, now, limit, id) then multiset{(t[id].node, t[id].frame)} else multiset{}
    decreases ids
  {
    var all := ids + {id};
    var x :| x in all && DueBag(t, all, now, limit)
                         == DueBag(t, all - {x}, now, limit)
                            + if Due(t, now, limit, x) then multiset{(t[x].node, t[x].frame)} else multiset{};
    if x == id {
      assert all - {x} == ids;
    } else {
      assert all - {x} == (ids - {x}) + {id};
      DueBagAdd(t, ids - {x}, id, now, limit);
      DueBagAdd(t, ids - {x}, x, now, limit);
      assert (ids - {x}) + {x} == ids;
    }
  }
}
